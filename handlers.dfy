/** One transition function per state-changing endpoint: given the stores
    before a request, the request fields and the request's inputs from the
    environment (the clock, the random draw, the configured admin password),
    it gives the stores afterwards, the reply and the text messages sent.
    The Server class implements each of them imperatively. */
module Handlers {
  import opened Domain
  import opened OtpCode
  import opened SessionAuthority
  import opened PostCatalog

  /** Two maps agree at key k: both lack it, or both map it to one value. */
  predicate SameAt<K, V(==)>(m1: map<K, V>, m2: map<K, V>, k: K) {
    (k in m1 <==> k in m2) && (k in m1 ==> m1[k] == m2[k])
  }

  /** POST /api/send-otp: store a fresh challenge for the phone, replacing
      any earlier one, and text the code to it. */
  function SendOtp(s: State, phone: string, draw: nat, now: int): (o: Outcome)
    requires draw < 900000
    ensures phone == "" ==> o == Outcome(s, Failed(PhoneIsRequired), [])
    ensures phone != "" ==>
      && o.reply == OtpSent
      && phone in o.state.otp
      && o.state.otp[phone] == Challenge(GenerateOtp(draw), now + OtpTtlMs)
      && o.sms == [Sms(phone, OtpMessage(GenerateOtp(draw)))]
    ensures forall p :: p != phone ==> SameAt(o.state.otp, s.otp, p)
    ensures o.state.otp.Keys == s.otp.Keys + (if phone == "" then {} else {phone})
    ensures o.state.users == s.users && o.state.posts == s.posts
    ensures o.state.adminSessions == s.adminSessions
  {
    if phone == "" then
      Outcome(s, Failed(PhoneIsRequired), [])
    else
      var code := GenerateOtp(draw);
      var otp := s.otp[phone := Challenge(code, now + OtpTtlMs)];
      Outcome(s.(otp := otp), OtpSent, [Sms(phone, OtpMessage(code))])
  }

  /** POST /api/verify-otp. Its five outcomes, each with the condition that
      selects it; only an expired or a matched challenge is consumed, and
      only a match creates the user, and only when the phone is new. */
  function VerifyOtp(s: State, phone: string, code: string, now: int): (o: Outcome)
    ensures o.sms == []
    ensures o.state.posts == s.posts && o.state.adminSessions == s.adminSessions
    ensures o.reply == Failed(PhoneAndCodeRequired) <==> phone == "" || code == ""
    ensures o.reply == Failed(NoOtpRequested) <==>
      phone != "" && code != "" && phone !in s.otp
    ensures o.reply == Failed(OtpExpired) <==>
      phone != "" && code != "" && phone in s.otp && now > s.otp[phone].expiresAt
    ensures o.reply == Failed(InvalidOtp) <==>
      && phone != "" && code != "" && phone in s.otp
      && now <= s.otp[phone].expiresAt && s.otp[phone].code != code
    ensures o.reply == Verified(phone) <==>
      && phone != "" && code != "" && phone in s.otp
      && now <= s.otp[phone].expiresAt && s.otp[phone].code == code
    ensures o.reply.Verified? ==> o.reply.token == phone
    ensures o.reply != Verified(phone) ==> o.reply.Failed?
    ensures o.reply.Failed? && o.reply != Failed(OtpExpired) ==> o.state == s
    ensures o.reply == Failed(OtpExpired) ==> o.state == s.(otp := s.otp - {phone})
    ensures o.reply.Verified? ==>
      && o.state.otp == s.otp - {phone}
      && phone in o.state.users
      && (phone in s.users ==> o.state.users == s.users)
      && (phone !in s.users ==> o.state.users == s.users[phone := User(phone, now, false)])
  {
    if phone == "" || code == "" then
      Outcome(s, Failed(PhoneAndCodeRequired), [])
    else if phone !in s.otp then
      Outcome(s, Failed(NoOtpRequested), [])
    else if now > s.otp[phone].expiresAt then
      Outcome(s.(otp := s.otp - {phone}), Failed(OtpExpired), [])
    else if s.otp[phone].code != code then
      Outcome(s, Failed(InvalidOtp), [])
    else
      var users := if phone in s.users then s.users else s.users[phone := User(phone, now, false)];
      Outcome(s.(otp := s.otp - {phone}, users := users), Verified(phone), [])
  }

  /** The messages post-item sends: always to the poster, and to the
      contact phone as well for a "found" item that names one. */
  function PostSms(posterPhone: string, itemType: string, title: string, contactPhone: string): (sms: seq<Sms>)
    ensures 1 <= |sms| <= 2 && sms[0] == Sms(posterPhone, PostedMessage(itemType, title))
    ensures |sms| == 2 <==> itemType == "found" && contactPhone != ""
    ensures |sms| == 2 ==> sms[1] == Sms(contactPhone, FoundMessage(title, posterPhone))
  {
    [Sms(posterPhone, PostedMessage(itemType, title))]
    + if itemType == "found" && contactPhone != "" then [Sms(contactPhone, FoundMessage(title, posterPhone))] else []
  }

  /** POST /api/post-item: an authenticated, unblocked user appends one
      post, numbered one past the current length of the list. */
  function PostItem(s: State, headerToken: string, bodyToken: string, itemType: string,
                    title: string, description: string, contactPhone: string, now: int): (o: Outcome)
    ensures o.state.otp == s.otp && o.state.users == s.users
    ensures o.state.adminSessions == s.adminSessions
    ensures AuthFromReq(s.users, headerToken, bodyToken).None? ==>
      o == Outcome(s, Failed(Unauthenticated), [])
    ensures AuthFromReq(s.users, headerToken, bodyToken).Some? && (itemType == "" || title == "") ==>
      o == Outcome(s, Failed(TypeAndTitleRequired), [])
    ensures AuthFromReq(s.users, headerToken, bodyToken).Some? && itemType != "" && title != "" ==>
      o.reply.Posted?
    ensures o.reply.Failed? || o.reply.Posted?
    ensures o.reply.Posted? ==>
      var user := AuthFromReq(s.users, headerToken, bodyToken);
      var p := o.reply.post;
      && user.Some? && itemType != "" && title != ""
      && o.state.posts == s.posts + [p]
      && p == Post(|s.posts| + 1, user.value.phone, itemType, title, description,
                   if contactPhone == "" then None else Some(contactPhone), now)
      && o.sms == PostSms(user.value.phone, itemType, title, contactPhone)
  {
    var user := AuthFromReq(s.users, headerToken, bodyToken);
    if user.None? then
      Outcome(s, Failed(Unauthenticated), [])
    else if itemType == "" || title == "" then
      Outcome(s, Failed(TypeAndTitleRequired), [])
    else
      var post := Post(NextId(s.posts), user.value.phone, itemType, title, description,
                       if contactPhone == "" then None else Some(contactPhone), now);
      Outcome(s.(posts := s.posts + [post]), Posted(post),
              PostSms(user.value.phone, itemType, title, contactPhone))
  }

  /** POST /api/delete-account: remove the token's user and every post of
      theirs. The user is looked up directly, so a blocked user may delete
      their account. */
  function DeleteAccount(s: State, headerToken: string, bodyToken: string): (o: Outcome)
    ensures o.sms == [] && o.state.otp == s.otp && o.state.adminSessions == s.adminSessions
    ensures TokenFrom(headerToken, bodyToken) == "" ==> o == Outcome(s, Failed(TokenRequired), [])
    ensures var t := TokenFrom(headerToken, bodyToken);
      t != "" && t !in s.users ==> o == Outcome(s, Failed(UserNotFound), [])
    ensures var t := TokenFrom(headerToken, bodyToken);
      t != "" && t in s.users ==>
        && o.reply == AccountDeleted
        && o.state.users == s.users - {s.users[t].phone}
        && o.state.posts == RemoveByPoster(s.posts, s.users[t].phone)
  {
    var token := TokenFrom(headerToken, bodyToken);
    if token == "" then
      Outcome(s, Failed(TokenRequired), [])
    else if token !in s.users then
      Outcome(s, Failed(UserNotFound), [])
    else
      var phone := s.users[token].phone;
      Outcome(s.(posts := RemoveByPoster(s.posts, phone), users := s.users - {phone}), AccountDeleted, [])
  }

  /** POST /api/admin/login: only a password equal to a configured (non-empty)
      admin password registers the fresh token as an admin session. */
  function AdminLogin(s: State, password: string, adminPassword: string, freshToken: string): (o: Outcome)
    ensures o.sms == [] && o.state.otp == s.otp && o.state.users == s.users && o.state.posts == s.posts
    ensures password == "" ==> o == Outcome(s, Failed(PasswordRequired), [])
    ensures password != "" && password != adminPassword ==> o == Outcome(s, Failed(InvalidPassword), [])
    ensures adminPassword == "" ==> o.reply.Failed? && o.state == s
    ensures password != "" && password == adminPassword ==>
      o.reply == AdminLoggedIn(freshToken) && o.state.adminSessions == s.adminSessions + {freshToken}
  {
    if password == "" then
      Outcome(s, Failed(PasswordRequired), [])
    else if adminPassword != "" && password == adminPassword then
      Outcome(s.(adminSessions := s.adminSessions + {freshToken}), AdminLoggedIn(freshToken), [])
    else
      Outcome(s, Failed(InvalidPassword), [])
  }

  /** POST /api/admin/block-user: set the blocked flag of an existing user
      (there is no way to clear it) and change nothing else. */
  function BlockUser(s: State, headerToken: string, bodyToken: string, phone: string): (o: Outcome)
    ensures o.sms == [] && o.state.otp == s.otp && o.state.posts == s.posts
    ensures o.state.adminSessions == s.adminSessions
    ensures !AdminAuth(s.adminSessions, headerToken, bodyToken) ==>
      o == Outcome(s, Failed(AdminAuthRequired), [])
    ensures AdminAuth(s.adminSessions, headerToken, bodyToken) && phone == "" ==>
      o == Outcome(s, Failed(PhoneRequired), [])
    ensures AdminAuth(s.adminSessions, headerToken, bodyToken) && phone != "" && phone !in s.users ==>
      o == Outcome(s, Failed(UserNotFound), [])
    ensures AdminAuth(s.adminSessions, headerToken, bodyToken) && phone != "" && phone in s.users ==>
      && o.reply == UserBlocked
      && o.state.users.Keys == s.users.Keys
      && o.state.users[phone] == s.users[phone].(blocked := true)
      && forall p :: p != phone ==> SameAt(o.state.users, s.users, p)
  {
    if !AdminAuth(s.adminSessions, headerToken, bodyToken) then
      Outcome(s, Failed(AdminAuthRequired), [])
    else if phone == "" then
      Outcome(s, Failed(PhoneRequired), [])
    else if phone !in s.users then
      Outcome(s, Failed(UserNotFound), [])
    else
      Outcome(s.(users := s.users[phone := s.users[phone].(blocked := true)]), UserBlocked, [])
  }
}
