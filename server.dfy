/** The server process: the OTP store, the user directory, the post list and
    the admin sessions as fields, and one method per HTTP endpoint that
    updates them step by step. Each state-changing method is proved to do
    exactly what its transition function in Handlers describes, and to keep
    the stores' invariant (Properties.Consistent). */
module Server {
  import opened Domain
  import opened OtpCode
  import opened SessionAuthority
  import opened PostCatalog
  import Handlers
  import Properties

  class Server {
    var otp: map<string, Challenge>       // phone -> pending challenge
    var users: map<string, User>          // phone -> user record
    var posts: seq<Post>                  // in creation order
    var adminSessions: set<string>        // registered admin tokens

    /** The four stores as one value. */
    function Snapshot(): State
      reads this
    {
      State(otp, users, posts, adminSessions)
    }

    ghost predicate Valid()
      reads this
    {
      Properties.Consistent(Snapshot())
    }

    constructor ()
      ensures Snapshot() == Initial() && Valid()
    {
      otp, users, posts, adminSessions := map[], map[], [], {};
    }

    /** POST /api/send-otp; `draw` stands for the random part of generateOtp. */
    method SendOtp(phone: string, draw: nat, now: int) returns (reply: Reply, sms: seq<Sms>)
      requires draw < 900000
      modifies this
      ensures Outcome(Snapshot(), reply, sms) == Handlers.SendOtp(old(Snapshot()), phone, draw, now)
      ensures old(Valid()) ==> Valid()
    {
      if Valid() {
        Properties.SendOtpKeepsConsistent(Snapshot(), phone, draw, now);
      }
      if phone == "" {
        return Failed(PhoneIsRequired), [];
      }
      var code := GenerateOtp(draw);
      var expiresAt := now + OtpTtlMs;
      otp := otp[phone := Challenge(code, expiresAt)];
      reply, sms := OtpSent, [Sms(phone, OtpMessage(code))];
    }

    /** POST /api/verify-otp. */
    method VerifyOtp(phone: string, code: string, now: int) returns (reply: Reply)
      modifies this
      ensures Outcome(Snapshot(), reply, []) == Handlers.VerifyOtp(old(Snapshot()), phone, code, now)
      ensures old(Valid()) ==> Valid()
    {
      if Valid() {
        Properties.VerifyOtpKeepsConsistent(Snapshot(), phone, code, now);
      }
      if phone == "" || code == "" {
        return Failed(PhoneAndCodeRequired);
      }
      if phone !in otp {
        return Failed(NoOtpRequested);
      }
      var entry := otp[phone];
      if now > entry.expiresAt {
        otp := otp - {phone};
        return Failed(OtpExpired);
      }
      if entry.code != code {
        return Failed(InvalidOtp);
      }
      otp := otp - {phone};
      if phone !in users {
        users := users[phone := User(phone, now, false)];
      }
      reply := Verified(phone);
    }

    /** POST /api/post-item. */
    method PostItem(headerToken: string, bodyToken: string, itemType: string, title: string,
                    description: string, contactPhone: string, now: int)
      returns (reply: Reply, sms: seq<Sms>)
      modifies this
      ensures Outcome(Snapshot(), reply, sms)
           == Handlers.PostItem(old(Snapshot()), headerToken, bodyToken, itemType, title, description, contactPhone, now)
      ensures old(Valid()) ==> Valid()
    {
      if Valid() {
        Properties.PostItemKeepsConsistent(Snapshot(), headerToken, bodyToken, itemType, title,
                                           description, contactPhone, now);
      }
      var user := AuthFromReq(users, headerToken, bodyToken);
      if user.None? {
        return Failed(Unauthenticated), [];
      }
      if itemType == "" || title == "" {
        return Failed(TypeAndTitleRequired), [];
      }
      var id := |posts| + 1;
      var contact := if contactPhone == "" then None else Some(contactPhone);
      var post := Post(id, user.value.phone, itemType, title, description, contact, now);
      posts := posts + [post];
      sms := [Sms(user.value.phone, PostedMessage(itemType, title))];
      if itemType == "found" && contactPhone != "" {
        sms := sms + [Sms(contactPhone, FoundMessage(title, user.value.phone))];
      }
      reply := Posted(post);
    }

    /** GET /api/posts. */
    method ListPosts() returns (reply: Reply)
      ensures reply == PostList(posts)
    {
      reply := PostList(posts);
    }

    /** The removal loop of delete-account: walks the list backwards and
        splices each post by `phone` out of it in place. */
    method RemovePostsBy(phone: string)
      modifies this`posts
      ensures posts == RemoveByPoster(old(posts), phone)
    {
      ghost var before := posts;
      var i := |posts| - 1;
      while i >= 0
        invariant -1 <= i < |before|
        invariant posts == before[..i + 1] + RemoveByPoster(before[i + 1..], phone)
        decreases i
      {
        ghost var rest := RemoveByPoster(before[i + 1..], phone);
        SplitAt(before, rest, i);
        RemoveByPosterStep(before, i, phone);
        if posts[i].posterPhone == phone {
          posts := posts[..i] + posts[i + 1..];
        }
        i := i - 1;
      }
      assert before[0..] == before;
    }

    /** POST /api/delete-account. */
    method DeleteAccount(headerToken: string, bodyToken: string) returns (reply: Reply)
      modifies this
      ensures Outcome(Snapshot(), reply, []) == Handlers.DeleteAccount(old(Snapshot()), headerToken, bodyToken)
      ensures old(Valid()) ==> Valid()
    {
      if Valid() {
        Properties.DeleteAccountKeepsConsistent(Snapshot(), headerToken, bodyToken);
      }
      var token := TokenFrom(headerToken, bodyToken);
      if token == "" {
        return Failed(TokenRequired);
      }
      if token !in users {
        return Failed(UserNotFound);
      }
      var user := users[token];
      RemovePostsBy(user.phone);
      users := users - {user.phone};
      reply := AccountDeleted;
    }

    /** POST /api/admin/login; `adminPassword` is the configured password
        ("" when unset) and `freshToken` the randomly minted token. */
    method AdminLogin(password: string, adminPassword: string, freshToken: string) returns (reply: Reply)
      modifies this
      ensures Outcome(Snapshot(), reply, []) == Handlers.AdminLogin(old(Snapshot()), password, adminPassword, freshToken)
      ensures old(Valid()) ==> Valid()
    {
      if Valid() {
        Properties.AdminLoginKeepsConsistent(Snapshot(), password, adminPassword, freshToken);
      }
      if password == "" {
        return Failed(PasswordRequired);
      }
      if adminPassword != "" && password == adminPassword {
        adminSessions := adminSessions + {freshToken};
        return AdminLoggedIn(freshToken);
      }
      reply := Failed(InvalidPassword);
    }

    /** GET /api/admin/users: the user records, for an admin only. */
    method AdminUsers(headerToken: string, bodyToken: string) returns (reply: Reply)
      ensures AdminAuth(adminSessions, headerToken, bodyToken) ==> reply == UserList(users.Values)
      ensures !AdminAuth(adminSessions, headerToken, bodyToken) ==> reply == Failed(AdminAuthRequired)
    {
      if !AdminAuth(adminSessions, headerToken, bodyToken) {
        return Failed(AdminAuthRequired);
      }
      reply := UserList(users.Values);
    }

    /** GET /api/admin/posts: the post list, for an admin only. */
    method AdminPosts(headerToken: string, bodyToken: string) returns (reply: Reply)
      ensures AdminAuth(adminSessions, headerToken, bodyToken) ==> reply == PostList(posts)
      ensures !AdminAuth(adminSessions, headerToken, bodyToken) ==> reply == Failed(AdminAuthRequired)
    {
      if !AdminAuth(adminSessions, headerToken, bodyToken) {
        return Failed(AdminAuthRequired);
      }
      reply := PostList(posts);
    }

    /** POST /api/admin/block-user. */
    method BlockUser(headerToken: string, bodyToken: string, phone: string) returns (reply: Reply)
      modifies this
      ensures Outcome(Snapshot(), reply, []) == Handlers.BlockUser(old(Snapshot()), headerToken, bodyToken, phone)
      ensures old(Valid()) ==> Valid()
    {
      if Valid() {
        Properties.BlockUserKeepsConsistent(Snapshot(), headerToken, bodyToken, phone);
      }
      if !AdminAuth(adminSessions, headerToken, bodyToken) {
        return Failed(AdminAuthRequired);
      }
      if phone == "" {
        return Failed(PhoneRequired);
      }
      if phone !in users {
        return Failed(UserNotFound);
      }
      var u := users[phone];
      u := u.(blocked := true);
      users := users[phone := u];
      reply := UserBlocked;
    }
  }
}
