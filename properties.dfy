/** What the endpoints guarantee together: an invariant of the four stores
    that every handler keeps, and the properties of request sequences
    (single use of a passcode, lazy expiry, blocking, account deletion). */
module Properties {
  import opened Domain
  import opened OtpCode
  import opened SessionAuthority
  import opened PostCatalog
  import opened Handlers

  predicate WellFormedPost(p: Post) {
    p.id >= 1 && p.itemType != "" && p.title != ""
  }

  /** The stores' invariant: users are keyed by their own phone, every
      pending passcode is six digits, and every post was validated and
      belongs to a user still in the directory (delete-account cascades). */
  predicate Consistent(s: State) {
    && (forall p :: p in s.users ==> p != "" && s.users[p].phone == p)
    && (forall p :: p in s.otp ==> p != "" && IsOtpCode(s.otp[p].code))
    && (forall q :: q in s.posts ==> WellFormedPost(q) && q.posterPhone in s.users)
  }

  lemma InitialConsistent()
    ensures Consistent(Initial())
  {
  }

  lemma SendOtpKeepsConsistent(s: State, phone: string, draw: nat, now: int)
    requires Consistent(s) && draw < 900000
    ensures Consistent(SendOtp(s, phone, draw, now).state)
  {
  }

  lemma VerifyOtpKeepsConsistent(s: State, phone: string, code: string, now: int)
    requires Consistent(s)
    ensures Consistent(VerifyOtp(s, phone, code, now).state)
  {
  }

  lemma PostItemKeepsConsistent(s: State, headerToken: string, bodyToken: string, itemType: string,
                                title: string, description: string, contactPhone: string, now: int)
    requires Consistent(s)
    ensures Consistent(PostItem(s, headerToken, bodyToken, itemType, title, description, contactPhone, now).state)
  {
  }

  lemma DeleteAccountKeepsConsistent(s: State, headerToken: string, bodyToken: string)
    requires Consistent(s)
    ensures Consistent(DeleteAccount(s, headerToken, bodyToken).state)
  {
    var t := TokenFrom(headerToken, bodyToken);
    if t != "" && t in s.users {
      RemoveByPosterMembers(s.posts, s.users[t].phone);
    }
  }

  lemma AdminLoginKeepsConsistent(s: State, password: string, adminPassword: string, freshToken: string)
    requires Consistent(s)
    ensures Consistent(AdminLogin(s, password, adminPassword, freshToken).state)
  {
  }

  lemma BlockUserKeepsConsistent(s: State, headerToken: string, bodyToken: string, phone: string)
    requires Consistent(s)
    ensures Consistent(BlockUser(s, headerToken, bodyToken, phone).state)
  {
  }

  // ---------------------------------------------------------------- OTP

  /** A passcode issued at `issued` is accepted with its own code at any
      time up to and including `issued + OtpTtlMs`. */
  lemma IssuedCodeVerifies(s: State, phone: string, draw: nat, issued: int, now: int)
    requires phone != "" && draw < 900000 && issued <= now <= issued + OtpTtlMs
    ensures var s1 := SendOtp(s, phone, draw, issued).state;
      VerifyOtp(s1, phone, GenerateOtp(draw), now).reply == Verified(phone)
  {
  }

  /** After a successful verification the challenge is gone: any further
      attempt for that phone finds no passcode. */
  lemma VerifyIsSingleUse(s: State, phone: string, code: string, now: int, code2: string, later: int)
    requires VerifyOtp(s, phone, code, now).reply.Verified?
    requires code2 != ""
    ensures VerifyOtp(VerifyOtp(s, phone, code, now).state, phone, code2, later).reply == Failed(NoOtpRequested)
  {
  }

  /** A wrong code changes nothing: the same challenge still accepts its
      own code afterwards. */
  lemma WrongCodeKeepsChallenge(s: State, phone: string, wrong: string, now: int, later: int)
    requires Consistent(s)
    requires VerifyOtp(s, phone, wrong, now).reply == Failed(InvalidOtp)
    ensures var s1 := VerifyOtp(s, phone, wrong, now).state;
      && s1 == s
      && (later <= s.otp[phone].expiresAt ==>
            VerifyOtp(s1, phone, s.otp[phone].code, later).reply == Verified(phone))
  {
  }

  /** Expiry is strict: the code is still accepted at the very instant
      `expiresAt`, and refused one millisecond later. */
  lemma ExpiryIsStrict(s: State, phone: string)
    requires phone != "" && phone in s.otp && s.otp[phone].code != ""
    ensures var c := s.otp[phone];
      && VerifyOtp(s, phone, c.code, c.expiresAt).reply == Verified(phone)
      && VerifyOtp(s, phone, c.code, c.expiresAt + 1).reply == Failed(OtpExpired)
  {
  }

  /** An expired challenge is deleted when it is detected, so the next
      attempt finds no passcode, whatever its code and time. */
  lemma ExpiredThenNoOtp(s: State, phone: string, code: string, now: int, code2: string, later: int)
    requires VerifyOtp(s, phone, code, now).reply == Failed(OtpExpired)
    requires code2 != ""
    ensures VerifyOtp(VerifyOtp(s, phone, code, now).state, phone, code2, later).reply == Failed(NoOtpRequested)
  {
  }

  /** A second send-otp for the same phone replaces the first challenge:
      within the new lifetime the first code is refused as invalid. */
  lemma ReissueInvalidatesEarlierCode(s: State, phone: string, d1: nat, d2: nat, t1: int, t2: int, now: int)
    requires phone != "" && d1 < 900000 && d2 < 900000 && d1 != d2
    requires now <= t2 + OtpTtlMs
    ensures var s2 := SendOtp(SendOtp(s, phone, d1, t1).state, phone, d2, t2).state;
      VerifyOtp(s2, phone, GenerateOtp(d1), now).reply == Failed(InvalidOtp)
  {
    GenerateOtpInjective(d1, d2);
  }

  /** At any time at all, the earlier code of a re-issued phone is refused:
      as invalid while the new code lives, as expired afterwards. */
  lemma ReissuedEarlierCodeNeverVerifies(s: State, phone: string, d1: nat, d2: nat, t1: int, t2: int, now: int)
    requires phone != "" && d1 < 900000 && d2 < 900000 && d1 != d2
    ensures var s2 := SendOtp(SendOtp(s, phone, d1, t1).state, phone, d2, t2).state;
      VerifyOtp(s2, phone, GenerateOtp(d1), now).reply in {Failed(InvalidOtp), Failed(OtpExpired)}
  {
    GenerateOtpInjective(d1, d2);
  }

  /** Verifying again for a phone that already has a record leaves the
      record alone, blocked flag included. */
  lemma ReverifyKeepsUser(s: State, phone: string, code: string, now: int)
    requires phone in s.users
    requires VerifyOtp(s, phone, code, now).reply.Verified?
    ensures VerifyOtp(s, phone, code, now).state.users == s.users
  {
  }

  // ---------------------------------------------------------------- users

  /** Blocking: a user who could authenticate before is refused afterwards,
      their posts stay listed, and post-item answers 401. */
  lemma BlockRevokesUserToken(s: State, headerToken: string, bodyToken: string, phone: string,
                              itemType: string, title: string, description: string, contactPhone: string, now: int)
    requires BlockUser(s, headerToken, bodyToken, phone).reply == UserBlocked
    ensures var s1 := BlockUser(s, headerToken, bodyToken, phone).state;
      && phone in s.users
      && (!s.users[phone].blocked ==> AuthFromReq(s.users, phone, "") == Some(s.users[phone]))
      && AuthFromReq(s1.users, phone, "") == None
      && s1.posts == s.posts
      && PostItem(s1, phone, "", itemType, title, description, contactPhone, now)
         == Outcome(s1, Failed(Unauthenticated), [])
  {
  }

  /** A blocked user's token still deletes the account. */
  lemma BlockedUserCanDeleteAccount(s: State, phone: string)
    requires phone != "" && phone in s.users && s.users[phone].blocked
    ensures DeleteAccount(s, phone, "").reply == AccountDeleted
  {
  }

  /** Deleting an account removes exactly that account's posts, keeping the
      others in order, and its token no longer works for either endpoint. */
  lemma DeleteAccountRemovesExactlyOwnPosts(s: State, headerToken: string, bodyToken: string)
    requires Consistent(s)
    requires DeleteAccount(s, headerToken, bodyToken).reply == AccountDeleted
    ensures var t := TokenFrom(headerToken, bodyToken);
      var s1 := DeleteAccount(s, headerToken, bodyToken).state;
      && (forall q :: q in s1.posts <==> q in s.posts && q.posterPhone != t)
      && |s1.posts| == |s.posts| - CountByPoster(s.posts, t)
      && AuthFromReq(s1.users, t, "") == None
      && DeleteAccount(s1, t, "").reply == Failed(UserNotFound)
  {
    RemoveByPosterLength(s.posts, TokenFrom(headerToken, bodyToken));
    RemoveByPosterMembers(s.posts, TokenFrom(headerToken, bodyToken));
  }

  // ---------------------------------------------------------------- admin

  /** A successful admin login yields a token that admin checks accept
      (unless the token drawn is empty) and that a user check ignores. */
  lemma LoginGrantsAdmin(s: State, password: string, adminPassword: string, freshToken: string)
    requires AdminLogin(s, password, adminPassword, freshToken).reply.AdminLoggedIn?
    ensures var s1 := AdminLogin(s, password, adminPassword, freshToken).state;
      && password == adminPassword && adminPassword != ""
      && (freshToken != "" ==> AdminAuth(s1.adminSessions, freshToken, ""))
      && s1.users == s.users
  {
  }

  /** An end-to-end admin example: a wrong password is refused with 401; the
      right one yields token T; blocking a registered phone with T succeeds
      and the phone's next post-item is answered with 401. */
  lemma AdminBlockWalkthrough(s: State, adminPassword: string, wrong: string, token: string, phone: string)
    requires adminPassword != "" && wrong != "" && wrong != adminPassword && token != ""
    requires phone != "" && phone in s.users
    ensures AdminLogin(s, wrong, adminPassword, token).reply.Status() == 401
    ensures var s1 := AdminLogin(s, adminPassword, adminPassword, token).state;
      var s2 := BlockUser(s1, token, "", phone).state;
      && BlockUser(s1, token, "", phone).reply == UserBlocked
      && PostItem(s2, phone, "", "lost", "Wallet", "", "", 0).reply.Status() == 401
  {
  }

  // ---------------------------------------------------------------- post ids

  /** With no deletion in between, post-item keeps ids dense, so they are
      distinct. */
  lemma PostItemKeepsDenseIds(s: State, headerToken: string, bodyToken: string, itemType: string,
                              title: string, description: string, contactPhone: string, now: int)
    requires DenseIds(s.posts)
    ensures DenseIds(PostItem(s, headerToken, bodyToken, itemType, title, description, contactPhone, now).state.posts)
  {
  }

  /** An end-to-end user example from empty stores: send-otp, verify with the code sent, then a
      "lost" post titled "Wallet" gets id 1 and the phone as poster. */
  lemma FirstPostWalkthrough(phone: string, draw: nat, now: int)
    requires phone != "" && draw < 900000
    ensures var s1 := SendOtp(Initial(), phone, draw, now).state;
      var v := VerifyOtp(s1, phone, GenerateOtp(draw), now);
      var p := PostItem(v.state, phone, "", "lost", "Wallet", "", "", now);
      && v.reply == Verified(phone)
      && p.reply.Posted?
      && p.reply.post.id == 1 && p.reply.post.posterPhone == phone
      && p.reply.post.itemType == "lost" && p.reply.post.title == "Wallet"
  {
  }

  /** Ids are not unique: after delete-account shortens the list, the next
      post takes an id that a remaining post already has. Users a and b
      verify, each posts (ids 1 and 2), a deletes the account, b posts
      again and also gets id 2. */
  lemma PostIdsCanRepeat(a: string, b: string, draw: nat, now: int)
    requires a != "" && b != "" && a != b && draw < 900000
    ensures
      var code := GenerateOtp(draw);
      var s1 := VerifyOtp(SendOtp(Initial(), a, draw, now).state, a, code, now).state;
      var s2 := VerifyOtp(SendOtp(s1, b, draw, now).state, b, code, now).state;
      var s3 := PostItem(s2, a, "", "lost", "Wallet", "", "", now).state;
      var s4 := PostItem(s3, b, "", "found", "Keys", "", "", now).state;
      var s5 := DeleteAccount(s4, a, "").state;
      var s6 := PostItem(s5, b, "", "lost", "Phone", "", "", now).state;
      |s6.posts| == 2 && s6.posts[0].id == s6.posts[1].id == 2
  {
    var code := GenerateOtp(draw);
    var s1 := VerifyOtp(SendOtp(Initial(), a, draw, now).state, a, code, now).state;
    assert s1.users.Keys == {a};
    var s2 := VerifyOtp(SendOtp(s1, b, draw, now).state, b, code, now).state;
    assert s2.users.Keys == {a, b} && s2.posts == [];
    var s3 := PostItem(s2, a, "", "lost", "Wallet", "", "", now).state;
    assert |s3.posts| == 1 && s3.posts[0].posterPhone == a && s3.posts[0].id == 1;
    var s4 := PostItem(s3, b, "", "found", "Keys", "", "", now).state;
    assert s4.posts == s3.posts + [s4.posts[1]] && s4.posts[1].posterPhone == b && s4.posts[1].id == 2;
    var s5 := DeleteAccount(s4, a, "").state;
    RemoveByPosterAppend(s3.posts, [s4.posts[1]], a);
    RemoveByPosterAppend(s3.posts[..0], s3.posts[0..], a);
    assert s5.posts == [s4.posts[1]];
    assert s5.users.Keys == {b};
  }
}
