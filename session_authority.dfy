/** Bearer-token checks. A user token is the phone number itself; an admin
    token is an opaque string registered by admin login. The two scopes are
    looked up in different stores. */
module SessionAuthority {
  import opened Domain

  /** The token of a request: the header value when it is present,
      otherwise the body field. */
  function TokenFrom(header: string, body: string): (t: string)
    ensures header != "" ==> t == header
    ensures header == "" ==> t == body
    ensures t == "" <==> header == "" && body == ""
  {
    if header != "" then header else body
  }

  /** authFromReq: the user a request acts for, if any. A blocked user is
      refused exactly like an unknown phone. */
  function AuthFromReq(users: map<string, User>, header: string, body: string): (u: Option<User>)
    ensures u.Some? <==> var t := TokenFrom(header, body);
      t != "" && t in users && !users[t].blocked
    ensures u.Some? ==> TokenFrom(header, body) in users && u.value == users[TokenFrom(header, body)]
    ensures u.Some? ==> !u.value.blocked
  {
    var token := TokenFrom(header, body);
    if token == "" then None
    else if token in users && !users[token].blocked then Some(users[token])
    else None
  }

  /** adminAuth: whether the request carries a registered admin token. */
  function AdminAuth(sessions: set<string>, header: string, body: string): (ok: bool)
    ensures ok <==> TokenFrom(header, body) != "" && TokenFrom(header, body) in sessions
    ensures ok ==> header in sessions || body in sessions
  {
    var t := TokenFrom(header, body);
    t != "" && t in sessions
  }

  /** A blocked user's token is indistinguishable from a phone that never
      registered. */
  lemma BlockedLikeUnknown(users: map<string, User>, phone: string)
    requires phone in users && users[phone].blocked
    ensures AuthFromReq(users, phone, "") == AuthFromReq(users - {phone}, phone, "") == None
  {
  }
}
