/** Values shared by the whole service: the records kept in the four
    in-memory stores, the replies of the HTTP endpoints and the outgoing
    text messages. A request field that the client left out (or sent as a
    JavaScript falsy value) is modelled as the empty string. */
module Domain {

  datatype Option<+T> = None | Some(value: T)

  /** Lifetime of a one-time passcode: five minutes, in milliseconds. */
  const OtpTtlMs: int := 5 * 60 * 1000

  /** A pending OTP challenge, the value of the OTP store keyed by phone. */
  datatype Challenge = Challenge(code: string, expiresAt: int)

  /** A record of the user directory, keyed by phone. */
  datatype User = User(phone: string, createdAt: int, blocked: bool)

  /** A lost-or-found item post. The source calls `itemType` simply `type`. */
  datatype Post = Post(
    id: int,
    posterPhone: string,
    itemType: string,
    title: string,
    description: string,
    contactPhone: Option<string>,
    createdAt: int)

  /** A text message handed to the SMS gateway. */
  datatype Sms = Sms(to: string, body: string)

  /** The four stores of the server process. */
  datatype State = State(
    otp: map<string, Challenge>,
    users: map<string, User>,
    posts: seq<Post>,
    adminSessions: set<string>)

  /** The process starts with every store empty. */
  function Initial(): State {
    State(map[], map[], [], {})
  }

  /** Every error reply the endpoints produce, one constructor per message. */
  datatype Error =
    | PhoneIsRequired        // send-otp
    | PhoneAndCodeRequired   // verify-otp
    | NoOtpRequested
    | OtpExpired
    | InvalidOtp
    | Unauthenticated        // post-item
    | TypeAndTitleRequired
    | TokenRequired          // delete-account
    | UserNotFound           // delete-account, block-user
    | PasswordRequired       // admin login
    | InvalidPassword
    | AdminAuthRequired      // admin endpoints
    | PhoneRequired          // block-user
  {
    /** The HTTP status the endpoint answers with. */
    function Status(): (code: int)
      ensures code == 400 || code == 401 || code == 404
      ensures code == 401 <==> this in {Unauthenticated, InvalidPassword, AdminAuthRequired}
      ensures code == 404 <==> this == UserNotFound
    {
      match this
      case Unauthenticated | InvalidPassword | AdminAuthRequired => 401
      case UserNotFound => 404
      case _ => 400
    }

    /** The `error` text of the JSON reply. */
    function Message(): (m: string)
      ensures m != ""
    {
      match this
      case PhoneIsRequired => "phone is required"
      case PhoneAndCodeRequired => "phone and code are required"
      case NoOtpRequested => "no otp requested for this phone"
      case OtpExpired => "otp expired"
      case InvalidOtp => "invalid otp"
      case Unauthenticated => "unauthenticated or blocked"
      case TypeAndTitleRequired => "type and title required"
      case TokenRequired => "token required"
      case UserNotFound => "user not found"
      case PasswordRequired => "password required"
      case InvalidPassword => "invalid password"
      case AdminAuthRequired => "admin auth required"
      case PhoneRequired => "phone required"
    }
  }

  /** The reply of an endpoint: a success payload (HTTP 200) or an error. */
  datatype Reply =
    | OtpSent
    | Verified(token: string)
    | Posted(post: Post)
    | PostList(posts: seq<Post>)
    | UserList(users: set<User>)
    | AccountDeleted
    | AdminLoggedIn(token: string)
    | UserBlocked
    | Failed(error: Error)
  {
    function Status(): (code: int)
      ensures code == 200 <==> !Failed?
      ensures Failed? ==> code == error.Status()
    {
      if Failed? then error.Status() else 200
    }
  }

  /** What one request does: the stores afterwards, the reply, and the text
      messages it sends, in the order it sends them. */
  datatype Outcome = Outcome(state: State, reply: Reply, sms: seq<Sms>)

  /** Two different errors never share a text, so a client can tell them
      apart by the message alone. */
  lemma MessagesDistinct(e1: Error, e2: Error)
    requires e1 != e2
    ensures e1.Message() != e2.Message()
  {
  }

  /** The text of the OTP message sent by send-otp: it carries the code. */
  function OtpMessage(code: string): (m: string)
    ensures |m| == 32 + |code| + 26 && m[32..32 + |code|] == code
  {
    "Your Campus Lost & Found OTP is " + code + ". It expires in 5 minutes."
  }

  /** The confirmation sent to the poster of a new item. */
  function PostedMessage(itemType: string, title: string): (m: string)
    ensures |m| == 21 + |itemType| + 16 + |title|
    ensures m[21..21 + |itemType|] == itemType && m[|m| - |title|..] == title
  {
    "You posted the item (" + itemType + ") successfully: " + title
  }

  /** The notice sent to the contact of a "found" item. */
  function FoundMessage(title: string, posterPhone: string): (m: string)
    ensures |m| == 31 + |title| + 11 + |posterPhone|
    ensures m[31..31 + |title|] == title && m[|m| - |posterPhone|..] == posterPhone
  {
    "Your item may have been found: " + title + ". Contact: " + posterPhone
  }
}
