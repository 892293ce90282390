# Campus Lost & Found server: a Dafny model of its in-memory state machine

The service lets a user prove that they own a phone number with a one-time
passcode (OTP), then post "lost" or "found" items. An admin can list users
and posts and block accounts. The model covers all state the request
handlers keep. There are four stores:

- the OTP store: phone → `{code, expiresAt}`
- the user directory: phone → `{phone, createdAt, blocked}`
- the post list
- the admin sessions

It also covers every HTTP handler that reads or changes them.

Layout:

- `domain.dfy` (module `Domain`): the records, the error replies with their HTTP status and text, the texts of the outgoing SMS messages, and the `State` and `Outcome` values.
- `otp_code.dfy` (`OtpCode`): `generateOtp`. The random draw becomes an integer; its decimal rendering is modelled exactly, and proved to be a six-digit code that reads back to the value it renders.
- `session_authority.dfy` (`SessionAuthority`): `authFromReq` and `adminAuth`. A token is the header value if present, else the body field.
- `post_catalog.dfy` (`PostCatalog`): the list that delete-account leaves behind, and how ids are assigned.
- `handlers.dfy` (`Handlers`): one transition function per state-changing endpoint. Each maps the stores before a request to the stores after it, the reply and the SMS messages sent. Each function's contract lists every outcome with the condition that selects it.
- `properties.dfy` (`Properties`): the stores' invariant `Consistent`, preserved by every handler, and properties of request sequences. These cover passcode single use, strict and lazy expiry, re-issue, blocking, account deletion, the admin flow, and post ids.
- `server.dfy` (`Server`): the class `Server`. It holds the four stores as fields and has one method per endpoint that updates them step by step. It includes the backward splice loop of delete-account. Each state-changing method is proved equal to its `Handlers` function and to keep `Consistent`.

The environment is passed in as arguments:

- the clock, as `now`
- the random draw of `generateOtp`, as `draw`
- the randomly minted admin token, as `freshToken`
- the configured `ADMIN_PASSWORD`, as `adminPassword` (`""` when unset)

A request field that is missing or JavaScript-falsy is the empty string.

Three behaviours of the code are easy to mistake for stronger guarantees;
the model keeps them as written:

- Post ids are `posts.length + 1`. Ids can therefore repeat once delete-account has removed posts (`Properties.PostIdsCanRepeat` exhibits a repeat). While no post is removed they stay dense, hence distinct (`Properties.PostItemKeepsDenseIds`, `PostCatalog.DenseIdsDistinct`).
- post-item checks `type` only for being non-empty, not for being `lost` or `found`.
- delete-account looks the user up without the blocked check, so a blocked user can delete their account (`Properties.BlockedUserCanDeleteAccount`).

## Model

| member | source | states |
|---|---|---|
| `Domain.Error.Status` | server.js:63-186 | each error's HTTP status: 401 exactly for the unauthenticated, wrong-password and missing-admin errors, 404 exactly for an unknown user, 400 for every other error |
| `Domain.Error.Message` | server.js:63-186 | each error's reply carries a non-empty text, the one the endpoint sends |
| `Domain.MessagesDistinct` | server.js:63-186 | two different errors never carry the same text |
| `Domain.Reply.Status` | server.js:63-186 | a reply answers 200 exactly when it is not an error, and a failed reply answers with its error's own status |
| `Domain.OtpMessage` | server.js:69 | the OTP text embeds the code verbatim at a fixed position after the fixed prefix |
| `Domain.PostedMessage` | server.js:124 | the confirmation text embeds the item type at a fixed position and ends with the title |
| `Domain.FoundMessage` | server.js:128 | the found notice embeds the title at a fixed position and ends with the poster's phone |
| `OtpCode.Decimal` | server.js:42 | the rendering of a number is a non-empty string of digits with no leading zero |
| `OtpCode.ValueOfDecimal` | server.js:42 | reading a rendered number back gives the number |
| `OtpCode.DecimalLength` | server.js:42 | a number with k+1 digits renders as k+1 characters |
| `OtpCode.GenerateOtp` | server.js:41-43 | the code for a draw in [0, 900000) is six digits, not starting with 0, and denotes 100000 + draw |
| `OtpCode.GenerateOtpInjective` | server.js:41-43 | different draws give different codes |
| `SessionAuthority.TokenFrom` | server.js:106 | the token is the header value when present, otherwise the body field; it is empty only when both are |
| `SessionAuthority.AuthFromReq` | server.js:105-110 | a user is returned iff the token is non-empty, names a user and that user is not blocked; the user returned is the directory's record |
| `SessionAuthority.AdminAuth` | server.js:165-168 | true iff the token is non-empty and a registered admin session |
| `SessionAuthority.BlockedLikeUnknown` | server.js:107-109 | a blocked user's token is refused exactly like an unregistered phone |
| `PostCatalog.RemoveByPoster` | server.js:145-147 | the list left after removing the phone's posts is no longer than the input |
| `PostCatalog.RemoveByPosterMembers` | server.js:145-147 | a post survives iff it was in the list and is not by the phone; no survivor is by the phone |
| `PostCatalog.SplitAt` | server.js:146 | splicing out index i of (prefix up to i) + rest leaves the shorter prefix + rest, and element i is the prefix's element i |
| `PostCatalog.RemoveByPosterStep` | server.js:145-146 | removing from index i on decides post i, then goes on from i+1 |
| `PostCatalog.RemoveByPosterAppend` | server.js:145-147 | removal from a concatenation is the concatenation of the removals, so relative order is kept |
| `PostCatalog.RemoveByPosterNoMatch` | server.js:145-147 | a list without posts by the phone is left unchanged |
| `PostCatalog.RemoveByPosterIdempotent` | server.js:145-147 | removing twice equals removing once |
| `PostCatalog.RemoveByPosterLength` | server.js:145-147 | the list shrinks by exactly the number of posts by the phone |
| `PostCatalog.NextId` | server.js:119 | a new id is at least 1 and exceeds the current list length |
| `PostCatalog.DenseIdsDistinct` | server.js:119-121 | ids numbered 1..n by position are pairwise distinct |
| `PostCatalog.DenseIdsAppend` | server.js:119-121 | appending a post numbered by NextId keeps ids numbered 1..n+1 |
| `Handlers.SendOtp` | server.js:61-69 | missing phone: 400, nothing changes, nothing sent. Otherwise the phone's challenge is set to (code, now + 300000), replacing any earlier one; every other phone's entry and every other store is unchanged; one SMS with the code goes to the phone |
| `Handlers.VerifyOtp` | server.js:80-102 | each of the five replies holds iff its condition holds. Missing field, no challenge, or wrong code: nothing changes. Expired (now > expiresAt): only the challenge is deleted. Match: the challenge is deleted, the user is added only if absent, and the token is the phone. No SMS, posts and sessions untouched |
| `Handlers.PostSms` | server.js:123-129 | a post always texts the poster; it also texts the contact phone exactly when the type is "found" and a contact phone is given |
| `Handlers.PostItem` | server.js:112-131 | unauthenticated or blocked: 401; empty type or title: 400; both leave everything unchanged. An authenticated request with non-empty type and title is always accepted, and then exactly one post is appended: id length+1, poster the user's phone, given type, title and description, contact phone or none, createdAt now. Other stores are untouched |
| `Handlers.DeleteAccount` | server.js:138-150 | no token: 400; unknown user: 404; both leave everything unchanged. Otherwise the user is removed and the posts become the old posts minus that user's; OTP store and admin sessions are untouched |
| `Handlers.AdminLogin` | server.js:154-163 | no password: 400; a password other than the configured one, or no configured password: 401, nothing changes. A match adds the fresh token to the admin sessions and returns it |
| `Handlers.BlockUser` | server.js:181-190 | not an admin: 401; no phone: 400; unknown phone: 404; all without change. Otherwise only that user's blocked flag becomes true; the directory's keys, other users, posts, OTP store and sessions are unchanged |
| `Properties.InitialConsistent` | server.js:30-34 | the empty stores satisfy the invariant |
| `Properties.SendOtpKeepsConsistent` | server.js:61-67 | send-otp keeps the invariant: users keyed by their own phone, pending codes six digits, each post well-formed and by a user present |
| `Properties.VerifyOtpKeepsConsistent` | server.js:80-102 | verify-otp keeps the invariant |
| `Properties.PostItemKeepsConsistent` | server.js:112-121 | post-item keeps the invariant |
| `Properties.DeleteAccountKeepsConsistent` | server.js:138-150 | delete-account keeps the invariant: no post is left whose poster was deleted |
| `Properties.AdminLoginKeepsConsistent` | server.js:154-163 | admin login keeps the invariant |
| `Properties.BlockUserKeepsConsistent` | server.js:181-190 | block-user keeps the invariant |
| `Properties.IssuedCodeVerifies` | server.js:65-67 | a code issued at t is accepted for its phone at any time in [t, t + 300000] |
| `Properties.VerifyIsSingleUse` | server.js:94 | after a successful verify, the next attempt for the phone gets "no otp requested" |
| `Properties.WrongCodeKeepsChallenge` | server.js:92 | a wrong code changes nothing, and the stored code still verifies before expiry |
| `Properties.ExpiryIsStrict` | server.js:87 | the code is accepted at exactly expiresAt and refused as expired one millisecond later |
| `Properties.ExpiredThenNoOtp` | server.js:87-90 | after "otp expired" the next attempt gets "no otp requested" |
| `Properties.ReissueInvalidatesEarlierCode` | server.js:67 | after a second send-otp with a different draw, the first code is refused as invalid within the new code's lifetime |
| `Properties.ReissuedEarlierCodeNeverVerifies` | server.js:64-92 | after a second send-otp with a different draw, the first code never verifies: it is refused as invalid or, once the new code has lapsed, as expired |
| `Properties.ReverifyKeepsUser` | server.js:96-98 | verifying a phone that already has a record leaves the user directory as it was, blocked flag included |
| `Properties.BlockRevokesUserToken` | server.js:181-190 | before the block, an unblocked user authenticates; after it, the phone's token is refused, post-item answers 401 without change, and the posts stay |
| `Properties.BlockedUserCanDeleteAccount` | server.js:139-142 | a blocked user's token still deletes the account |
| `Properties.DeleteAccountRemovesExactlyOwnPosts` | server.js:138-150 | after deletion a post remains iff it was there and not by the account; the list shrinks by that account's count; the token neither authenticates nor finds a user again |
| `Properties.LoginGrantsAdmin` | server.js:156-160 | a successful login implies a configured password equal to the one given, and admin checks accept the new (non-empty) token |
| `Properties.AdminBlockWalkthrough` | server.js:154-190 | a wrong password gets 401; with the right one, blocking a registered phone succeeds and that phone's next post gets 401 |
| `Properties.PostItemKeepsDenseIds` | server.js:119-121 | while no post is removed, post ids stay 1..n in order |
| `Properties.FirstPostWalkthrough` | server.js:61-131 | from empty stores: send-otp, verify with the sent code, then a "lost" post titled "Wallet" gets id 1 and the phone as poster |
| `Properties.PostIdsCanRepeat` | server.js:119 | two users post (ids 1, 2); the first deletes the account; the second posts again and also gets id 2 |
| `Server.Server.constructor` | server.js:30-34 | a new server has all four stores empty, which satisfies the invariant |
| `Server.Server.SendOtp` | server.js:61-69 | the method's new stores, reply and messages are those of Handlers.SendOtp, and it keeps the invariant |
| `Server.Server.VerifyOtp` | server.js:80-102 | the new stores and reply are those of Handlers.VerifyOtp, and it keeps the invariant |
| `Server.Server.PostItem` | server.js:112-131 | the new stores, reply and messages are those of Handlers.PostItem, and it keeps the invariant |
| `Server.Server.ListPosts` | server.js:134-136 | returns the whole post list in creation order |
| `Server.Server.RemovePostsBy` | server.js:145-147 | the backward splice loop leaves the post list equal to RemoveByPoster of the old list |
| `Server.Server.DeleteAccount` | server.js:138-150 | the new stores and reply are those of Handlers.DeleteAccount, and it keeps the invariant |
| `Server.Server.AdminLogin` | server.js:154-163 | the new stores and reply are those of Handlers.AdminLogin, and it keeps the invariant |
| `Server.Server.AdminUsers` | server.js:170-174 | an admin gets the user records; anyone else gets 401 |
| `Server.Server.AdminPosts` | server.js:176-179 | an admin gets the post list; anyone else gets 401 |
| `Server.Server.BlockUser` | server.js:181-190 | the new stores and reply are those of Handlers.BlockUser, and it keeps the invariant |

## Left out

- Express wiring, CORS, JSON body parsing, static files, `dotenv` and `app.listen` (server.js:1-10, 192) are framework plumbing.
- Rate limiting (server.js:13-23) lives in an external library with time windows. Requests are modelled as if they all got through.
- Twilio and the body of `sendSms` (server.js:36-59) are network I/O. Outgoing messages are returned as data (`Sms(to, body)`).
- The `sent` and `note` fields of the send-otp reply depend on the delivery result, so `OtpSent` carries neither.
- Reply JSON fields beyond the payload and the error text are not modelled: the `ok` field, which is `false` on some errors (server.js:85, 89, 92, 114, 162) and absent on others, and `message: 'verified'` on verify-otp's success (server.js:101). No store update depends on them.
- The 500 branch of send-otp (server.js:74-77) is left out. It cannot be reached because `sendSms` catches its own errors.
- `Math.random` (server.js:42, 158) is floating-point randomness. The OTP draw is the value of the code minus 100000, a parameter in [0, 900000); the admin token is a parameter.
- `Date.now()` is read once per request as `now`. verify-otp reads the clock twice (server.js:87, 97); the model uses one instant for both.
- `async`/`await`: every store update happens before the first awaited SMS call, so no interleaving is modelled.
- JSON values that are not strings (a numeric `code`, for one) are not modelled. Against the stored string, `!==` would refuse them.
- `users.values()` keeps insertion order. `Server.AdminUsers` returns the records as a set, so that order is not modelled.
- block-user's in-place `u.blocked = true` is modelled as a map update. No other reference to the record outlives a request.
- `OTP_LENGTH` (server.js:27) is unused by the source; the six-digit length follows from the range of `generateOtp`.
