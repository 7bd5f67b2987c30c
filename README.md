# A verified model of the chat server's state machine

`server.js` is an Express + socket.io chat server. Under the HTTP and
socket plumbing it is a small sequential state machine over four in-memory
collections:

- the registered `users`;
- the `friendRequests` records (pending or accepted);
- the stored direct `messages`;
- the session map `onlineUsers`, which maps a user id to the id of that
  user's socket.

Each route and socket handler is a short transition on that state, plus
the events it emits.

This project models that core in Dafny:

- `Server.ChatServer` is a class with the four collections as fields, plus
  an `outbox` recording every `emit` as an `Event` addressed to a socket.
  Its methods are the handlers. Each method states its whole new state, and
  each handler method other than `CommitRegistration` keeps the invariant
  `Valid()`: user names are unique, and at most one
  request record joins any pair of distinct users. That holds for handlers
  that run one after another. Registration awaits `bcrypt.hash` between its
  name check and its push, so two overlapping registrations of one name
  store it twice. The two halves are modelled separately to show this (see
  "Findings").
- The read-only parts are functions with lemmas:
  - the friend queries (`Queries`);
  - the history pipeline of filter, sort and keep-the-last-100 (`History`);
  - the derived friend relation and the respond transition (`Friends`);
  - the token checks (`Auth`);
  - the presence and message fan-out (`Fanout`);
  - JavaScript's `trim`, `split(' ')` and the 8-digit public user code
    (`Text`).
- `Arrays` holds `Array.prototype.find`/`findIndex`, `filter` (plain, and
  with a callback that may throw) and a `map` whose callback may throw.
- `Scenarios` holds client code whose sessions are checked against the
  method contracts. It covers:
  - the normal flow of two users;
  - two registrations of one name that overlap;
  - the places where the handlers behave differently from what their design
    describes (see "Code and design").

Values the program gets from outside are parameters:
- clocks (`new Date()`);
- fresh ids (`generateId()`);
- the random draw of `generateUserID`;
- the bcrypt hash and `bcrypt.compare`;
- `jwt.verify`, which is a function from token to optional user id.

Saving to disk leaves the modelled state unchanged.

## Model

| member | source | states |
|---|---|---|
| Text.TrimStartDropsLeading | server.js:539 | the first half of `trim()` leaves a suffix of the text that does not start with white space, and drops only white space |
| Text.TrimEndDropsTrailing | server.js:539 | the second half of `trim()` leaves a prefix of the text that does not end with white space, and drops only white space |
| Text.Trim | server.js:539 | `message.trim()`: at most as long as the input, and the result neither starts nor ends with JavaScript white space |
| Text.TrimKeepsInfix | server.js:539 | what `message.trim()` keeps is the infix of the message that starts where the leading white space ends, and every character of the message outside it is white space |
| Text.TrimEmptyIffBlank | server.js:531 | `message.trim()` is empty exactly when every character of the message is JavaScript white space or line terminator |
| Text.TrimIdempotent | server.js:539 | trimming the stored (already trimmed) text again changes nothing |
| Text.Split | server.js:93 | `split(' ')` yields at least one field, and no field contains the separator |
| Text.JoinSplit | server.js:93 | joining the fields of `split` with the separator gives back the header |
| Text.SplitJoin | server.js:93 | splitting separator-free fields joined by the separator gives back those fields |
| Text.DecimalString | server.js:84 | `toString()` of a non-negative integer is a non-empty digit string, and only the one-digit numeral may start with `0` |
| Text.DecimalRoundTrip | server.js:84 | parsing the decimal string of `n` gives `n` back |
| Text.GenerateUserCode | server.js:83-85 | the public user code is an 8-digit numeral with no leading zero whose value is 10000000 plus the integer draw below 90000000 |
| Arrays.FindIndex | server.js:140 | `find`/`findIndex`: the index of the first element satisfying the predicate, and none exactly when no element does |
| Arrays.Filter | server.js:333-334 | `filter`: the result holds only elements satisfying the predicate, and each element as often as the input holds it when it satisfies the predicate |
| Arrays.FilterOrThrow | server.js:332-334 | `filter` whose callback may throw: it succeeds exactly when the callback succeeds on every element, a failure is the failure of some element's callback, and a success keeps exactly the elements whose callback answered true, in order, as `Filter` with that test does |
| Arrays.MapAll | server.js:335-346 | `map` whose step may throw: succeeds exactly when every step succeeds, and then holds each step's result in place |
| Friends.ExistingRequest | server.js:287-294 | the duplicate check finds a record exactly when some record, of any status, joins the two users in either direction |
| Friends.AppendKeepsWellFormed | server.js:293-305 | appending a request between two distinct users not yet joined keeps one record per pair and no self-requests |
| Friends.FriendRecordsAreAcceptedRecords | server.js:511-514 | the records captured at connection (`userFriends`, computed by `Friends.FriendRecords`) are exactly the stored accepted records with the user at one end |
| Friends.FriendIdsMatchRelation | server.js:511-518 | `b` is among `a`'s friend ids exactly when an accepted record joins `a` and `b`, the id being the end that is not the caller |
| Friends.FriendIdsAreFriends | server.js:511-518 | every friend id read off the accepted records comes from an accepted record between the two users |
| Friends.FriendsAreInFriendIds | server.js:511-518 | every accepted record between two users puts the other user in the friend ids |
| Friends.FriendsSymmetric | server.js:511-518 | the friend relation is symmetric |
| Friends.Respond | server.js:360-383 | an unknown request id fails with nothing changed; accept marks exactly the first record with that id accepted and leaves every other record as it was; reject removes exactly that record and keeps the others in order |
| Friends.AcceptKeepsPairsBlocked | server.js:287-294 | after an accept, exactly the same pairs are blocked from new requests as before; an accepted record keeps refusing new requests |
| Friends.AcceptMakesFriends | server.js:367-368 | after an accept, each end of the record is in the other's friend ids |
| Friends.RejectUnblocksPair | server.js:380-381 | after a reject, no record joins the two users, so a new request between them is possible again |
| Friends.RejectEndsFriendship | server.js:360-381 | reject does not look at the status, so rejecting an accepted record ends that friendship |
| Friends.RespondKeepsWellFormed | server.js:360-383 | accept and reject both keep one record per pair and no self-requests |
| Friends.AcceptIdempotent | server.js:360-368 | accepting the same request twice is accepting it once |
| History.Conversation | server.js:427-431 | the conversation of `u` and `f` holds exactly the stored messages sent between them, in either direction |
| History.SortByTime | server.js:432 | the sort is a permutation of the conversation, ascending by timestamp |
| History.History | server.js:427-433 | the history of `(u, f)` has at most 100 messages, is ascending by time, and holds only stored messages between `u` and `f` in either direction |
| History.TakeLastKeepsMostRecent | server.js:433 | `slice(-n)` of a time-ordered sequence is its last n elements, or all of it when shorter, and every element dropped is no later than every element kept |
| History.HistoryKeepsMostRecent | server.js:432-433 | the sorted conversation is a permutation of the conversation, and the history is its last `min(n, 100)` messages; every message left out is no later than every message kept |
| History.ShortHistoryIsComplete | server.js:427-433 | with at most 100 messages in the conversation, the history holds each of them as often as it is stored, and nothing else |
| History.ViewOf | server.js:436-444 | a message is shown with its sender's and addressee's names, and there is none exactly when one of the two is not a stored user |
| History.MessagesRoute | server.js:425-452 | the route succeeds exactly when both users of every message in the history are stored, and then answers the history with names attached, one view per message in order; otherwise it is a server error |
| Queries.FriendViewOf | server.js:405-414 | a friend entry exists exactly when the record's other end is a stored user, and carries that user's id |
| Queries.FriendList | server.js:400-415 | the friend list with the filter reading the caller's id: it succeeds exactly when every friend id names a stored user, and then lists those ids in record order; otherwise it is a server error |
| Queries.FriendListIsFriendRelation | server.js:400-415 | a successful friend list names `b` exactly when an accepted record joins the caller and `b` |
| Queries.PendingFor | server.js:334 | the records the incoming filter keeps are exactly the stored pending records addressed to the caller |
| Queries.IncomingViewOf | server.js:335-345 | an incoming entry exists exactly when the sender is a stored user, and carries the request id and sender id |
| Queries.IncomingRequests | server.js:333-346 | the incoming list with the filter reading the caller's id: it succeeds exactly when every pending request addressed to the caller has a stored sender, with one entry per such request in order |
| Queries.IncomingRequestsListEveryPending | server.js:333-334 | every pending request addressed to the caller is on a successful incoming list |
| Queries.IncomingRequestsOnlyPending | server.js:333-334 | every entry of a successful incoming list is a pending request stored for the caller, with its sender |
| Queries.FriendListAsWritten | server.js:400-415 | as written, the filter and the map read `req.user` of a request record, which throws; the friend list is therefore a server error exactly when any record exists, and otherwise empty |
| Queries.IncomingRequestsAsWritten | server.js:333-346 | as written, the filter reads `req.user` of a request record, which throws; the incoming list is therefore a server error exactly when any record exists, and otherwise empty |
| Queries.ShadowedFriendListFails | server.js:400-404 | a user with a friend sees that friend in the intended list, while the list as written fails |
| Queries.ShadowedIncomingRequestsFail | server.js:333-334 | a user with a pending incoming request sees that request, with its id and sender, in the intended list, while the list as written fails |
| Auth.BearerToken | server.js:93 | the token taken from the header is present only when the header is, and contains no space |
| Auth.BearerTokenOfHeader | server.js:93 | a header `"<scheme> <token>"` yields exactly the token |
| Auth.Authenticate | server.js:92-106 | the middleware accepts exactly when the header carries a non-empty token that verifies, with the payload's user id. A missing or empty token is refused as missing, any other failure as invalid. It never checks that the user exists |
| Auth.AuthenticateBearerHeader | server.js:93-102 | a well-formed bearer header whose token verifies is accepted with the payload's user |
| Auth.Gate | server.js:475-495 | the connection is accepted exactly when the handshake token is present, non-empty, verifies, and names a stored user; it then carries that id and the name of the first user with it, as `find` returns |
| Fanout.PresenceEvents | server.js:516-524 | the presence `forEach` over the captured records, one step per record in order (no contract of its own; Fanout.PresenceEventsOnlyToFriends and Fanout.PresenceReachesEveryOnlineFriend state its properties) |
| Fanout.PresenceEventsOnlyToFriends | server.js:516-524 | the presence `forEach` sends at most one event per record. It sends only online or offline events about the user, each to a socket that a friend has in the session map, and never to the emitting socket |
| Fanout.PresenceReachesEveryOnlineFriend | server.js:516-524 | every captured friend with a session on another socket gets the presence event |
| Fanout.MessageDeliveries | server.js:558-563 | a stored message is echoed once to the sender's socket, first; a second event exists exactly when the addressee has a session on another socket, and it is then the copy to the addressee's socket |
| Server.RegistrationError | server.js:127-143 | the ordered registration checks: missing fields exactly when the name or the password is empty, and no error exactly when both meet the minimum lengths and no stored user has the name |
| Server.AppendFreshNameKeepsUnique | server.js:138-160 | appending a user whose name no stored user has keeps user names unique |
| Server.RegistrationKeepsUsernamesUnique | server.js:127-160 | a registration whose user is appended to the same users its checks read keeps user names unique, and its name and password meet the minimum lengths |
| Server.SecondRegistrationRefused | server.js:138-142 | registering a taken name again is refused as taken |
| Server.MarkPresence | server.js:501-506 | the first user with the id gets the online flag and last-seen time; every other user, including later users with the same id, is unchanged |
| Server.StoredMessageEvents | server.js:543-570 | once stored, a message whose sender or addressee is not a stored user produces only an error to the sender; otherwise the events are exactly the deliveries of `MessageDeliveries`: the echo, then the copy to the addressee's socket |
| Server.ChatServer.Load | server.js:64-67 | start-up state: the loaded collections, with nobody connected and no events; valid when the loaded users and requests are |
| Server.ChatServer.CheckRegistration | server.js:122-143 | the first half of registration changes nothing and answers the first failing check, if any |
| Server.ChatServer.CommitRegistration | server.js:145-160 | the second half as written appends exactly one user, with theme `light`, offline and the generated code, without looking at the stored names again |
| Server.ChatServer.CommitRegistrationChecked | server.js:145-160 | the second half with the name looked up again: a name stored meanwhile is refused as taken with nothing changed, otherwise exactly one user is appended; user names stay unique however registrations interleave |
| Server.ChatServer.Register | server.js:122-190 | one registration with no other between its halves: refused with nothing changed exactly when a check of the ordered checks fails, with that check's error. Otherwise exactly one user is appended, with theme `light`, offline, and the generated code. Validity is kept |
| Server.ChatServer.Login | server.js:193-244 | missing fields, an unknown name or a wrong password are refused with nothing changed. Otherwise the user found by name is marked online at `now`, and its view is returned |
| Server.ChatServer.SetTheme | server.js:455-471 | the caller's theme is set when the caller is stored; nothing else changes |
| Server.ChatServer.SendFriendRequest | server.js:270-328 | unknown code, self-request and an existing record of either direction are refused with nothing changed. Otherwise exactly one pending record is appended. The target's socket, when it has one, hears the sender's name and code |
| Server.ChatServer.RespondToRequest | server.js:356-395 | the collection changes as `Respond` says. On accept, the sender's socket, when it has one, hears the responder's name and code. After a reject of a valid state, no record joins the pair any more. Neither the responder nor the status is checked |
| Server.ChatServer.AnnouncePresence | server.js:516-524 | the loop appends exactly the presence events of the records, in order |
| Server.ChatServer.Connect | server.js:475-524 | a refused handshake changes nothing. Otherwise the user is marked online and its socket replaces any earlier one. Its friends with sessions hear `friend_online`, and the session keeps the accepted records captured at that time |
| Server.ChatServer.SendMessage | server.js:527-571 | an empty addressee or blank text gives an error with nothing stored. Otherwise exactly one message with the trimmed text is stored, and the events are those of `StoredMessageEvents` |
| Server.ChatServer.StoreAndDeliver | server.js:534-563 | the message is appended before the users are looked up, then the stored-message events are emitted |
| Server.ChatServer.Disconnect | server.js:574-596 | the user is marked offline, and its entry in the session map is deleted whichever socket it names. The friends captured at connection time that still have a session hear `friend_offline` |
| Scenarios.AliceAndBob | server.js:122-596 | two users register, befriend each other by code, connect and exchange a message that reaches the addressee's socket; the disconnect of one is announced to the other |
| Scenarios.StaleDisconnectEvictsLiveSocket | server.js:584 | after a reconnect, the first socket's disconnect removes the user from the session map, and a later message to the user reaches none of the user's sockets |
| Scenarios.UnknownAddresseeStillStored | server.js:543-553 | a message to an id that names no user is stored, and the sender then gets an error |
| Scenarios.RequesterAcceptsOwnRequest | server.js:360-368 | the sender of a request can accept it themselves, and the two become friends |
| Scenarios.OverlappingRegistrationsDuplicateName | server.js:138-160 | two registrations of one name whose checks both run before either push both succeed, and the name is stored twice |
| Scenarios.OverlappingRegistrationsWithRecheck | server.js:138-160 | with the name looked up again after the hash, the same interleaving refuses the second registration as taken and stores the name once |

## Left out

- Express routing, HTTP status codes and JSON response shapes: an outcome is
  `Success` or an `ApiError`/`AuthError`, and only the state change is kept.
- `jsonwebtoken` signing and verification are left out; `verify` is a
  parameter. Token expiry and `rememberMe` (server.js:165-173, 216-224) only
  affect the token, so they are left out too.
- `bcrypt.hash` and `bcrypt.compare` are parameters (the hash is passed in).
- File persistence (`loadData`, `save*`, server.js:41-80) is left out. A save
  is a no-op on the modelled state. So is the case where a handler fails
  with a server error after mutating memory, which leaves disk and memory
  different until the next save.
- `Date`, `Math.random` and `generateId` are not modelled: timestamps are
  `nat` parameters and ids are parameters. The model does not assume ids
  are fresh; lookups by id take the first match, as `find` does.
- `GET /api/health`, `GET /api/user/profile`, CORS, static files, logging,
  the `process.on` handlers and `server.listen` are not part of this model.
- socket.io transport and rooms are left out: an emit is an event appended
  to `outbox`, and `socket.to(x)` is modelled only as "not to the emitting
  socket".
- Server.RegistrationError: lengths are counted in characters, while
  JavaScript's `length` counts UTF-16 code units. Characters outside the
  Basic Multilingual Plane therefore count once here and twice in the
  source.
- Server.ChatServer.SendMessage: payloads whose `to` or `message` are not
  strings (which make `trim` throw) are not modelled. Neither are the other
  truthiness cases of `!to`; only the empty string counts as missing.
- Server.ChatServer.SendFriendRequest: the body's `userid` is compared as a
  string. A numeric `userid`, which `===` never matches, is not modelled.
- Server.ChatServer.Connect: socket ids are assumed non-empty. The source
  tests a looked-up socket id for truthiness, and the model tests whether the
  key is in the session map.
- Server.ChatServer.Register: the source does not check that the random
  public code is unused, and neither does the model. Two users may share a
  code, and then `find` picks the first.
- Server.ChatServer.Register: it runs the checks and the commit as one step,
  although the source awaits `bcrypt.hash` between the name check and the
  push (server.js:140-160). So its uniqueness promise holds only for a
  registration that no other overlaps. Overlap is modelled by calling
  `CheckRegistration` and a commit separately, as the scenarios do. Register
  uses the commit that looks the name up again. Without overlap that lookup
  never refuses, so Register answers as the source does.
- Server.RegistrationKeepsUsernamesUnique: it holds only when the user is
  appended to the same users the checks read, which is what a registration
  with no other overlapping it does.
- Arrays.Filter: the contract states membership and multiplicity, not that
  the kept elements stay in their original order.
- History.SortByTime: the contract states ascending order and permutation,
  not stability. The body is a stable insertion sort, as JavaScript's
  `sort` is.
- Fanout.PresenceEventsOnlyToFriends: it states which sockets can receive
  presence events. Fanout.PresenceReachesEveryOnlineFriend states that every
  reachable friend receives one. Neither counts duplicates when two friends
  share a socket id.

## Findings

| source | as written | input that shows it | evidently intended | confidence | as-written member | corrected member |
|---|---|---|---|---|---|---|
| server.js:140-160 | The name is checked before `await bcrypt.hash(password, 10)`, and the user is pushed after it without a second check. Other handlers may run while the hash is computed. | Two `POST /api/auth/register` requests for `alice` arrive together, and both checks run before either hash completes. Both push, and `alice` is stored twice; logins then always find the first. | User names are unique. | high, not executed | Server.ChatServer.CommitRegistration (shown by Scenarios.OverlappingRegistrationsDuplicateName) | Server.ChatServer.CommitRegistrationChecked (shown by Scenarios.OverlappingRegistrationsWithRecheck) |
| server.js:334, server.js:402 | Inside `filter`, the arrow parameter `req` hides the HTTP request. So `req.user.userId` reads `user` of a friend-request record, which is undefined, and throws a TypeError that the handler turns into a 500. | One pending record from user a to user b. b calls `GET /api/friends/requests`, or either of them calls `GET /api/friends` after b accepts. | The filter compares against the caller's id from the HTTP request. | high, not executed | Queries.FriendListAsWritten, Queries.IncomingRequestsAsWritten (shown by Queries.ShadowedFriendListFails, Queries.ShadowedIncomingRequestsFail) | Queries.FriendList, Queries.IncomingRequests |

## Code and design

The system's design describes more than `server.js` implements. Where the
two disagree, the model follows the code:

- The design's groups, reactions, forwarding, search, typing indicators,
  status text and read marks do not exist in `server.js`, so nothing is
  modelled for them.
- The design guards `unregister`, so that a stale disconnect cannot evict a
  newer socket. The code deletes the entry unconditionally (server.js:584).
  `Server.ChatServer.Disconnect` models the code, and
  `Scenarios.StaleDisconnectEvictsLiveSocket` shows a live socket being
  evicted.
- The design rejects an invalid send with no state change. The code stores
  the message before looking up its addressee (server.js:543-553).
  `Server.ChatServer.StoreAndDeliver` models the code, and
  `Scenarios.UnknownAddresseeStillStored` shows the stored message.
- Responding to a request checks neither that the caller is the addressee
  nor that the request is still pending (server.js:360-368). See
  `Scenarios.RequesterAcceptsOwnRequest` and `Friends.RejectEndsFriendship`.
- The design requires unique public codes; the code draws them at random
  without checking (server.js:83-85, 145).
