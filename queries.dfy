/** The read-only friend queries: `GET /api/friends` (server.js:398-422) and
    `GET /api/friends/requests` (server.js:331-353), each as the code reads
    and as it is evidently meant to read. */
module Queries {
  import opened Wrappers
  import opened Entities
  import opened Arrays
  import opened Friends

  /** A friend as the list shows them (server.js:406-414). */
  function FriendViewOf(users: seq<User>, r: FriendRequest, caller: UserId): (v: Option<FriendView>)
    ensures v.Some? <==> UserById(users, OtherEnd(r, caller)).Some?
    ensures v.Some? ==> v.value.id == OtherEnd(r, caller)
  {
    match UserById(users, OtherEnd(r, caller))
    case Some(i) =>
      Some(FriendView(users[i].id, users[i].code, users[i].username, users[i].isOnline, users[i].lastSeen))
    case None => None
  }

  /** The friend list of `caller` with the filter reading the caller's id:
      one entry per accepted record, naming the record's other end, or a
      server error when that user is not stored. */
  function FriendList(users: seq<User>, reqs: seq<FriendRequest>, caller: UserId)
    : (r: Result<seq<FriendView>, ApiError>)
    ensures r.Failure? ==> r.error == ServerError
    ensures r.Success? <==>
      forall k :: 0 <= k < |FriendIds(reqs, caller)| ==> UserById(users, FriendIds(reqs, caller)[k]).Some?
    ensures r.Success? ==> |r.value| == |FriendIds(reqs, caller)|
    ensures r.Success? ==> forall k :: 0 <= k < |r.value| ==> r.value[k].id == FriendIds(reqs, caller)[k]
  {
    FriendIdsAreOtherEnds(reqs, caller);
    match MapAll(FriendRecords(reqs, caller), (q: FriendRequest) => FriendViewOf(users, q, caller))
    case Some(views) => Success(views)
    case None => Failure(ServerError)
  }

  /** A successful friend list names exactly the users an accepted record
      joins to the caller. */
  lemma FriendListIsFriendRelation(users: seq<User>, reqs: seq<FriendRequest>, caller: UserId, b: UserId)
    requires FriendList(users, reqs, caller).Success?
    ensures var views := FriendList(users, reqs, caller).value;
      (exists k :: 0 <= k < |views| && views[k].id == b) <==> AreFriends(reqs, caller, b)
  {
    var views := FriendList(users, reqs, caller).value;
    var ids := FriendIds(reqs, caller);
    FriendIdsMatchRelation(reqs, caller, b);
    if b in ids {
      var k :| 0 <= k < |ids| && ids[k] == b;
      assert views[k].id == b;
    }
  }

  /** The pending requests addressed to `caller` (server.js:334). */
  function PendingFor(reqs: seq<FriendRequest>, caller: UserId): (recs: seq<FriendRequest>)
    ensures forall q :: q in recs <==> q in reqs && q.to == caller && q.status == Pending
  {
    Filter(reqs, (q: FriendRequest) => q.to == caller && q.status == Pending)
  }

  /** An incoming request as the list shows it (server.js:336-345). */
  function IncomingViewOf(users: seq<User>, q: FriendRequest): (v: Option<IncomingView>)
    ensures v.Some? <==> UserById(users, q.from).Some?
    ensures v.Some? ==> v.value.requestId == q.id && v.value.fromId == q.from
  {
    match UserById(users, q.from)
    case Some(i) => Some(IncomingView(q.id, users[i].id, users[i].username, users[i].code, q.createdAt))
    case None => None
  }

  /** The incoming requests of `caller` with the filter reading the caller's
      id: one entry per pending record addressed to the caller, showing its
      sender, or a server error when a sender is not stored. */
  function IncomingRequests(users: seq<User>, reqs: seq<FriendRequest>, caller: UserId)
    : (r: Result<seq<IncomingView>, ApiError>)
    ensures r.Failure? ==> r.error == ServerError
    ensures r.Success? <==> forall k :: 0 <= k < |PendingFor(reqs, caller)| ==>
      UserById(users, PendingFor(reqs, caller)[k].from).Some?
    ensures r.Success? ==> |r.value| == |PendingFor(reqs, caller)|
    ensures r.Success? ==> forall k :: 0 <= k < |r.value| ==>
      r.value[k].requestId == PendingFor(reqs, caller)[k].id && r.value[k].fromId == PendingFor(reqs, caller)[k].from
  {
    var recs := PendingFor(reqs, caller);
    match MapAll(recs, (q: FriendRequest) => IncomingViewOf(users, q))
    case Some(views) => Success(views)
    case None => Failure(ServerError)
  }

  /** Every pending request stored for the caller is on a successful
      incoming list. */
  lemma IncomingRequestsListEveryPending(users: seq<User>, reqs: seq<FriendRequest>, caller: UserId, q: FriendRequest)
    requires IncomingRequests(users, reqs, caller).Success?
    requires q in reqs && q.to == caller && q.status == Pending
    ensures var views := IncomingRequests(users, reqs, caller).value;
      exists k :: 0 <= k < |views| && views[k].requestId == q.id && views[k].fromId == q.from
  {
    var views := IncomingRequests(users, reqs, caller).value;
    var recs := PendingFor(reqs, caller);
    assert q in recs;
    var k :| 0 <= k < |recs| && recs[k] == q;
    assert views[k].requestId == q.id && views[k].fromId == q.from;
  }

  /** Every entry of a successful incoming list is a pending request stored
      for the caller. */
  lemma IncomingRequestsOnlyPending(users: seq<User>, reqs: seq<FriendRequest>, caller: UserId, k: nat)
    requires IncomingRequests(users, reqs, caller).Success?
    requires k < |IncomingRequests(users, reqs, caller).value|
    ensures var view := IncomingRequests(users, reqs, caller).value[k];
      exists p :: p in reqs && p.to == caller && p.status == Pending && p.id == view.requestId && p.from == view.fromId
  {
    var views := IncomingRequests(users, reqs, caller).value;
    var recs := PendingFor(reqs, caller);
    var p := recs[k];
    assert p in recs;
    assert p in reqs && p.to == caller && p.status == Pending;
  }

  /** `req.user.userId` inside the callbacks of server.js:334 and 402-407,
      where the arrow parameter `req` hides the HTTP request: a stored
      friend-request record has no `user` field, so reading `userId` of
      `undefined` throws, and the handler's `catch` answers a server error. */
  function RecordUserId(q: FriendRequest): Result<UserId, ApiError> {
    Failure(ServerError)
  }

  /** The friend filter's test as written (server.js:403-405); the left
      operand of `||` already reads `req.user.userId`. */
  function FriendTestAsWritten(q: FriendRequest): Result<bool, ApiError> {
    match RecordUserId(q)
    case Success(me) => Success((q.from == me || q.to == me) && q.status == Accepted)
    case Failure(e) => Failure(e)
  }

  /** The friend map's callback as written (server.js:407-414), whose
      `friendId` also reads `req.user.userId`. */
  function FriendViewAsWritten(users: seq<User>, q: FriendRequest): Option<FriendView> {
    match RecordUserId(q)
    case Success(me) => FriendViewOf(users, q, me)
    case Failure(_) => None
  }

  /** `GET /api/friends` as written. The caller's id is never read: the
      filter's test throws on the first record, so the handler answers a
      server error unless there are no records at all. */
  function FriendListAsWritten(users: seq<User>, reqs: seq<FriendRequest>, caller: UserId)
    : (r: Result<seq<FriendView>, ApiError>)
    ensures r.Success? <==> reqs == []
    ensures r.Success? ==> r.value == []
    ensures r.Failure? ==> r.error == ServerError
  {
    match FilterOrThrow(reqs, FriendTestAsWritten)
    case Failure(e) => Failure(e)
    case Success(recs) =>
      match MapAll(recs, (q: FriendRequest) => FriendViewAsWritten(users, q))
      case Some(views) => Success(views)
      case None => Failure(ServerError)
  }

  /** The incoming filter's test as written (server.js:334). */
  function IncomingTestAsWritten(q: FriendRequest): Result<bool, ApiError> {
    match RecordUserId(q)
    case Success(me) => Success(q.to == me && q.status == Pending)
    case Failure(e) => Failure(e)
  }

  /** `GET /api/friends/requests` as written, with the same shadowed `req`
      in its filter; its map reads only the record's own fields. */
  function IncomingRequestsAsWritten(users: seq<User>, reqs: seq<FriendRequest>, caller: UserId)
    : (r: Result<seq<IncomingView>, ApiError>)
    ensures r.Success? <==> reqs == []
    ensures r.Success? ==> r.value == []
    ensures r.Failure? ==> r.error == ServerError
  {
    match FilterOrThrow(reqs, IncomingTestAsWritten)
    case Failure(e) => Failure(e)
    case Success(recs) =>
      match MapAll(recs, (q: FriendRequest) => IncomingViewOf(users, q))
      case Some(views) => Success(views)
      case None => Failure(ServerError)
  }

  /** Any user with a friend whose record is stored sees the friend in the
      intended list, while the list as written fails. */
  lemma ShadowedFriendListFails(users: seq<User>, reqs: seq<FriendRequest>, caller: UserId, b: UserId)
    requires AreFriends(reqs, caller, b)
    requires FriendList(users, reqs, caller).Success?
    ensures FriendListAsWritten(users, reqs, caller) == Failure(ServerError)
    ensures var views := FriendList(users, reqs, caller).value;
      exists k :: 0 <= k < |views| && views[k].id == b
  {
    FriendListIsFriendRelation(users, reqs, caller, b);
  }

  /** Any user with a pending request addressed to them sees it in the
      intended list, while the list as written fails. */
  lemma ShadowedIncomingRequestsFail(users: seq<User>, reqs: seq<FriendRequest>, caller: UserId, q: FriendRequest)
    requires q in reqs && q.to == caller && q.status == Pending
    requires IncomingRequests(users, reqs, caller).Success?
    ensures IncomingRequestsAsWritten(users, reqs, caller) == Failure(ServerError)
    ensures var views := IncomingRequests(users, reqs, caller).value;
      exists k :: 0 <= k < |views| && views[k].requestId == q.id && views[k].fromId == q.from
  {
    IncomingRequestsListEveryPending(users, reqs, caller, q);
  }
}
