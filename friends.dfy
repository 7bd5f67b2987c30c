/** The friend-request records and the friend relation derived from them:
    the duplicate check of `/api/friends/request`, the transition of
    `/api/friends/respond`, and the read-only queries `/api/friends` and
    `/api/friends/requests`. */
module Friends {
  import opened Wrappers
  import opened Entities
  import opened Arrays

  /** `r` joins `a` and `b`, in either direction (server.js:288-289). */
  predicate Between(r: FriendRequest, a: UserId, b: UserId) {
    (r.from == a && r.to == b) || (r.from == b && r.to == a)
  }

  /** Some record, whatever its status, joins `a` and `b`. */
  ghost predicate PairBlocked(reqs: seq<FriendRequest>, a: UserId, b: UserId) {
    exists i :: 0 <= i < |reqs| && Between(reqs[i], a, b)
  }

  /** The `existingRequest` search of server.js:287-290. */
  function ExistingRequest(reqs: seq<FriendRequest>, a: UserId, b: UserId): (r: Option<nat>)
    ensures r.Some? <==> PairBlocked(reqs, a, b)
    ensures r.Some? ==> r.value < |reqs| && Between(reqs[r.value], a, b)
  {
    FindIndex(reqs, (q: FriendRequest) => Between(q, a, b))
  }

  /** No two records join the same pair of users. */
  ghost predicate AtMostOnePerPair(reqs: seq<FriendRequest>) {
    forall i, j :: 0 <= i < j < |reqs| ==> !Between(reqs[j], reqs[i].from, reqs[i].to)
  }

  /** No record joins a user to itself. */
  ghost predicate NoSelfRequests(reqs: seq<FriendRequest>) {
    forall i :: 0 <= i < |reqs| ==> reqs[i].from != reqs[i].to
  }

  /** The invariant the request handlers keep on `friendRequests`. */
  ghost predicate WellFormed(reqs: seq<FriendRequest>) {
    AtMostOnePerPair(reqs) && NoSelfRequests(reqs)
  }

  /** Appending a record that joins two distinct users not yet joined keeps
      the collection well formed. */
  lemma AppendKeepsWellFormed(reqs: seq<FriendRequest>, r: FriendRequest)
    requires WellFormed(reqs)
    requires r.from != r.to && !PairBlocked(reqs, r.from, r.to)
    ensures WellFormed(reqs + [r])
  {
    var s := reqs + [r];
    forall i, j | 0 <= i < j < |s| ensures !Between(s[j], s[i].from, s[i].to) {
      if j == |reqs| {
        assert s[i] == reqs[i];
        if Between(r, reqs[i].from, reqs[i].to) {
          assert Between(reqs[i], r.from, r.to);
        }
      }
    }
  }

  // ---------------------------------------------------------------------
  // The friend relation
  // ---------------------------------------------------------------------

  /** `r` is an accepted record with `u` at one end (server.js:511-514). */
  predicate IsFriendRecord(r: FriendRequest, u: UserId) {
    (r.from == u || r.to == u) && r.status == Accepted
  }

  /** The end of `r` that is not `u` (server.js:517). */
  function OtherEnd(r: FriendRequest, u: UserId): UserId {
    if r.from == u then r.to else r.from
  }

  /** The accepted records that involve `u`: `userFriends` (server.js:511-514). */
  function FriendRecords(reqs: seq<FriendRequest>, u: UserId): seq<FriendRequest> {
    Filter(reqs, (r: FriendRequest) => IsFriendRecord(r, u))
  }

  /** The captured records are exactly the stored accepted records with `u`
      at one end. */
  lemma FriendRecordsAreAcceptedRecords(reqs: seq<FriendRequest>, u: UserId, r: FriendRequest)
    ensures r in FriendRecords(reqs, u) <==> r in reqs && r.status == Accepted && (r.from == u || r.to == u)
  {
  }

  /** The ids of `u`'s friends, one per accepted record. */
  function FriendIds(reqs: seq<FriendRequest>, u: UserId): seq<UserId> {
    var recs := FriendRecords(reqs, u);
    seq(|recs|, k requires 0 <= k < |recs| => OtherEnd(recs[k], u))
  }

  /** `a` and `b` are friends: an accepted record joins them. */
  ghost predicate AreFriends(reqs: seq<FriendRequest>, a: UserId, b: UserId) {
    exists i :: 0 <= i < |reqs| && reqs[i].status == Accepted && Between(reqs[i], a, b)
  }

  /** The ids of the friend records of `caller` are the other ends of
      those records. */
  lemma FriendIdsAreOtherEnds(reqs: seq<FriendRequest>, caller: UserId)
    ensures |FriendIds(reqs, caller)| == |FriendRecords(reqs, caller)|
    ensures forall k :: 0 <= k < |FriendIds(reqs, caller)| ==>
      FriendIds(reqs, caller)[k] == OtherEnd(FriendRecords(reqs, caller)[k], caller)
  {
  }

  /** The friend ids read off the accepted records are exactly the users an
      accepted record joins to `a`. */
  lemma FriendIdsMatchRelation(reqs: seq<FriendRequest>, a: UserId, b: UserId)
    ensures b in FriendIds(reqs, a) <==> AreFriends(reqs, a, b)
  {
    if b in FriendIds(reqs, a) {
      FriendIdsAreFriends(reqs, a, b);
    }
    if AreFriends(reqs, a, b) {
      FriendsAreInFriendIds(reqs, a, b);
    }
  }

  /** Each listed friend id comes from an accepted record between the two. */
  lemma FriendIdsAreFriends(reqs: seq<FriendRequest>, a: UserId, b: UserId)
    requires b in FriendIds(reqs, a)
    ensures AreFriends(reqs, a, b)
  {
    var recs := FriendRecords(reqs, a);
    var ids := FriendIds(reqs, a);
    FriendIdsAreOtherEnds(reqs, a);
    var k :| 0 <= k < |ids| && ids[k] == b;
    assert recs[k] in recs;
    assert recs[k] in reqs && IsFriendRecord(recs[k], a);
    var i :| 0 <= i < |reqs| && reqs[i] == recs[k];
    assert Between(reqs[i], a, b);
  }

  /** Each accepted record between the two puts the other in the list. */
  lemma FriendsAreInFriendIds(reqs: seq<FriendRequest>, a: UserId, b: UserId)
    requires AreFriends(reqs, a, b)
    ensures b in FriendIds(reqs, a)
  {
    var recs := FriendRecords(reqs, a);
    var ids := FriendIds(reqs, a);
    FriendIdsAreOtherEnds(reqs, a);
    var i :| 0 <= i < |reqs| && reqs[i].status == Accepted && Between(reqs[i], a, b);
    assert IsFriendRecord(reqs[i], a);
    assert reqs[i] in recs;
    var k :| 0 <= k < |recs| && recs[k] == reqs[i];
    assert ids[k] == b;
  }

  /** The friend relation is symmetric. */
  lemma FriendsSymmetric(reqs: seq<FriendRequest>, a: UserId, b: UserId)
    ensures b in FriendIds(reqs, a) <==> a in FriendIds(reqs, b)
  {
    FriendIdsMatchRelation(reqs, a, b);
    FriendIdsMatchRelation(reqs, b, a);
    if AreFriends(reqs, a, b) {
      var i :| 0 <= i < |reqs| && reqs[i].status == Accepted && Between(reqs[i], a, b);
      assert Between(reqs[i], b, a);
    }
    if AreFriends(reqs, b, a) {
      var i :| 0 <= i < |reqs| && reqs[i].status == Accepted && Between(reqs[i], b, a);
      assert Between(reqs[i], a, b);
    }
  }

  // ---------------------------------------------------------------------
  // Responding to a request
  // ---------------------------------------------------------------------

  /** `/api/friends/respond` on the collection (server.js:360-383): the first
      record with the id is marked accepted, or spliced out. Neither the
      responder nor the record's current status is consulted. */
  function Respond(reqs: seq<FriendRequest>, requestId: string, accept: bool)
    : (r: Result<seq<FriendRequest>, ApiError>)
    ensures r.Failure? <==> forall k :: 0 <= k < |reqs| ==> reqs[k].id != requestId
    ensures r.Failure? ==> r.error == RequestNotFound
    ensures r.Success? && accept ==>
      var i := RequestById(reqs, requestId).value;
      && |r.value| == |reqs|
      && r.value[i] == reqs[i].(status := Accepted)
      && forall k :: 0 <= k < |reqs| && k != i ==> r.value[k] == reqs[k]
    ensures r.Success? && !accept ==>
      var i := RequestById(reqs, requestId).value;
      && |r.value| + 1 == |reqs|
      && multiset(r.value) + multiset{reqs[i]} == multiset(reqs)
      && (forall k :: 0 <= k < i ==> r.value[k] == reqs[k])
      && (forall k :: i <= k < |r.value| ==> r.value[k] == reqs[k + 1])
  {
    match RequestById(reqs, requestId)
    case None => Failure(RequestNotFound)
    case Some(i) =>
      if accept then Success(reqs[i := reqs[i].(status := Accepted)])
      else
        assert reqs == reqs[..i] + [reqs[i]] + reqs[i + 1..];
        Success(reqs[..i] + reqs[i + 1..])
  }

  /** Accepting changes no record's ends, so it blocks exactly the pairs it
      blocked before: an accepted record keeps refusing new requests. */
  lemma AcceptKeepsPairsBlocked(reqs: seq<FriendRequest>, requestId: string, a: UserId, b: UserId)
    requires Respond(reqs, requestId, true).Success?
    ensures PairBlocked(Respond(reqs, requestId, true).value, a, b) <==> PairBlocked(reqs, a, b)
  {
    var s := Respond(reqs, requestId, true).value;
    if PairBlocked(reqs, a, b) {
      var k :| 0 <= k < |reqs| && Between(reqs[k], a, b);
      assert Between(s[k], a, b);
    }
    if PairBlocked(s, a, b) {
      var k :| 0 <= k < |s| && Between(s[k], a, b);
      assert Between(reqs[k], a, b);
    }
  }

  /** Accepting makes the two ends of the record friends, each in the other's
      friend list. */
  lemma AcceptMakesFriends(reqs: seq<FriendRequest>, requestId: string)
    requires Respond(reqs, requestId, true).Success?
    ensures var i := RequestById(reqs, requestId).value;
      var s := Respond(reqs, requestId, true).value;
      && reqs[i].to in FriendIds(s, reqs[i].from)
      && reqs[i].from in FriendIds(s, reqs[i].to)
  {
    var i := RequestById(reqs, requestId).value;
    var s := Respond(reqs, requestId, true).value;
    assert s[i].status == Accepted && Between(s[i], reqs[i].from, reqs[i].to);
    assert Between(s[i], reqs[i].to, reqs[i].from);
    FriendIdsMatchRelation(s, reqs[i].from, reqs[i].to);
    FriendIdsMatchRelation(s, reqs[i].to, reqs[i].from);
  }

  /** Rejecting removes the only record of its pair, so a new request between
      the two users becomes possible again. */
  lemma RejectUnblocksPair(reqs: seq<FriendRequest>, requestId: string)
    requires AtMostOnePerPair(reqs)
    requires Respond(reqs, requestId, false).Success?
    ensures var i := RequestById(reqs, requestId).value;
      !PairBlocked(Respond(reqs, requestId, false).value, reqs[i].from, reqs[i].to)
  {
    var i := RequestById(reqs, requestId).value;
    var s := Respond(reqs, requestId, false).value;
    forall k | 0 <= k < |s| ensures !Between(s[k], reqs[i].from, reqs[i].to) {
      if k < i {
        assert s[k] == reqs[k];
        assert !Between(reqs[i], reqs[k].from, reqs[k].to);
      } else {
        assert s[k] == reqs[k + 1];
        assert !Between(reqs[k + 1], reqs[i].from, reqs[i].to);
      }
    }
  }

  /** Because the status is not checked, rejecting an ACCEPTED record ends the
      friendship it recorded. */
  lemma RejectEndsFriendship(reqs: seq<FriendRequest>, requestId: string)
    requires AtMostOnePerPair(reqs)
    requires Respond(reqs, requestId, false).Success?
    ensures var i := RequestById(reqs, requestId).value;
      var s := Respond(reqs, requestId, false).value;
      reqs[i].to !in FriendIds(s, reqs[i].from)
  {
    var i := RequestById(reqs, requestId).value;
    var s := Respond(reqs, requestId, false).value;
    RejectUnblocksPair(reqs, requestId);
    FriendIdsMatchRelation(s, reqs[i].from, reqs[i].to);
  }

  /** Both responses keep the collection well formed. */
  lemma RespondKeepsWellFormed(reqs: seq<FriendRequest>, requestId: string, accept: bool)
    requires WellFormed(reqs)
    requires Respond(reqs, requestId, accept).Success?
    ensures WellFormed(Respond(reqs, requestId, accept).value)
  {
    var i := RequestById(reqs, requestId).value;
    var s := Respond(reqs, requestId, accept).value;
    if accept {
      forall p, q | 0 <= p < q < |s| ensures !Between(s[q], s[p].from, s[p].to) {
        assert s[q].from == reqs[q].from && s[q].to == reqs[q].to;
        assert s[p].from == reqs[p].from && s[p].to == reqs[p].to;
      }
    } else {
      forall p, q | 0 <= p < q < |s| ensures !Between(s[q], s[p].from, s[p].to) {
        var p' := if p < i then p else p + 1;
        var q' := if q < i then q else q + 1;
        assert s[p] == reqs[p'] && s[q] == reqs[q'] && p' < q';
      }
      forall p | 0 <= p < |s| ensures s[p].from != s[p].to {
        assert s[p] == reqs[if p < i then p else p + 1];
      }
    }
  }

  /** Accepting the same request twice is accepting it once. */
  lemma AcceptIdempotent(reqs: seq<FriendRequest>, requestId: string)
    requires Respond(reqs, requestId, true).Success?
    ensures var s := Respond(reqs, requestId, true).value;
      Respond(s, requestId, true) == Success(s)
  {
    var i := RequestById(reqs, requestId).value;
    var s := Respond(reqs, requestId, true).value;
    assert forall k :: 0 <= k < |s| ==> s[k].id == reqs[k].id;
    assert RequestById(s, requestId) == Some(i);
    assert s[i := s[i].(status := Accepted)] == s;
  }
}
