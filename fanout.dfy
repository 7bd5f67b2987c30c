/** The socket events the connection handlers emit: the `friend_online` and
    `friend_offline` presence fan-out (server.js:516-524, 587-595) and the
    `new_message` delivery (server.js:558-563). */
module Fanout {
  import opened Entities
  import opened Friends

  /** `socket.to(ev.target).emit(...)` from the socket `own`: socket.io leaves
      the emitting socket out of the rooms it broadcasts to. */
  function ToOthers(own: SocketId, ev: Event): seq<Event> {
    if ev.target == own then [] else [ev]
  }

  /** The presence event about `uid` for one friend's socket. */
  function PresenceNotice(online: bool, target: SocketId, uid: UserId): Event {
    if online then FriendOnline(target, uid) else FriendOffline(target, uid)
  }

  /** One step of the presence `forEach`: the record's other end is looked up
      in the session map, and notified when it has a session. */
  function PresenceStep(r: FriendRequest, uid: UserId, own: SocketId,
                        sessions: map<UserId, SocketId>, online: bool): seq<Event>
  {
    var fid := OtherEnd(r, uid);
    if fid in sessions then ToOthers(own, PresenceNotice(online, sessions[fid], uid)) else []
  }

  /** The sockets that the users at the other end of `recs` have in `sessions`. */
  ghost function FriendSockets(recs: seq<FriendRequest>, uid: UserId, sessions: map<UserId, SocketId>): set<SocketId> {
    set r | r in recs && OtherEnd(r, uid) in sessions :: sessions[OtherEnd(r, uid)]
  }

  /** The whole presence `forEach` over the captured friend records, one
      step per record in order. */
  function PresenceEvents(recs: seq<FriendRequest>, uid: UserId, own: SocketId,
                          sessions: map<UserId, SocketId>, online: bool): seq<Event>
  {
    if recs == [] then []
    else
      var last := |recs| - 1;
      PresenceEvents(recs[..last], uid, own, sessions, online) + PresenceStep(recs[last], uid, own, sessions, online)
  }

  /** The presence fan-out sends at most one event per record, only presence
      events about `uid`, each to the socket a friend has in `sessions`, and
      never to the emitting socket. */
  lemma {:induction false} PresenceEventsOnlyToFriends(recs: seq<FriendRequest>, uid: UserId, own: SocketId,
                                                      sessions: map<UserId, SocketId>, online: bool)
    ensures var evs := PresenceEvents(recs, uid, own, sessions, online);
      && |evs| <= |recs|
      && (forall k :: 0 <= k < |evs| ==>
            evs[k] == PresenceNotice(online, evs[k].target, uid) && evs[k].target != own)
      && (forall k :: 0 <= k < |evs| ==> evs[k].target in FriendSockets(recs, uid, sessions))
  {
    if recs != [] {
      var last := |recs| - 1;
      PresenceEventsOnlyToFriends(recs[..last], uid, own, sessions, online);
      assert forall r :: r in recs[..last] ==> r in recs;
      assert FriendSockets(recs[..last], uid, sessions) <= FriendSockets(recs, uid, sessions);
    }
  }

  /** Extending the records by one extends the events by that record's step. */
  lemma PresenceEventsSnoc(recs: seq<FriendRequest>, i: nat, uid: UserId, own: SocketId,
                           sessions: map<UserId, SocketId>, online: bool)
    requires i < |recs|
    ensures PresenceEvents(recs[..i + 1], uid, own, sessions, online)
      == PresenceEvents(recs[..i], uid, own, sessions, online) + PresenceStep(recs[i], uid, own, sessions, online)
  {
    assert recs[..i + 1][..i] == recs[..i];
  }

  /** Every captured friend that has a session on another socket is notified. */
  lemma {:induction false} PresenceReachesEveryOnlineFriend(recs: seq<FriendRequest>, uid: UserId, own: SocketId,
                                                           sessions: map<UserId, SocketId>, online: bool, j: nat)
    requires j < |recs|
    requires OtherEnd(recs[j], uid) in sessions && sessions[OtherEnd(recs[j], uid)] != own
    ensures PresenceNotice(online, sessions[OtherEnd(recs[j], uid)], uid) in PresenceEvents(recs, uid, own, sessions, online)
  {
    var last := |recs| - 1;
    if j < last {
      PresenceReachesEveryOnlineFriend(recs[..last], uid, own, sessions, online, j);
      assert recs[..last][j] == recs[j];
    }
  }

  /** The `new_message` emits of a stored message: the echo to the sender's
      socket, then the copy to the addressee's socket when it has a session. */
  function MessageDeliveries(own: SocketId, sessions: map<UserId, SocketId>, to: UserId, view: MessageView)
    : (evs: seq<Event>)
    ensures 1 <= |evs| <= 2 && evs[0] == NewMessage(own, view)
    ensures forall k :: 0 <= k < |evs| ==> evs[k] == NewMessage(evs[k].target, view)
    ensures forall k :: 0 <= k < |evs| ==> evs[k].target == own || (to in sessions && evs[k].target == sessions[to])
    ensures |evs| == 2 <==> to in sessions && sessions[to] != own
    ensures |evs| == 2 ==> evs[1] == NewMessage(sessions[to], view)
  {
    [NewMessage(own, view)] + (if to in sessions then ToOthers(own, NewMessage(sessions[to], view)) else [])
  }
}
