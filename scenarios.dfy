/** Clients of `ChatServer` whose sessions are checked against its contracts:
    the end-to-end flow of two users, and the places where the handlers'
    behaviour departs from what a reader might expect. */
module Scenarios {
  import opened Wrappers
  import opened Entities
  import opened Arrays
  import opened Text
  import opened Friends
  import opened History
  import opened Fanout
  import opened Auth
  import opened Server

  /** Tokens `"tA"` and `"tB"` verify as users `"a"` and `"b"`. */
  function TwoTokens(t: string): Option<UserId> {
    if t == "tA" then Some("a") else if t == "tB" then Some("b") else None
  }

  /** Alice (`"a"`) and Bob (`"b"`), as registration stores them. */
  function AliceAndBobUsers(): seq<User> {
    [NewUser("a", GenerateUserCode(1111111), "alice", "hashA", 1),
     NewUser("b", GenerateUserCode(12222222), "bob", "hashB", 1)]
  }

  /** The accepted request that makes them friends. */
  function AcceptedRequest(): FriendRequest {
    FriendRequest("r1", "a", "b", Accepted, 2)
  }

  /** A fresh server where Alice and then Bob have registered. */
  method RegisterAliceAndBob() returns (server: ChatServer)
    ensures fresh(server)
    ensures server.users == AliceAndBobUsers() && server.friendRequests == []
    ensures server.messages == [] && server.onlineUsers == map[] && server.outbox == []
  {
    server := new ChatServer.Load([], [], []);
    var ra := server.Register("alice", "secret1", "hashA", 1111111, "a", 1);
    assert ra.Success?;
    var rb := server.Register("bob", "secret2", "hashB", 12222222, "b", 1);
    assert rb.Success?;
  }

  /** Alice sends Bob a request by his public code. */
  method AliceAsksBob(server: ChatServer)
    requires server.users == AliceAndBobUsers() && server.friendRequests == []
    requires server.onlineUsers == map[] && server.outbox == []
    modifies server
    ensures server.users == AliceAndBobUsers()
    ensures server.friendRequests == [FriendRequest("r1", "a", "b", Pending, 2)]
    ensures server.messages == old(server.messages) && server.onlineUsers == map[] && server.outbox == []
  {
    var codeB := GenerateUserCode(12222222);
    assert server.users[1].code == codeB && server.users[0].code != codeB;
    assert UserByCode(server.users, codeB) == Some(1);
    var r := server.SendFriendRequest("a", codeB, "r1", 2);
  }

  /** The two stored users keep their ids and names. */
  predicate KnownPair(users: seq<User>) {
    |users| == 2 && users[0].id == "a" && users[0].username == "alice"
    && users[1].id == "b" && users[1].username == "bob"
  }

  /** User `uid`, stored at `idx`, connects on `socket` with a token that
      verifies as `uid`. */
  method ConnectUser(server: ChatServer, socket: SocketId, token: string, uid: UserId, name: string, idx: nat)
    returns (session: Session)
    requires KnownPair(server.users) && idx < 2
    requires server.users[idx].id == uid && server.users[idx].username == name
    requires TwoTokens(token) == Some(uid)
    modifies server
    ensures session == Session(socket, uid, name, FriendRecords(old(server.friendRequests), uid))
    ensures KnownPair(server.users)
    ensures server.onlineUsers == old(server.onlineUsers)[uid := socket]
    ensures server.outbox == old(server.outbox) + PresenceEvents(session.friendRecords, uid, socket, server.onlineUsers, true)
    ensures server.friendRequests == old(server.friendRequests) && server.messages == old(server.messages)
  {
    var users := server.users;
    assert Gate(users, Some(token), TwoTokens) == Success(Identity(uid, name)) by {
      assert UserById(users, uid) == Some(idx);
    }
    var r := server.Connect(socket, Some(token), TwoTokens, 3);
    session := r.value;
  }

  /** Both users connect, Alice first: Bob's connection tells Alice's socket
      that Bob is online. */
  method ConnectBoth(server: ChatServer) returns (sa: Session, sb: Session)
    requires KnownPair(server.users) && server.friendRequests == [AcceptedRequest()]
    requires server.onlineUsers == map[]
    modifies server
    ensures sa == Session("sA", "a", "alice", [AcceptedRequest()])
    ensures sb == Session("sB", "b", "bob", [AcceptedRequest()])
    ensures server.onlineUsers == map["a" := "sA", "b" := "sB"]
    ensures KnownPair(server.users)
    ensures server.friendRequests == [AcceptedRequest()] && server.messages == old(server.messages)
    ensures server.outbox == old(server.outbox) + [FriendOnline("sA", "b")]
  {
    var recs := [AcceptedRequest()];
    assert FriendRecords(recs, "a") == recs && FriendRecords(recs, "b") == recs;
    assert recs[..0] == [];
    sa := ConnectUser(server, "sA", "tA", "a", "alice", 0);
    assert PresenceEvents(recs, "a", "sA", map["a" := "sA"], true) == [];
    sb := ConnectUser(server, "sB", "tB", "b", "bob", 1);
    assert PresenceEvents(recs, "b", "sB", map["a" := "sA", "b" := "sB"], true) == [FriendOnline("sA", "b")];
  }

  /** Alice asks Bob and Bob accepts: the two are friends. */
  method BefriendAliceAndBob() returns (server: ChatServer)
    ensures fresh(server)
    ensures server.users == AliceAndBobUsers() && server.friendRequests == [AcceptedRequest()]
    ensures server.messages == [] && server.onlineUsers == map[] && server.outbox == []
    ensures "b" in FriendIds(server.friendRequests, "a") && "a" in FriendIds(server.friendRequests, "b")
  {
    server := RegisterAliceAndBob();
    AliceAsksBob(server);
    var rs := server.RespondToRequest("b", "r1", true);
    assert RequestById(server.friendRequests, "r1") == Some(0);
    var reqs := server.friendRequests;
    assert reqs == [AcceptedRequest()];
    assert Between(reqs[0], "a", "b") && Between(reqs[0], "b", "a");
    FriendIdsMatchRelation(reqs, "a", "b");
    FriendIdsMatchRelation(reqs, "b", "a");
  }

  /** Alice, connected, sends Bob, who is connected too, a text that needs
      no trimming: Alice's socket gets the echo and Bob's socket gets the
      message, both showing the users' names. */
  method AliceMessagesBob(server: ChatServer, sa: Session, text: string)
    requires KnownPair(server.users)
    requires server.onlineUsers == map["a" := "sA", "b" := "sB"]
    requires sa.socket == "sA" && sa.userId == "a"
    requires text != [] && Trim(text) == text
    modifies server
    ensures server.users == old(server.users) && server.onlineUsers == old(server.onlineUsers)
    ensures server.friendRequests == old(server.friendRequests)
    ensures server.messages == old(server.messages) + [Message("m1", "a", "b", text, 4)]
    ensures server.outbox == old(server.outbox)
      + [NewMessage("sA", MessageView("m1", "alice", "bob", text, 4)),
         NewMessage("sB", MessageView("m1", "alice", "bob", text, 4))]
  {
    var users := server.users;
    var msg := Message("m1", "a", "b", text, 4);
    var view := MessageView("m1", "alice", "bob", text, 4);
    assert ViewOf(users, msg) == Some(view) by {
      assert UserById(users, "a") == Some(0) && UserById(users, "b") == Some(1);
    }
    assert StoredMessageEvents(users, server.onlineUsers, "sA", msg)
      == [NewMessage("sA", view), NewMessage("sB", view)] by {
      assert MessageDeliveries("sA", server.onlineUsers, "b", view)
        == [NewMessage("sA", view), NewMessage("sB", view)];
    }
    server.SendMessage(sa, "b", text, "m1", 4);
  }

  /** Bob, connected on `"sB"` as Alice's friend, disconnects: Alice's
      socket hears that he went offline. */
  method BobLeaves(server: ChatServer, sb: Session)
    requires sb == Session("sB", "b", "bob", [AcceptedRequest()])
    requires server.onlineUsers == map["a" := "sA", "b" := "sB"]
    modifies server
    ensures server.outbox == old(server.outbox) + [FriendOffline("sA", "b")]
  {
    var recs := [AcceptedRequest()];
    assert recs[..0] == [];
    assert map["a" := "sA", "b" := "sB"] - {"b"} == map["a" := "sA"];
    assert PresenceEvents(recs, "b", "sB", map["a" := "sA"], false) == [FriendOffline("sA", "b")];
    server.Disconnect(sb, 5);
  }

  /** The end-to-end flow: Alice and Bob register, Alice asks Bob by his
      public code, Bob accepts, both connect, and Alice says "hi": Bob's
      socket receives it under their names. Bob disconnects, and Alice's
      socket hears that he went offline. */
  method AliceAndBob() returns (delivered: bool, offlineNoticed: bool)
    ensures delivered && offlineNoticed
  {
    var server := BefriendAliceAndBob();
    var sa, sb := ConnectBoth(server);
    var text := "hi";
    assert Trim(text) == text by {
      assert TrimStart(text) == text && TrimEnd(text) == text;
    }
    AliceMessagesBob(server, sa, text);
    delivered := NewMessage("sB", MessageView("m1", "alice", "bob", text, 4)) in server.outbox;
    BobLeaves(server, sb);
    offlineNoticed := FriendOffline("sA", "b") in server.outbox;
  }

  /** Alice, who has no friends, connects on `"sA1"` and again on `"sA2"`;
      then the first connection closes. `disconnect` removes Alice from the
      online map although her second socket is still live. */
  method ReconnectThenDropFirst(server: ChatServer)
    requires KnownPair(server.users) && server.friendRequests == []
    requires server.onlineUsers == map[]
    modifies server
    ensures KnownPair(server.users)
    ensures server.onlineUsers == map[] && server.outbox == old(server.outbox)
  {
    assert FriendRecords([], "a") == [];
    var first := ConnectUser(server, "sA1", "tA", "a", "alice", 0);
    var second := ConnectUser(server, "sA2", "tA", "a", "alice", 0);
    assert server.onlineUsers == map["a" := "sA2"];
    server.Disconnect(first, 5);
  }

  /** Bob sends a message to Alice while the online map has no entry for
      her: only Bob's own echo is emitted. */
  method BobMessagesAbsentAlice(server: ChatServer, text: string)
    requires KnownPair(server.users)
    requires "a" !in server.onlineUsers
    requires text != [] && Trim(text) == text
    modifies server
    ensures server.outbox == old(server.outbox) + [NewMessage("sB", MessageView("m1", "bob", "alice", text, 6))]
  {
    var users := server.users;
    var msg := Message("m1", "b", "a", text, 6);
    var view := MessageView("m1", "bob", "alice", text, 6);
    assert ViewOf(users, msg) == Some(view) by {
      assert UserById(users, "a") == Some(0) && UserById(users, "b") == Some(1);
    }
    assert StoredMessageEvents(users, server.onlineUsers, "sB", msg) == [NewMessage("sB", view)];
    server.SendMessage(Session("sB", "b", "bob", []), "a", text, "m1", 6);
  }

  /** A stale `disconnect` evicts a live socket: after Alice's first
      connection closes, her second one gets no message Bob sends her. */
  method StaleDisconnectEvictsLiveSocket() returns (evicted: bool, missed: bool)
    ensures evicted && missed
  {
    var server := RegisterAliceAndBob();
    ReconnectThenDropFirst(server);
    evicted := "a" !in server.onlineUsers;
    var text := "hi";
    assert Trim(text) == text by {
      assert TrimStart(text) == text && TrimEnd(text) == text;
    }
    BobMessagesAbsentAlice(server, text);
    assert server.outbox == [NewMessage("sB", MessageView("m1", "bob", "alice", text, 6))];
    missed := forall k :: 0 <= k < |server.outbox| ==> server.outbox[k].target != "sA2";
  }

  /** Alice sends a message to an id that is no stored user. */
  method AliceMessagesNobody(server: ChatServer, text: string)
    requires KnownPair(server.users)
    requires text != [] && Trim(text) == text
    modifies server
    ensures server.messages == old(server.messages) + [Message("m1", "a", "nobody", text, 3)]
    ensures server.outbox == old(server.outbox) + [ErrorNotice("sA", SendFailed)]
  {
    assert UserById(server.users, "nobody").None?;
    server.SendMessage(Session("sA", "a", "alice", []), "nobody", text, "m1", 3);
  }

  /** A message to an id that is no stored user is stored all the same, and
      the sender is then told that sending failed. */
  method UnknownAddresseeStillStored() returns (stored: bool, refused: bool)
    ensures stored && refused
  {
    var server := RegisterAliceAndBob();
    assert KnownPair(server.users);
    var text := "hi";
    assert Trim(text) == text by {
      assert TrimStart(text) == text && TrimEnd(text) == text;
    }
    AliceMessagesNobody(server, text);
    stored := server.messages == [Message("m1", "a", "nobody", text, 3)];
    refused := server.outbox == [ErrorNotice("sA", SendFailed)];
  }

  /** `POST /api/friends/respond` does not check that the caller is the
      request's addressee: Alice can accept her own request to Bob. */
  method RequesterAcceptsOwnRequest() returns (befriended: bool)
    ensures befriended
  {
    var server := RegisterAliceAndBob();
    AliceAsksBob(server);
    var r := server.RespondToRequest("a", "r1", true);
    assert RequestById([FriendRequest("r1", "a", "b", Pending, 2)], "r1") == Some(0);
    var reqs := server.friendRequests;
    assert reqs == [AcceptedRequest()];
    assert Between(reqs[0], "a", "b");
    FriendIdsMatchRelation(reqs, "a", "b");
    befriended := r.Success? && "b" in FriendIds(reqs, "a");
  }

  /** Two registrations of `"alice"` overlap as the event loop allows: both
      pass their checks while both password hashes are pending, then both
      resume and push. The stored users end with the name twice. */
  method OverlappingRegistrationsDuplicateName() returns (duplicated: bool)
    ensures duplicated
  {
    var server := new ChatServer.Load([], [], []);
    var first := server.CheckRegistration("alice", "secret1");
    var second := server.CheckRegistration("alice", "secret2");
    var v1 := server.CommitRegistration("alice", "hash1", 1, "a", 1);
    var v2 := server.CommitRegistration("alice", "hash2", 2, "b", 1);
    duplicated := first.None? && second.None? && |server.users| == 2
      && server.users[0].username == server.users[1].username;
  }

  /** The same interleaving with the name looked up again after the hash:
      the second registration is refused as taken and the name is stored once. */
  method OverlappingRegistrationsWithRecheck() returns (refused: bool)
    ensures refused
  {
    var server := new ChatServer.Load([], [], []);
    var first := server.CheckRegistration("alice", "secret1");
    var second := server.CheckRegistration("alice", "secret2");
    var r1 := server.CommitRegistrationChecked("alice", "hash1", 1, "a", 1);
    assert server.users[0].username == "alice";
    var r2 := server.CommitRegistrationChecked("alice", "hash2", 2, "b", 1);
    refused := first.None? && second.None? && r1.Success? && r2 == Failure(UsernameTaken)
      && |server.users| == 1;
  }
}
