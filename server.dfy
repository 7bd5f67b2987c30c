/** The server's state and its handlers (server.js): the three stored
    collections, the session map `onlineUsers`, and the HTTP routes and
    socket handlers that change them. Every `emit` is appended to `outbox`.
    Clocks, fresh ids, random draws, bcrypt and jwt are parameters; saving to
    disk leaves the modelled state as it is. */
module Server {
  import opened Wrappers
  import opened Entities
  import opened Arrays
  import opened Text
  import opened Friends
  import opened History
  import opened Fanout
  import opened Auth

  const DefaultTheme: string := "light"
  const MinUsernameLength: nat := 3
  const MinPasswordLength: nat := 6

  /** The registration checks of server.js:127-143, in the order the handler
      makes them; `None` when registration may go ahead. */
  function RegistrationError(users: seq<User>, username: string, password: string): (r: Option<ApiError>)
    ensures r == Some(MissingFields) <==> username == "" || password == ""
    ensures r.None? <==>
      |username| >= MinUsernameLength && |password| >= MinPasswordLength && UserByName(users, username).None?
  {
    if username == "" || password == "" then Some(MissingFields)
    else if |username| < MinUsernameLength then Some(UsernameTooShort)
    else if |password| < MinPasswordLength then Some(PasswordTooShort)
    else if UserByName(users, username).Some? then Some(UsernameTaken)
    else None
  }

  /** The user record registration creates (server.js:149-158). */
  function NewUser(id: UserId, code: string, username: string, hash: string, now: nat): User {
    User(id, code, username, hash, DefaultTheme, false, now, now)
  }

  ghost predicate UniqueUsernames(users: seq<User>) {
    forall i, j :: 0 <= i < j < |users| ==> users[i].username != users[j].username
  }

  /** Appending a user whose name no stored user has keeps names unique. */
  lemma AppendFreshNameKeepsUnique(users: seq<User>, u: User)
    requires UniqueUsernames(users) && UserByName(users, u.username).None?
    ensures UniqueUsernames(users + [u])
  {
    var s := users + [u];
    forall i, j | 0 <= i < j < |s| ensures s[i].username != s[j].username {
      if j == |users| {
        assert s[i] == users[i];
      }
    }
  }

  /** A registration whose checks pass and whose user is appended to the
      same users it was checked against keeps user names unique, and the
      new user's name and password meet the length minimums. */
  lemma RegistrationKeepsUsernamesUnique(users: seq<User>, username: string, password: string, u: User)
    requires UniqueUsernames(users)
    requires RegistrationError(users, username, password) == None && u.username == username
    ensures UniqueUsernames(users + [u])
    ensures |username| >= MinUsernameLength && |password| >= MinPasswordLength
  {
    AppendFreshNameKeepsUnique(users, u);
  }

  /** Once a name is registered, registering it again, with any password
      that passes the length check, is refused as taken. */
  lemma SecondRegistrationRefused(users: seq<User>, u: User, password: string)
    requires |u.username| >= MinUsernameLength && |password| >= MinPasswordLength
    ensures RegistrationError(users + [u], u.username, password) == Some(UsernameTaken)
  {
    var s := users + [u];
    assert s[|users|].username == u.username;
  }

  /** The first user with id `uid` marked online or offline at time `now`
      (server.js:501-506, 577-582); the others are left as they are. */
  function MarkPresence(users: seq<User>, uid: UserId, online: bool, now: nat): (r: seq<User>)
    ensures |r| == |users|
    ensures forall k :: 0 <= k < |r| ==> r[k].username == users[k].username && r[k].id == users[k].id
    ensures forall k :: 0 <= k < |r| && (UserById(users, uid).None? || k != UserById(users, uid).value) ==>
      r[k] == users[k]
    ensures UserById(users, uid).Some? ==>
      var i := UserById(users, uid).value;
      r[i] == users[i].(isOnline := online, lastSeen := now)
  {
    match UserById(users, uid)
    case Some(i) => users[i := users[i].(isOnline := online, lastSeen := now)]
    case None => users
  }

  /** What `send_message` emits once `msg` is stored: a `SendFailed` error
      to the sender when the sender or the addressee is not a stored user
      (reading `username` of an undefined `find` throws), else the deliveries. */
  function StoredMessageEvents(users: seq<User>, sessions: map<UserId, SocketId>, own: SocketId, msg: Message)
    : (evs: seq<Event>)
    ensures evs == [ErrorNotice(own, SendFailed)] <==>
      UserById(users, msg.from).None? || UserById(users, msg.to).None?
    ensures ViewOf(users, msg).Some? ==> evs == MessageDeliveries(own, sessions, msg.to, ViewOf(users, msg).value)
    ensures forall k :: 0 <= k < |evs| ==> evs[k].target == own || (msg.to in sessions && evs[k].target == sessions[msg.to])
  {
    match ViewOf(users, msg)
    case None => [ErrorNotice(own, SendFailed)]
    case Some(view) => MessageDeliveries(own, sessions, msg.to, view)
  }

  class ChatServer {
    var users: seq<User>
    var friendRequests: seq<FriendRequest>
    var messages: seq<Message>
    var onlineUsers: map<UserId, SocketId>
    var outbox: seq<Event>

    /** The invariant the handlers keep: unique user names, and at most one
        friend request per pair of distinct users. */
    ghost predicate Valid()
      reads this`users, this`friendRequests
    {
      UniqueUsernames(users) && WellFormed(friendRequests)
    }

    /** Start-up: the collections as loaded from disk, nobody connected. */
    constructor Load(loadedUsers: seq<User>, loadedRequests: seq<FriendRequest>, loadedMessages: seq<Message>)
      ensures users == loadedUsers && friendRequests == loadedRequests && messages == loadedMessages
      ensures onlineUsers == map[] && outbox == []
      ensures UniqueUsernames(loadedUsers) && WellFormed(loadedRequests) ==> Valid()
    {
      users := loadedUsers;
      friendRequests := loadedRequests;
      messages := loadedMessages;
      onlineUsers := map[];
      outbox := [];
    }

    /** The first half of `POST /api/auth/register` (server.js:122-143): the
        checks, which read the stored users and change nothing. */
    method CheckRegistration(username: string, password: string) returns (error: Option<ApiError>)
      ensures error == RegistrationError(users, username, password)
    {
      if username == "" || password == "" {
        return Some(MissingFields);
      }
      if |username| < MinUsernameLength {
        return Some(UsernameTooShort);
      }
      if |password| < MinPasswordLength {
        return Some(PasswordTooShort);
      }
      if UserByName(users, username).Some? {
        return Some(UsernameTaken);
      }
      return None;
    }

    /** The second half of `POST /api/auth/register` as written
        (server.js:145-160). It runs once `await bcrypt.hash(...)` resumes,
        after the event loop may have run other handlers, and appends the new
        user without looking at the stored names again. */
    method CommitRegistration(username: string, hash: string, draw: nat, id: UserId, now: nat)
      returns (view: UserView)
      requires draw < UserCodeRange
      modifies this`users
      ensures users == old(users) + [NewUser(id, GenerateUserCode(draw), username, hash, now)]
      ensures view == UserView(id, GenerateUserCode(draw), username, DefaultTheme)
    {
      var code := GenerateUserCode(draw);
      users := users + [NewUser(id, code, username, hash, now)];
      view := UserView(id, code, username, DefaultTheme);
    }

    /** The second half as it is evidently meant to work: the name is looked
        up again once the hash is ready, so a registration that overlapped
        another one for the same name is refused as taken. User names then
        stay unique however registrations interleave. */
    method CommitRegistrationChecked(username: string, hash: string, draw: nat, id: UserId, now: nat)
      returns (r: Result<UserView, ApiError>)
      requires draw < UserCodeRange
      modifies this`users
      ensures UserByName(old(users), username).Some? ==> r == Failure(UsernameTaken) && users == old(users)
      ensures UserByName(old(users), username).None? ==>
        var code := GenerateUserCode(draw);
        && users == old(users) + [NewUser(id, code, username, hash, now)]
        && r == Success(UserView(id, code, username, DefaultTheme))
      ensures UniqueUsernames(old(users)) ==> UniqueUsernames(users)
    {
      if UserByName(users, username).Some? {
        return Failure(UsernameTaken);
      }
      var code := GenerateUserCode(draw);
      var user := NewUser(id, code, username, hash, now);
      if UniqueUsernames(users) {
        AppendFreshNameKeepsUnique(users, user);
      }
      users := users + [user];
      r := Success(UserView(id, code, username, DefaultTheme));
    }

    /** `POST /api/auth/register` (server.js:122-190) when no other
        registration runs between its two halves: the checks, then the commit
        with the name looked up again, which then never refuses. `draw` is
        the integer part of `Math.random() * 90000000`, `hash` the bcrypt hash
        of the password, `id` the fresh `generateId()`. */
    method Register(username: string, password: string, hash: string, draw: nat, id: UserId, now: nat)
      returns (r: Result<UserView, ApiError>)
      requires draw < UserCodeRange
      modifies this
      ensures r.Failure? <==> RegistrationError(old(users), username, password).Some?
      ensures r.Failure? ==> r.error == RegistrationError(old(users), username, password).value && users == old(users)
      ensures r.Success? ==>
        var code := GenerateUserCode(draw);
        && users == old(users) + [NewUser(id, code, username, hash, now)]
        && r.value == UserView(id, code, username, DefaultTheme)
      ensures friendRequests == old(friendRequests) && messages == old(messages)
      ensures onlineUsers == old(onlineUsers) && outbox == old(outbox)
      ensures old(Valid()) ==> Valid()
    {
      var error := CheckRegistration(username, password);
      if error.Some? {
        return Failure(error.value);
      }
      r := CommitRegistrationChecked(username, hash, draw, id, now);
    }

    /** `POST /api/auth/login` (server.js:193-244). `passwordMatches` is
        `bcrypt.compare`. The user found by name is marked online. */
    method Login(username: string, password: string, passwordMatches: (string, string) -> bool, now: nat)
      returns (r: Result<UserView, ApiError>)
      modifies this
      ensures username == "" || password == "" ==> r == Failure(MissingFields) && users == old(users)
      ensures username != "" && password != "" && UserByName(old(users), username).None? ==>
        r == Failure(BadCredentials) && users == old(users)
      ensures username != "" && password != "" && UserByName(old(users), username).Some? ==>
        var i := UserByName(old(users), username).value;
        var u := old(users)[i];
        if passwordMatches(password, u.password) then
          && users == old(users)[i := u.(isOnline := true, lastSeen := now)]
          && r == Success(UserView(u.id, u.code, u.username, u.theme))
        else
          r == Failure(BadCredentials) && users == old(users)
      ensures friendRequests == old(friendRequests) && messages == old(messages)
      ensures onlineUsers == old(onlineUsers) && outbox == old(outbox)
      ensures old(Valid()) ==> Valid()
    {
      if username == "" || password == "" {
        return Failure(MissingFields);
      }
      var found := UserByName(users, username);
      if found.None? {
        return Failure(BadCredentials);
      }
      var i := found.value;
      var u := users[i];
      if !passwordMatches(password, u.password) {
        return Failure(BadCredentials);
      }
      users := users[i := u.(isOnline := true, lastSeen := now)];
      r := Success(UserView(u.id, u.code, u.username, u.theme));
    }

    /** `PUT /api/user/theme` (server.js:455-471): sets the caller's theme when
        the caller is stored, and answers with success either way. */
    method SetTheme(caller: UserId, theme: string)
      modifies this
      ensures UserById(old(users), caller).None? ==> users == old(users)
      ensures UserById(old(users), caller).Some? ==>
        var i := UserById(old(users), caller).value;
        users == old(users)[i := old(users)[i].(theme := theme)]
      ensures friendRequests == old(friendRequests) && messages == old(messages)
      ensures onlineUsers == old(onlineUsers) && outbox == old(outbox)
      ensures old(Valid()) ==> Valid()
    {
      var found := UserById(users, caller);
      if found.Some? {
        var i := found.value;
        users := users[i := users[i].(theme := theme)];
      }
    }

    /** `POST /api/friends/request` (server.js:270-328) from `caller` to the
        user whose public code is `code`. The record is stored before the
        sender is looked up for the notification, so a caller whose token
        names no stored user gets a server error with the record kept. */
    method SendFriendRequest(caller: UserId, code: string, id: string, now: nat)
      returns (r: Result<(), ApiError>)
      modifies this
      ensures UserByCode(old(users), code).None? ==>
        r == Failure(UserNotFound) && friendRequests == old(friendRequests) && outbox == old(outbox)
      ensures UserByCode(old(users), code).Some? ==>
        var target := old(users)[UserByCode(old(users), code).value].id;
        if target == caller then
          r == Failure(SelfRequest) && friendRequests == old(friendRequests) && outbox == old(outbox)
        else if PairBlocked(old(friendRequests), caller, target) then
          r == Failure(RequestExists) && friendRequests == old(friendRequests) && outbox == old(outbox)
        else
          && friendRequests == old(friendRequests) + [FriendRequest(id, caller, target, Pending, now)]
          && (target !in onlineUsers ==> r == Success(()) && outbox == old(outbox))
          && (target in onlineUsers && UserById(users, caller).None? ==>
                r == Failure(ServerError) && outbox == old(outbox))
          && (target in onlineUsers && UserById(users, caller).Some? ==>
                var sender := users[UserById(users, caller).value];
                && r == Success(())
                && outbox == old(outbox) + [FriendRequestReceived(onlineUsers[target], sender.username, sender.code)])
      ensures users == old(users) && messages == old(messages) && onlineUsers == old(onlineUsers)
      ensures old(Valid()) ==> Valid()
    {
      var found := UserByCode(users, code);
      if found.None? {
        return Failure(UserNotFound);
      }
      var target := users[found.value].id;
      if target == caller {
        return Failure(SelfRequest);
      }
      if ExistingRequest(friendRequests, caller, target).Some? {
        return Failure(RequestExists);
      }
      var request := FriendRequest(id, caller, target, Pending, now);
      if WellFormed(friendRequests) {
        AppendKeepsWellFormed(friendRequests, request);
      }
      friendRequests := friendRequests + [request];
      r := Success(());
      if target in onlineUsers {
        var sender := UserById(users, caller);
        if sender.None? {
          return Failure(ServerError);
        }
        var s := users[sender.value];
        outbox := outbox + [FriendRequestReceived(onlineUsers[target], s.username, s.code)];
      }
    }

    /** `POST /api/friends/respond` (server.js:356-395) by `caller`. The
        collection changes as `Respond` says; an accepted request's sender,
        when connected, is told the caller's name. */
    method RespondToRequest(caller: UserId, requestId: string, accept: bool)
      returns (r: Result<(), ApiError>)
      modifies this
      ensures Respond(old(friendRequests), requestId, accept).Failure? ==>
        r == Failure(RequestNotFound) && friendRequests == old(friendRequests) && outbox == old(outbox)
      ensures Respond(old(friendRequests), requestId, accept).Success? ==>
        var request := old(friendRequests)[RequestById(old(friendRequests), requestId).value];
        && friendRequests == Respond(old(friendRequests), requestId, accept).value
        && (!accept || request.from !in onlineUsers ==> r == Success(()) && outbox == old(outbox))
        && (accept && request.from in onlineUsers && UserById(users, caller).None? ==>
              r == Failure(ServerError) && outbox == old(outbox))
        && (accept && request.from in onlineUsers && UserById(users, caller).Some? ==>
              var responder := users[UserById(users, caller).value];
              && r == Success(())
              && outbox == old(outbox) + [FriendRequestAccepted(onlineUsers[request.from], responder.username, responder.code)])
      ensures old(Valid()) && !accept && r.Success? ==>
        var request := old(friendRequests)[RequestById(old(friendRequests), requestId).value];
        !PairBlocked(friendRequests, request.from, request.to)
      ensures users == old(users) && messages == old(messages) && onlineUsers == old(onlineUsers)
      ensures old(Valid()) ==> Valid()
    {
      var found := RequestById(friendRequests, requestId);
      if found.None? {
        return Failure(RequestNotFound);
      }
      var i := found.value;
      var request := friendRequests[i];
      if WellFormed(friendRequests) {
        RespondKeepsWellFormed(friendRequests, requestId, accept);
        if !accept {
          RejectUnblocksPair(friendRequests, requestId);
        }
      }
      if accept {
        friendRequests := friendRequests[i := request.(status := Accepted)];
        if request.from in onlineUsers {
          var responder := UserById(users, caller);
          if responder.None? {
            return Failure(ServerError);
          }
          var u := users[responder.value];
          outbox := outbox + [FriendRequestAccepted(onlineUsers[request.from], u.username, u.code)];
        }
      } else {
        friendRequests := friendRequests[..i] + friendRequests[i + 1..];
      }
      r := Success(());
    }

    /** The presence `forEach` (server.js:516-524, 587-595): for each captured
        record, the friend's current socket, if any, gets the event. */
    method AnnouncePresence(recs: seq<FriendRequest>, uid: UserId, own: SocketId, online: bool)
      modifies this`outbox
      ensures outbox == old(outbox) + PresenceEvents(recs, uid, own, onlineUsers, online)
    {
      var sessions := onlineUsers;
      ghost var start := outbox;
      var i := 0;
      while i < |recs|
        invariant 0 <= i <= |recs|
        invariant outbox == start + PresenceEvents(recs[..i], uid, own, sessions, online)
      {
        PresenceEventsSnoc(recs, i, uid, own, sessions, online);
        ghost var prior := outbox;
        var friendId := OtherEnd(recs[i], uid);
        if friendId in sessions {
          outbox := outbox + ToOthers(own, PresenceNotice(online, sessions[friendId], uid));
        }
        assert outbox == prior + PresenceStep(recs[i], uid, own, sessions, online);
        i := i + 1;
      }
      assert recs[..|recs|] == recs;
    }

    /** A socket connects with handshake token `token` (the gate,
        server.js:475-495, then the `connection` handler, server.js:497-524):
        the user is marked online, the socket replaces any earlier one in
        `onlineUsers`, and every friend with a session hears `friend_online`.
        The returned session keeps the accepted records captured here. */
    method Connect(socket: SocketId, token: Option<string>, verify: string -> Option<UserId>, now: nat)
      returns (r: Result<Session, AuthError>)
      modifies this
      ensures r.Failure? <==> Gate(old(users), token, verify).Failure?
      ensures r.Failure? ==>
        && r.error == Gate(old(users), token, verify).error
        && users == old(users) && onlineUsers == old(onlineUsers) && outbox == old(outbox)
      ensures r.Success? ==>
        var id := Gate(old(users), token, verify).value;
        && r.value == Session(socket, id.userId, id.username, FriendRecords(old(friendRequests), id.userId))
        && users == MarkPresence(old(users), id.userId, true, now)
        && onlineUsers == old(onlineUsers)[id.userId := socket]
        && outbox == old(outbox) + PresenceEvents(r.value.friendRecords, id.userId, socket, onlineUsers, true)
      ensures friendRequests == old(friendRequests) && messages == old(messages)
      ensures old(Valid()) ==> Valid()
    {
      var gate := Gate(users, token, verify);
      if gate.Failure? {
        return Failure(gate.error);
      }
      var uid := gate.value.userId;
      users := MarkPresence(users, uid, true, now);
      onlineUsers := onlineUsers[uid := socket];
      var userFriends := FriendRecords(friendRequests, uid);
      AnnouncePresence(userFriends, uid, socket, true);
      r := Success(Session(socket, uid, gate.value.username, userFriends));
    }

    /** The `send_message` handler (server.js:527-571) of `session`. An empty
        addressee or a blank text is refused; otherwise the message with the
        trimmed text is stored and delivered. */
    method SendMessage(session: Session, to: UserId, message: string, id: string, now: nat)
      modifies this
      ensures var body := Trim(message);
        if to == "" || body == "" then
          messages == old(messages) && outbox == old(outbox) + [ErrorNotice(session.socket, EmptyMessage)]
        else
          var msg := Message(id, session.userId, to, body, now);
          && messages == old(messages) + [msg]
          && outbox == old(outbox) + StoredMessageEvents(users, onlineUsers, session.socket, msg)
      ensures users == old(users) && friendRequests == old(friendRequests) && onlineUsers == old(onlineUsers)
      ensures old(Valid()) ==> Valid()
    {
      var body := Trim(message);
      if to == "" || body == "" {
        outbox := outbox + [ErrorNotice(session.socket, EmptyMessage)];
        return;
      }
      StoreAndDeliver(session.socket, Message(id, session.userId, to, body, now));
    }

    /** The rest of `send_message` (server.js:534-563): `msg` is stored first;
        if its sender or addressee is not a stored user the sender's socket
        `own` gets an error, else it gets the echo and the addressee's
        socket, when it has one, gets a copy. */
    method StoreAndDeliver(own: SocketId, msg: Message)
      modifies this`messages, this`outbox
      ensures messages == old(messages) + [msg]
      ensures outbox == old(outbox) + StoredMessageEvents(users, onlineUsers, own, msg)
    {
      messages := messages + [msg];
      var view := ViewOf(users, msg);
      if view.None? {
        outbox := outbox + [ErrorNotice(own, SendFailed)];
        return;
      }
      ghost var before := outbox;
      outbox := outbox + [NewMessage(own, view.value)];
      if msg.to in onlineUsers {
        outbox := outbox + ToOthers(own, NewMessage(onlineUsers[msg.to], view.value));
      }
      assert outbox == before + MessageDeliveries(own, onlineUsers, msg.to, view.value);
    }

    /** The `disconnect` handler (server.js:574-596) of `session`: the user is
        marked offline, its entry in `onlineUsers` is removed whichever socket
        it names, and the friends captured at connection time that still have
        a session hear `friend_offline`. */
    method Disconnect(session: Session, now: nat)
      modifies this
      ensures users == MarkPresence(old(users), session.userId, false, now)
      ensures onlineUsers == old(onlineUsers) - {session.userId}
      ensures outbox == old(outbox) + PresenceEvents(session.friendRecords, session.userId, session.socket, onlineUsers, false)
      ensures friendRequests == old(friendRequests) && messages == old(messages)
      ensures old(Valid()) ==> Valid()
    {
      users := MarkPresence(users, session.userId, false, now);
      onlineUsers := onlineUsers - {session.userId};
      AnnouncePresence(session.friendRecords, session.userId, session.socket, false);
    }
  }
}
