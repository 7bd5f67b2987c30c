/** The records the server keeps in its three collections, the events it
    emits over sockets, and its error outcomes. */
module Entities {

  /** The internal user id minted by `generateId`. */
  type UserId = string

  /** The id socket.io gives each connection. */
  type SocketId = string

  /** A stored user (server.js:149-158). `code` is the eight-digit public
      `userid` used to find friends; `password` holds the bcrypt hash. */
  datatype User = User(
    id: UserId,
    code: string,
    username: string,
    password: string,
    theme: string,
    isOnline: bool,
    lastSeen: nat,
    createdAt: nat)

  /** The `status` of a friend request: `'pending'` or `'accepted'`. */
  datatype RequestStatus = Pending | Accepted

  /** A stored friend request (server.js:297-303). */
  datatype FriendRequest = FriendRequest(
    id: string,
    from: UserId,
    to: UserId,
    status: RequestStatus,
    createdAt: nat)

  /** A stored direct message (server.js:535-541). */
  datatype Message = Message(
    id: string,
    from: UserId,
    to: UserId,
    body: string,
    timestamp: nat)

  /** A message as clients see it, with user names in place of user ids: the
      `new_message` payload and an element of the history response. */
  datatype MessageView = MessageView(
    id: string,
    fromName: string,
    toName: string,
    body: string,
    timestamp: nat)

  /** The two texts of the socket `error` event. */
  datatype Notice = EmptyMessage | SendFailed

  /** One `emit` to one socket. */
  datatype Event =
    | FriendRequestReceived(target: SocketId, fromName: string, fromCode: string)
    | FriendRequestAccepted(target: SocketId, byName: string, byCode: string)
    | FriendOnline(target: SocketId, userId: UserId)
    | FriendOffline(target: SocketId, userId: UserId)
    | NewMessage(target: SocketId, view: MessageView)
    | ErrorNotice(target: SocketId, notice: Notice)

  /** The error responses of the HTTP routes (status codes left aside). */
  datatype ApiError =
    | MissingFields
    | UsernameTooShort
    | PasswordTooShort
    | UsernameTaken
    | BadCredentials
    | UserNotFound
    | SelfRequest
    | RequestExists
    | RequestNotFound
    | ServerError

  /** Why a token is refused, by the HTTP middleware or the socket gate. */
  datatype AuthError = MissingToken | InvalidToken | UnknownUser

  /** The user object returned by register and login. */
  datatype UserView = UserView(id: UserId, code: string, username: string, theme: string)

  /** An element of the friend list (server.js:408-414). */
  datatype FriendView = FriendView(
    id: UserId,
    code: string,
    username: string,
    isOnline: bool,
    lastSeen: nat)

  /** An element of the incoming-request list (server.js:337-345). */
  datatype IncomingView = IncomingView(
    requestId: string,
    fromId: UserId,
    fromName: string,
    fromCode: string,
    createdAt: nat)

  /** The identity the socket gate attaches to a connection (server.js:489-490). */
  datatype Identity = Identity(userId: UserId, username: string)

  /** A live connection as its handlers see it: its socket id, its user, and
      the accepted friend requests captured when it connected (server.js:511-514). */
  datatype Session = Session(
    socket: SocketId,
    userId: UserId,
    username: string,
    friendRecords: seq<FriendRequest>)
}
