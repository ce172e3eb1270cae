/**
 * The realtime session manager (`SocketProvider`): connection status, the
 * current room, the presence list, the chat and notification buffers, the
 * unread counter, the single liveness-ping timer, and the outbound actions
 * with their guards.
 *
 * The transport is not modelled: every `socket.emit`, and every call that
 * creates, reopens or closes the connection, is appended to `outbox`; every
 * server event is a method named after it. Time is the `now` argument (in
 * milliseconds), and what `getUserInfo` reads from browser storage is the
 * `stored` argument. Interval timers are handles: `liveTimers` is the set of
 * intervals the environment would be running.
 */
module SocketSession {
  import opened Wrappers
  import opened JsText
  import opened Buffers
  import opened SocketSecurity
  import opened RateLimiting

  const MaxMessages: nat := 100
  const MaxNotifications: nat := 50
  const MaxReconnectAttempts: nat := 5

  datatype ConnectionStatus = Connecting | Connected | Disconnected | Error

  /** A timestamp: text carried by an event, or the clock reading that `new Date().toISOString()` renders. */
  datatype Stamp = Given(text: string) | At(ms: nat)

  /** What browser storage holds: the profile (empty strings for missing fields) and the access token. */
  datatype Profile = Profile(id: string, username: string, email: string)
  datatype StoredSession = StoredSession(profile: Option<Profile>, accessToken: string)

  datatype UserInfo = UserInfo(userId: string, username: string, accessToken: string)

  /** JavaScript's `a || b` on an optional string: falls back when absent or empty. */
  function OrElse(a: Option<string>, b: string): (r: string)
    ensures r == b || (a.Some? && r == a.value && r != "")
    ensures (a.Some? && a.value != "") ==> r == a.value
  {
    if a.Some? && a.value != "" then a.value else b
  }

  /** `getUserInfo`: id or empty; username, else e-mail, else "Anonymous". */
  function GetUserInfo(stored: StoredSession): (u: UserInfo)
    ensures u.username != ""
    ensures u.accessToken == stored.accessToken
    ensures u.userId == "" <==> stored.profile.None? || stored.profile.value.id == ""
    ensures stored.profile.Some? && stored.profile.value.username != "" ==>
              u.username == stored.profile.value.username
    ensures stored.profile.None? ==> u.username == "Anonymous"
  {
    match stored.profile
    case None => UserInfo("", "Anonymous", stored.accessToken)
    case Some(p) =>
      UserInfo(p.id,
               if p.username != "" then p.username else if p.email != "" then p.email else "Anonymous",
               stored.accessToken)
  }

  /** A presence record. */
  datatype SocketUser = SocketUser(
    userId: string, username: Option<string>, avatar: Option<string>,
    isOnline: bool, lastSeen: Option<Stamp>)

  /** The fields a `userJoined` event carries. */
  datatype UserPatch = UserPatch(userId: string, username: Option<string>, avatar: Option<string>)

  datatype MessageKind = TextMessage | ImageMessage | SystemMessage

  datatype ChatMessage = ChatMessage(
    id: string, roomId: string, userId: string, username: string, message: string,
    messageType: MessageKind, timestamp: Stamp, imageUrl: Option<string>)

  /** The payload of a `newMessage` event. */
  datatype IncomingMessage = IncomingMessage(
    id: Option<string>, roomId: string, userId: string, username: string, message: string,
    messageType: Option<MessageKind>, timestamp: string, imageUrl: Option<string>)

  /** The payload of a `newGift` event, as far as the handler reads it. */
  datatype IncomingGift = IncomingGift(
    roomId: string, senderName: string, giftName: string, receiverName: string, timestamp: string)

  datatype NotificationKind = Info | Warning | Failure | Success | SystemNotice

  datatype Notification = Notification(
    id: Option<string>, kind: NotificationKind, title: Option<string>, message: Option<string>,
    isRead: bool, timestamp: Stamp)

  /** The payload of a `notification` or `systemNotification` event. */
  datatype IncomingNotification = IncomingNotification(
    id: Option<string>, kind: Option<NotificationKind>, title: Option<string>,
    message: Option<string>, timestamp: Option<string>)

  /** What `sendGift` is given (the source's `Omit<Gift, 'id' | 'timestamp'>`). */
  datatype GiftData = GiftData(
    roomId: string, senderId: string, senderName: string, receiverId: string, receiverName: string,
    giftId: string, giftName: string, giftType: string, giftValue: int, quantity: int,
    message: Option<string>, animation: Option<string>)

  /** Everything the session hands to the transport. */
  datatype Outbound =
    | CreateTransport(token: string, userId: string)          // io(url, { auth })
    | ConnectTransport                                        // socket.connect()
    | CloseTransport                                          // socket.disconnect()
    | Authenticate(token: string, userId: string, timestamp: Stamp)
    | JoinRoom(data: map<string, string>)
    | LeaveRoom(roomId: string)
    | SendMessage(roomId: string, userId: string, username: string, message: string, timestamp: Stamp)
    | SendImageMessage(roomId: string, userId: string, username: string, imageUrl: string, timestamp: Stamp)
    | SendGift(gift: GiftData, timestamp: Stamp)
    | ChatWithAdmin(userId: string, username: string, message: string, supportType: string, timestamp: Stamp)
    | ViewerPing(roomId: string, userId: string, username: string, timestamp: Stamp)

  /** Why an action returned false (the toast it shows). */
  datatype Refusal =
    | NotConnected | InvalidRoomId | NoRoom | CannotSend
    | Cooldown | RateLimited | InvalidMessage(error: MessageError)

  datatype Outcome = Done | Refused(reason: Refusal)

  /** The 30-second interval that pings `roomId`. */
  datatype PingTimer = PingTimer(handle: nat, roomId: string)

  datatype HealthStatus = HealthStatus(
    socket: bool, connectionStatus: ConnectionStatus, currentRoom: Option<string>,
    usersCount: nat, messagesCount: nat, notificationsCount: nat, unreadCount: int)

  datatype ConnectionInfo = ConnectionInfo(
    isConnected: bool, connectionStatus: ConnectionStatus, currentRoom: Option<string>,
    reconnectAttempts: nat, maxReconnectAttempts: nat)

  /** The payload `joinRoom` emits: room and identity first, then the caller's extra fields over them. */
  function JoinPayload(roomId: string, u: UserInfo, userData: map<string, string>): (m: map<string, string>)
    ensures "roomId" in m && "userId" in m && "username" in m
    ensures m.Keys == userData.Keys + {"roomId", "userId", "username"}
    ensures "roomId" !in userData ==> m["roomId"] == roomId
    ensures "userId" !in userData ==> m["userId"] == u.userId
    ensures "username" !in userData ==> m["username"] == u.username
    ensures forall k :: k in userData ==> m[k] == userData[k]
  {
    map["roomId" := roomId, "userId" := u.userId, "username" := u.username] + userData
  }

  /** The room an action defaults to: the argument if given, else the current room, else "". */
  function RoomArgument(roomId: Option<string>, currentRoom: Option<string>): (r: string)
    ensures roomId.Some? ==> r == roomId.value
    ensures roomId.None? && currentRoom.Some? ==> r == currentRoom.value
    ensures roomId.None? && currentRoom.None? ==> r == ""
  {
    match roomId
    case Some(r) => r
    case None => currentRoom.GetOr("")
  }

  /**
   * What `sendMessage` reports, its checks taken in order: socket, connection
   * and room; then the rate limiter's verdict; then the message validator.
   */
  function SendOutcome(ready: bool, verdict: RateCheck, message: string): (r: Outcome)
    ensures r == Done <==>
              ready && verdict == Allowed && 1 <= |message| <= MaxMessageLength && !Forbidden(message)
    ensures !ready ==> r == Refused(CannotSend)
    ensures ready && verdict == CooldownActive ==> r == Refused(Cooldown)
    ensures ready && verdict == RateLimitExceeded ==> r == Refused(RateLimited)
    ensures ready && verdict == Allowed ==>
              && (r == Refused(InvalidMessage(InvalidFormat)) <==> message == [])
              && (r == Refused(InvalidMessage(TooLong)) <==> |message| > MaxMessageLength)
              && (r == Refused(InvalidMessage(ForbiddenContent)) <==>
                    1 <= |message| <= MaxMessageLength && Forbidden(message))
  {
    if !ready then Refused(CannotSend)
    else if verdict == CooldownActive then Refused(Cooldown)
    else if verdict == RateLimitExceeded then Refused(RateLimited)
    else if message == [] then Refused(InvalidMessage(InvalidFormat))
    else if |message| > MaxMessageLength then Refused(InvalidMessage(TooLong))
    else if Forbidden(message) then Refused(InvalidMessage(ForbiddenContent))
    else
      assert verdict == Allowed;
      assert 1 <= |message| <= MaxMessageLength;
      Done
  }

  /** The chat line a `newMessage` event adds. */
  function MessageFrom(data: IncomingMessage, now: nat): (m: ChatMessage)
    ensures m.id == OrElse(data.id, Decimal(now)) && m.id != ""
    ensures m.messageType == data.messageType.GetOr(TextMessage)
    ensures (m.roomId, m.userId, m.username, m.message, m.imageUrl) ==
            (data.roomId, data.userId, data.username, data.message, data.imageUrl)
  {
    ChatMessage(OrElse(data.id, Decimal(now)), data.roomId, data.userId, data.username, data.message,
                data.messageType.GetOr(TextMessage), Given(data.timestamp), data.imageUrl)
  }

  /** The system chat line a `newGift` event adds. */
  function GiftMessage(data: IncomingGift, now: nat): (m: ChatMessage)
    ensures m.messageType == SystemMessage && m.userId == "system" && m.username == "System"
    ensures m.roomId == data.roomId && m.imageUrl.None?
    ensures m.message == data.senderName + " sent " + data.giftName + " to " + data.receiverName
  {
    ChatMessage(Decimal(now), data.roomId, "system", "System",
                data.senderName + " sent " + data.giftName + " to " + data.receiverName,
                SystemMessage, Given(data.timestamp), None)
  }

  function StampOr(t: Option<string>, now: nat): Stamp {
    if t.Some? && t.value != "" then Given(t.value) else At(now)
  }

  /** The entry a `notification` event adds: defaults for every falsy field, unread. */
  function NotificationFrom(data: IncomingNotification, now: nat): (n: Notification)
    ensures !n.isRead
    ensures n.id == Some(OrElse(data.id, Decimal(now)))
    ensures n.kind == data.kind.GetOr(Info)
    ensures n.title == Some(OrElse(data.title, "Notification"))
    ensures n.message == Some(OrElse(data.message, ""))
  {
    Notification(Some(OrElse(data.id, Decimal(now))), data.kind.GetOr(Info),
                 Some(OrElse(data.title, "Notification")), Some(OrElse(data.message, "")),
                 false, StampOr(data.timestamp, now))
  }

  /** The entry a `systemNotification` event adds: the payload as given, of kind system, unread. */
  function SystemNotificationFrom(data: IncomingNotification, now: nat): (n: Notification)
    ensures !n.isRead && n.kind == SystemNotice
    ensures (n.id, n.title, n.message) == (data.id, data.title, data.message)
  {
    Notification(data.id, SystemNotice, data.title, data.message, false, StampOr(data.timestamp, now))
  }

  /** No two presence records share a user id. */
  ghost predicate DistinctUsers(users: seq<SocketUser>) {
    forall i, j :: 0 <= i < j < |users| ==> users[i].userId != users[j].userId
  }

  /** Index of the first record with the given user id (`prev.find`). */
  function FindUser(users: seq<SocketUser>, userId: string): (r: Option<nat>)
    ensures r.Some? ==> r.value < |users| && users[r.value].userId == userId
    ensures r.Some? ==> forall i :: 0 <= i < r.value ==> users[i].userId != userId
    ensures r.None? ==> forall i :: 0 <= i < |users| ==> users[i].userId != userId
  {
    if users == [] then None
    else if users[0].userId == userId then Some(0)
    else
      match FindUser(users[1..], userId)
      case None => None
      case Some(k) => Some(k + 1)
  }

  /** `{ ...u, ...data, isOnline: true }`: the event's fields over the record, online. */
  function MergeJoined(u: SocketUser, p: UserPatch): SocketUser {
    SocketUser(p.userId,
               if p.username.Some? then p.username else u.username,
               if p.avatar.Some? then p.avatar else u.avatar,
               true, u.lastSeen)
  }

  /**
   * The `userJoined` update: a user already present is merged in place
   * wherever listed (same length); a new user is appended, online.
   */
  function UpsertUser(users: seq<SocketUser>, p: UserPatch): (r: seq<SocketUser>)
    ensures FindUser(users, p.userId).Some? ==>
              |r| == |users| &&
              forall i :: 0 <= i < |r| ==>
                r[i] == if users[i].userId == p.userId then MergeJoined(users[i], p) else users[i]
    ensures FindUser(users, p.userId).None? ==>
              r == users + [SocketUser(p.userId, p.username, p.avatar, true, None)]
    ensures exists i :: 0 <= i < |r| && r[i].userId == p.userId && r[i].isOnline
    ensures DistinctUsers(users) ==> DistinctUsers(r)
  {
    match FindUser(users, p.userId)
    case Some(k) =>
      var r := seq(|users|, i requires 0 <= i < |users| =>
                     if users[i].userId == p.userId then MergeJoined(users[i], p) else users[i]);
      assert r[k].userId == p.userId && r[k].isOnline;
      r
    case None =>
      var r := users + [SocketUser(p.userId, p.username, p.avatar, true, None)];
      assert r[|users|].userId == p.userId;
      r
  }

  /** The `userLeft` update: matching records go offline with a last-seen time; none is removed. */
  function MarkOffline(users: seq<SocketUser>, userId: string, seen: Stamp): (r: seq<SocketUser>)
    ensures |r| == |users|
    ensures forall i :: 0 <= i < |r| ==> r[i].userId == users[i].userId
    ensures forall i :: 0 <= i < |r| && users[i].userId == userId ==>
              r[i] == users[i].(isOnline := false, lastSeen := Some(seen))
    ensures forall i :: 0 <= i < |r| && users[i].userId != userId ==> r[i] == users[i]
    ensures DistinctUsers(users) ==> DistinctUsers(r)
  {
    seq(|users|, i requires 0 <= i < |users| =>
          if users[i].userId == userId then users[i].(isOnline := false, lastSeen := Some(seen))
          else users[i])
  }

  /** `markNotificationAsRead`'s map: entries with that id become read, nothing else changes. */
  function MarkRead(ns: seq<Notification>, id: string): (r: seq<Notification>)
    ensures |r| == |ns|
    ensures forall i :: 0 <= i < |r| ==> r[i].isRead == (ns[i].isRead || ns[i].id == Some(id))
    ensures forall i :: 0 <= i < |r| ==> r[i].(isRead := ns[i].isRead) == ns[i]
  {
    seq(|ns|, i requires 0 <= i < |ns| => if ns[i].id == Some(id) then ns[i].(isRead := true) else ns[i])
  }

  /** `markAllNotificationsAsRead`'s map. */
  function MarkAllRead(ns: seq<Notification>): (r: seq<Notification>)
    ensures |r| == |ns|
    ensures forall i :: 0 <= i < |r| ==> r[i].isRead && r[i].(isRead := ns[i].isRead) == ns[i]
  {
    seq(|ns|, i requires 0 <= i < |ns| => ns[i].(isRead := true))
  }

  /** All of the provider's state except the rate limiter, as one value. */
  datatype Session = Session(
    hasSocket: bool, isConnected: bool, currentRoom: Option<string>,
    connectionStatus: ConnectionStatus, users: seq<SocketUser>, messages: seq<ChatMessage>,
    notifications: seq<Notification>, unreadCount: int, reconnectAttempts: nat,
    pingTimer: Option<PingTimer>, liveTimers: set<nat>, nextHandle: nat,
    socketAuth: UserInfo, outbox: seq<Outbound>)

  class SocketProvider {
    var hasSocket: bool
    var isConnected: bool
    var currentRoom: Option<string>
    var connectionStatus: ConnectionStatus
    var users: seq<SocketUser>
    var messages: seq<ChatMessage>
    var notifications: seq<Notification>
    var unreadCount: int
    var reconnectAttempts: nat
    var pingTimer: Option<PingTimer>
    var liveTimers: set<nat>
    var nextHandle: nat
    /** The identity the current socket was created with (captured by its `connect` handler). */
    var socketAuth: UserInfo
    var outbox: seq<Outbound>
    const limiter: RateLimiter

    function View(): Session
      reads this
    {
      Session(hasSocket, isConnected, currentRoom, connectionStatus, users, messages,
              notifications, unreadCount, reconnectAttempts, pingTimer, liveTimers, nextHandle,
              socketAuth, outbox)
    }

    /** Exactly the ping timer is running, and its handle was never handed out again. */
    ghost predicate TimersConsistent()
      reads this
    {
      && liveTimers == (if pingTimer.Some? then {pingTimer.value.handle} else {})
      && (pingTimer.Some? ==> pingTimer.value.handle < nextHandle)
    }

    /**
     * The session invariant: bounded buffers, a non-negative unread count, at
     * most one ping timer, which exists exactly while a room is current and
     * pings that room, and one presence record per user.
     */
    ghost predicate Valid()
      reads this
    {
      && |messages| <= MaxMessages
      && |notifications| <= MaxNotifications
      && unreadCount >= 0
      && TimersConsistent()
      && (pingTimer.Some? <==> currentRoom.Some?)
      && (pingTimer.Some? ==> pingTimer.value.roomId == currentRoom.value)
      && (connectionStatus == Disconnected ==> !isConnected)
      && DistinctUsers(users)
    }

    lemma AtMostOnePingTimer()
      requires Valid()
      ensures |liveTimers| <= 1
    {
    }

    constructor ()
      ensures Valid() && fresh(limiter) && limiter.State() == Fresh
      ensures !hasSocket && !isConnected && currentRoom.None? && connectionStatus == Disconnected
      ensures users == [] && messages == [] && notifications == [] && unreadCount == 0
      ensures reconnectAttempts == 0 && pingTimer.None? && liveTimers == {} && outbox == []
    {
      hasSocket, isConnected, currentRoom, connectionStatus := false, false, None, Disconnected;
      users, messages, notifications, unreadCount := [], [], [], 0;
      reconnectAttempts, pingTimer, liveTimers, nextHandle := 0, None, {}, 0;
      socketAuth := UserInfo("", "Anonymous", "");
      outbox := [];
      limiter := new RateLimiter();
    }

    // ---------------------------------------------------------------- timers

    /** `startPing`: clears any running ping interval, then starts one for `roomId`. */
    method StartPing(roomId: string)
      requires TimersConsistent()
      modifies this
      ensures TimersConsistent()
      ensures pingTimer == Some(PingTimer(old(nextHandle), roomId))
      ensures liveTimers == {old(nextHandle)}
      ensures old(pingTimer).Some? ==> old(pingTimer).value.handle !in liveTimers
      ensures View() == old(View()).(pingTimer := pingTimer, liveTimers := liveTimers,
                                     nextHandle := old(nextHandle) + 1)
    {
      if pingTimer.Some? {
        liveTimers := liveTimers - {pingTimer.value.handle};
      }
      pingTimer := Some(PingTimer(nextHandle, roomId));
      liveTimers := liveTimers + {nextHandle};
      nextHandle := nextHandle + 1;
    }

    /** `stopPing`: clears the ping interval if there is one. */
    method StopPing()
      requires TimersConsistent()
      modifies this
      ensures TimersConsistent()
      ensures pingTimer.None? && liveTimers == {}
      ensures View() == old(View()).(pingTimer := None, liveTimers := {})
    {
      if pingTimer.Some? {
        liveTimers := liveTimers - {pingTimer.value.handle};
        pingTimer := None;
      }
    }

    /** One firing of the ping interval: pings its room while a socket is connected. */
    method PingTick(stored: StoredSession, now: nat)
      requires Valid()
      modifies this
      ensures Valid()
      ensures var u := GetUserInfo(stored);
              outbox == old(outbox) +
                (if pingTimer.Some? && hasSocket && isConnected && pingTimer.value.roomId != ""
                 then [ViewerPing(pingTimer.value.roomId, u.userId, u.username, At(now))] else [])
      ensures View() == old(View()).(outbox := outbox)
    {
      if pingTimer.Some? && hasSocket && isConnected && pingTimer.value.roomId != "" {
        var u := GetUserInfo(stored);
        outbox := outbox + [ViewerPing(pingTimer.value.roomId, u.userId, u.username, At(now))];
      }
    }

    // ------------------------------------------------------ connection lifecycle

    /** `initializeSocket`: without a token nothing happens; otherwise a connection is opened. */
    method InitializeSocket(stored: StoredSession)
      requires Valid()
      modifies this
      ensures Valid()
      ensures var u := GetUserInfo(stored);
              if u.accessToken == "" then View() == old(View())
              else View() == old(View()).(connectionStatus := Connecting, hasSocket := true,
                                          socketAuth := u,
                                          outbox := old(outbox) + [CreateTransport(u.accessToken, u.userId)])
    {
      var u := GetUserInfo(stored);
      if u.accessToken == "" {
        return;
      }
      connectionStatus := Connecting;
      hasSocket := true;
      socketAuth := u;
      outbox := outbox + [CreateTransport(u.accessToken, u.userId)];
    }

    /** `reconnect`: reopens the existing socket, or initialises one. */
    method Reconnect(stored: StoredSession)
      requires Valid()
      modifies this
      ensures Valid()
      ensures old(hasSocket) ==> View() == old(View()).(outbox := old(outbox) + [ConnectTransport])
      ensures !old(hasSocket) && stored.accessToken != "" ==>
                View() == old(View()).(connectionStatus := Connecting, hasSocket := true,
                                       socketAuth := GetUserInfo(stored),
                                       outbox := old(outbox) +
                                         [CreateTransport(stored.accessToken, GetUserInfo(stored).userId)])
      ensures !old(hasSocket) && stored.accessToken == "" ==> View() == old(View())
    {
      if hasSocket {
        outbox := outbox + [ConnectTransport];
      } else {
        InitializeSocket(stored);
      }
    }

    /**
     * `disconnect`: closes the socket if any, stops pinging, forgets the room
     * and the presence list; messages and notifications stay.
     */
    method Disconnect()
      requires Valid()
      modifies this
      ensures Valid()
      ensures View() == old(View()).(
                hasSocket := false, isConnected := false, connectionStatus := Disconnected,
                currentRoom := None, users := [], pingTimer := None, liveTimers := {},
                outbox := old(outbox) + (if old(hasSocket) then [CloseTransport] else []))
    {
      if hasSocket {
        outbox := outbox + [CloseTransport];
      }
      StopPing();
      ghost var stopped := View();
      hasSocket := false;
      isConnected := false;
      connectionStatus := Disconnected;
      currentRoom := None;
      users := [];
      assert View() == stopped.(hasSocket := false, isConnected := false, connectionStatus := Disconnected,
                                currentRoom := None, users := []);
    }

    /** The `connect` event: connected, attempts reset, and the authentication handshake sent. */
    method OnConnect(now: nat)
      requires Valid()
      modifies this
      ensures Valid()
      ensures View() == old(View()).(
                isConnected := true, connectionStatus := Connected, reconnectAttempts := 0,
                outbox := old(outbox) + [Authenticate(socketAuth.accessToken, socketAuth.userId, At(now))])
    {
      isConnected := true;
      connectionStatus := Connected;
      reconnectAttempts := 0;
      outbox := outbox + [Authenticate(socketAuth.accessToken, socketAuth.userId, At(now))];
    }

    /** The `disconnect` event, whatever its reason: disconnected, no room, no ping. */
    method OnDisconnect()
      requires Valid()
      modifies this
      ensures Valid()
      ensures View() == old(View()).(
                isConnected := false, connectionStatus := Disconnected, currentRoom := None,
                pingTimer := None, liveTimers := {})
    {
      isConnected := false;
      connectionStatus := Disconnected;
      currentRoom := None;
      StopPing();
    }

    /** The `connect_error` event. */
    method OnConnectError()
      requires Valid()
      modifies this
      ensures Valid()
      ensures View() == old(View()).(connectionStatus := Error)
    {
      connectionStatus := Error;
    }

    /** The `reconnect_error` event: counts the attempt, and gives up at the fifth. */
    method OnReconnectError()
      requires Valid()
      modifies this
      ensures Valid()
      ensures reconnectAttempts == old(reconnectAttempts) + 1
      ensures connectionStatus ==
                if reconnectAttempts >= MaxReconnectAttempts then Error else old(connectionStatus)
      ensures View() == old(View()).(reconnectAttempts := reconnectAttempts,
                                     connectionStatus := connectionStatus)
    {
      reconnectAttempts := reconnectAttempts + 1;
      if reconnectAttempts >= MaxReconnectAttempts {
        connectionStatus := Error;
      }
    }

    /** The `authFailed` event: the status becomes an error, the connection flag stays. */
    method OnAuthFailed()
      requires Valid()
      modifies this
      ensures Valid()
      ensures View() == old(View()).(connectionStatus := Error)
    {
      connectionStatus := Error;
    }

    // ------------------------------------------------------------ room events

    /** The `joinedRoom` event: the only place the current room is set; pinging it starts. */
    method OnJoinedRoom(roomId: string)
      requires Valid()
      modifies this
      ensures Valid()
      ensures currentRoom == Some(roomId)
      ensures pingTimer == Some(PingTimer(old(nextHandle), roomId)) && liveTimers == {old(nextHandle)}
      ensures View() == old(View()).(currentRoom := Some(roomId), pingTimer := pingTimer,
                                     liveTimers := liveTimers, nextHandle := old(nextHandle) + 1)
    {
      currentRoom := Some(roomId);
      StartPing(roomId);
    }

    /** The `userJoined` event. */
    method OnUserJoined(data: UserPatch)
      requires Valid()
      modifies this
      ensures Valid()
      ensures View() == old(View()).(users := UpsertUser(old(users), data))
    {
      users := UpsertUser(users, data);
    }

    /** The `userLeft` event. */
    method OnUserLeft(userId: string, now: nat)
      requires Valid()
      modifies this
      ensures Valid()
      ensures View() == old(View()).(users := MarkOffline(old(users), userId, At(now)))
    {
      users := MarkOffline(users, userId, At(now));
    }

    // --------------------------------------------------- message and gift events

    /** The `newMessage` event: appended, keeping the last hundred. */
    method OnNewMessage(data: IncomingMessage, now: nat)
      requires Valid()
      modifies this
      ensures Valid()
      ensures View() == old(View()).(messages := KeepLast(old(messages) + [MessageFrom(data, now)], MaxMessages))
    {
      messages := KeepLast(messages + [MessageFrom(data, now)], MaxMessages);
    }

    /** The `newGift` event: a system line appended to the same buffer. */
    method OnNewGift(data: IncomingGift, now: nat)
      requires Valid()
      modifies this
      ensures Valid()
      ensures View() == old(View()).(messages := KeepLast(old(messages) + [GiftMessage(data, now)], MaxMessages))
    {
      messages := KeepLast(messages + [GiftMessage(data, now)], MaxMessages);
    }

    // ----------------------------------------------------- notification events

    /** The `notification` event: prepended, keeping the first fifty, one more unread. */
    method OnNotification(data: IncomingNotification, now: nat)
      requires Valid()
      modifies this
      ensures Valid()
      ensures View() == old(View()).(
                notifications := KeepFirst([NotificationFrom(data, now)] + old(notifications), MaxNotifications),
                unreadCount := old(unreadCount) + 1)
    {
      notifications := KeepFirst([NotificationFrom(data, now)] + notifications, MaxNotifications);
      unreadCount := unreadCount + 1;
    }

    /** The `systemNotification` event. */
    method OnSystemNotification(data: IncomingNotification, now: nat)
      requires Valid()
      modifies this
      ensures Valid()
      ensures View() == old(View()).(
                notifications := KeepFirst([SystemNotificationFrom(data, now)] + old(notifications), MaxNotifications),
                unreadCount := old(unreadCount) + 1)
    {
      notifications := KeepFirst([SystemNotificationFrom(data, now)] + notifications, MaxNotifications);
      unreadCount := unreadCount + 1;
    }

    // ---------------------------------------------------------------- actions

    /**
     * `joinRoom`: refused without a connected socket, then refused for an
     * invalid id; otherwise emits the join request. The room is not set here.
     */
    method JoinRoomAction(roomId: string, userData: map<string, string>, stored: StoredSession)
      returns (r: Outcome)
      requires Valid()
      modifies this
      ensures Valid()
      ensures r == Done <==> old(hasSocket) && old(isConnected) && ValidateRoomId(roomId)
      ensures !(old(hasSocket) && old(isConnected)) ==> r == Refused(NotConnected)
      ensures old(hasSocket) && old(isConnected) && !ValidateRoomId(roomId) ==> r == Refused(InvalidRoomId)
      ensures old(connectionStatus) == Disconnected ==> r == Refused(NotConnected) && outbox == old(outbox)
      ensures View() == old(View()).(outbox := old(outbox) +
                (if r == Done then [JoinRoom(JoinPayload(roomId, GetUserInfo(stored), userData))] else []))
    {
      if !hasSocket || !isConnected {
        return Refused(NotConnected);
      }
      if !ValidateRoomId(roomId) {
        return Refused(InvalidRoomId);
      }
      outbox := outbox + [JoinRoom(JoinPayload(roomId, GetUserInfo(stored), userData))];
      return Done;
    }

    /**
     * `leaveRoom`: needs a socket and a non-empty room (the argument, else the
     * current one); emits the leave request, forgets the room at once and stops
     * pinging. The connection flag is not checked.
     */
    method LeaveRoomAction(roomId: Option<string>) returns (r: Outcome)
      requires Valid()
      modifies this
      ensures Valid()
      ensures var room := RoomArgument(roomId, old(currentRoom));
              && (r == Done <==> old(hasSocket) && room != "")
              && (r != Done ==> r == Refused(NoRoom) && View() == old(View()))
              && (r == Done ==> View() == old(View()).(
                    currentRoom := None, pingTimer := None, liveTimers := {},
                    outbox := old(outbox) + [LeaveRoom(room)]))
    {
      var room := RoomArgument(roomId, currentRoom);
      if !hasSocket || room == "" {
        return Refused(NoRoom);
      }
      outbox := outbox + [LeaveRoom(room)];
      currentRoom := None;
      StopPing();
      return Done;
    }

    /**
     * `sendMessage`, with its checks in order: socket, connection and room;
     * then the rate limiter (whose check may prune its window); then the
     * message validator. Only when all pass is the sanitised text emitted and
     * the send recorded.
     */
    method SendMessageAction(message: string, roomId: Option<string>, stored: StoredSession, now: nat)
      returns (r: Outcome)
      requires Valid()
      modifies this, limiter
      ensures Valid()
      ensures var room := RoomArgument(roomId, old(currentRoom));
              var ready := old(hasSocket) && old(isConnected) && room != "";
              var (checked, verdict) := Check(old(limiter.State()), now);
              var u := GetUserInfo(stored);
              && r == SendOutcome(ready, verdict, message)
              && (!ready ==> limiter.State() == old(limiter.State()))
              && (ready && r != Done ==> limiter.State() == checked)
              && (r == Done ==> limiter.State() == Record(checked, now))
              && View() == old(View()).(outbox := old(outbox) +
                   (if r == Done then [SendMessage(room, u.userId, u.username, SanitizeInput(message), At(now))]
                    else []))
    {
      var room := RoomArgument(roomId, currentRoom);
      if !hasSocket || !isConnected || room == "" {
        return Refused(CannotSend);
      }
      var verdict := limiter.CanSendMessage(now);
      if verdict == CooldownActive {
        return Refused(Cooldown);
      } else if verdict == RateLimitExceeded {
        return Refused(RateLimited);
      }
      var validation := ValidateMessage(message);
      if validation.Invalid? {
        return Refused(InvalidMessage(validation.reason));
      }
      var u := GetUserInfo(stored);
      outbox := outbox + [SendMessage(room, u.userId, u.username, SanitizeInput(message), At(now))];
      limiter.RecordMessage(now);
      return Done;
    }

    /** `sendImageMessage`: the same first check as `sendMessage`, and no other. */
    method SendImageMessageAction(imageUrl: string, roomId: Option<string>, stored: StoredSession, now: nat)
      returns (r: Outcome)
      requires Valid()
      modifies this
      ensures Valid()
      ensures var room := RoomArgument(roomId, old(currentRoom));
              var u := GetUserInfo(stored);
              && (r == Done <==> old(hasSocket) && old(isConnected) && room != "")
              && (r != Done ==> r == Refused(CannotSend))
              && View() == old(View()).(outbox := old(outbox) +
                   (if r == Done then [SendImageMessage(room, u.userId, u.username, imageUrl, At(now))] else []))
    {
      var room := RoomArgument(roomId, currentRoom);
      if !hasSocket || !isConnected || room == "" {
        return Refused(CannotSend);
      }
      var u := GetUserInfo(stored);
      outbox := outbox + [SendImageMessage(room, u.userId, u.username, imageUrl, At(now))];
      return Done;
    }

    /**
     * `sendGift`: needs a connected socket and a current room; the room and the
     * sender in the payload are always the session's own.
     */
    method SendGiftAction(gift: GiftData, stored: StoredSession, now: nat) returns (r: Outcome)
      requires Valid()
      modifies this
      ensures Valid()
      ensures var u := GetUserInfo(stored);
              && (r == Done <==> old(hasSocket) && old(isConnected) &&
                                 old(currentRoom).Some? && old(currentRoom).value != "")
              && (r != Done ==> r == Refused(CannotSend))
              && View() == old(View()).(outbox := old(outbox) +
                   (if r == Done
                    then [SendGift(gift.(roomId := old(currentRoom).value, senderId := u.userId,
                                         senderName := u.username), At(now))]
                    else []))
    {
      if !hasSocket || !isConnected || currentRoom.None? || currentRoom.value == "" {
        return Refused(CannotSend);
      }
      var u := GetUserInfo(stored);
      outbox := outbox + [SendGift(gift.(roomId := currentRoom.value, senderId := u.userId,
                                          senderName := u.username), At(now))];
      return Done;
    }

    /** `chatWithAdmin`: needs only a connected socket; the text is sanitised, not validated. */
    method ChatWithAdminAction(message: string, supportType: Option<string>, stored: StoredSession, now: nat)
      returns (r: Outcome)
      requires Valid()
      modifies this
      ensures Valid()
      ensures var u := GetUserInfo(stored);
              && (r == Done <==> old(hasSocket) && old(isConnected))
              && (r != Done ==> r == Refused(CannotSend))
              && View() == old(View()).(outbox := old(outbox) +
                   (if r == Done
                    then [ChatWithAdmin(u.userId, u.username, SanitizeInput(message),
                                        supportType.GetOr("general"), At(now))]
                    else []))
    {
      if !hasSocket || !isConnected {
        return Refused(CannotSend);
      }
      var u := GetUserInfo(stored);
      outbox := outbox + [ChatWithAdmin(u.userId, u.username, SanitizeInput(message),
                                        supportType.GetOr("general"), At(now))];
      return Done;
    }

    // -------------------------------------------------------------- utilities

    method ClearMessages()
      requires Valid()
      modifies this
      ensures Valid()
      ensures View() == old(View()).(messages := [])
    {
      messages := [];
    }

    method ClearNotifications()
      requires Valid()
      modifies this
      ensures Valid()
      ensures View() == old(View()).(notifications := [], unreadCount := 0)
    {
      notifications := [];
      unreadCount := 0;
    }

    /** Marks matching entries read and lowers the counter by one, never below zero. */
    method MarkNotificationAsRead(notificationId: string)
      requires Valid()
      modifies this
      ensures Valid()
      ensures unreadCount == if old(unreadCount) >= 1 then old(unreadCount) - 1 else 0
      ensures View() == old(View()).(notifications := MarkRead(old(notifications), notificationId),
                                     unreadCount := unreadCount)
    {
      notifications := MarkRead(notifications, notificationId);
      unreadCount := if unreadCount - 1 > 0 then unreadCount - 1 else 0;
    }

    method MarkAllNotificationsAsRead()
      requires Valid()
      modifies this
      ensures Valid()
      ensures View() == old(View()).(notifications := MarkAllRead(old(notifications)), unreadCount := 0)
    {
      notifications := MarkAllRead(notifications);
      unreadCount := 0;
    }

    /** `getHealthStatus`: the counts it reports respect the buffer bounds. */
    function GetHealthStatus(): (h: HealthStatus)
      reads this
      requires Valid()
      ensures h.messagesCount <= MaxMessages && h.notificationsCount <= MaxNotifications
      ensures h.unreadCount >= 0
      ensures h.socket == isConnected && h.currentRoom == currentRoom
    {
      HealthStatus(isConnected, connectionStatus, currentRoom, |users|, |messages|,
                   |notifications|, unreadCount)
    }

    /** `getConnectionInfo` (the server URL is configuration and not modelled). */
    function GetConnectionInfo(): (c: ConnectionInfo)
      reads this
      ensures c.maxReconnectAttempts == MaxReconnectAttempts
      ensures c.isConnected == isConnected && c.reconnectAttempts == reconnectAttempts
    {
      ConnectionInfo(isConnected, connectionStatus, currentRoom, reconnectAttempts, MaxReconnectAttempts)
    }
  }
}
