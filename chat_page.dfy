/**
 * The live-room state of the chat page (src/pages/ChatPage.tsx) with React
 * and socket.io stripped away: the message list, the presence counter, the
 * input buffer, the socket handle, and the events handed to the socket.
 */
module ChatPage {
  import opened JsText

  datatype Option<T> = None | Some(value: T)

  /** A possibly missing string as JavaScript's `!` sees it: missing
      (null or undefined) and the empty string are falsy. */
  predicate Present(o: Option<string>) {
    o.Some? && o.value != ""
  }

  /** One entry of the rendered list: `user` is the sender's id, `name` the
      sender's display name, `sentAt` an ISO date string. */
  datatype Message = Message(id: string, user: string, name: string, text: string, sentAt: string)

  /** What the server pushes on its `"server"` channel; `kind` is the
      payload's `type` tag. */
  datatype ServerPayload = ServerPayload(
    kind: string, id: string, roomId: string, userId: string,
    name: string, text: string, sentAt: string)

  /** One call of `socket.emit(channel, {type: kind, roomId, userId, text})`. */
  datatype Outbound = Outbound(channel: string, kind: string, roomId: string, userId: string, text: string)

  const NewMessageKind := "new_message"
  const SendMessageKind := "send_message"
  const ClientChannel := "client"
  const OptimisticPrefix := "optimistic-"
  const Anonymous := "Anonymous"

  /** The `"user"` entry of local storage as the page finds it: missing or
      empty, not parseable as a record, or a record whose `id` and
      `username` may each be missing. */
  datatype StoredUser = Absent | Unparsable | Parsed(id: Option<string>, username: Option<string>)

  /** The identity the page derives once, when it mounts. */
  datatype UserInfo = UserInfo(id: Option<string>, name: string)

  /** The `userInfo` initialiser: a parsed record gives its id and its
      username, falling back to "Anonymous" for a falsy username; anything
      else gives no id and the name "Anonymous". */
  function DeriveUserInfo(stored: StoredUser): (u: UserInfo)
    ensures u.name != ""
    ensures u.id == (if stored.Parsed? then stored.id else None)
    ensures stored.Parsed? && Present(stored.username) ==> u.name == stored.username.value
    ensures !(stored.Parsed? && Present(stored.username)) ==> u.name == Anonymous
  {
    match stored
    case Parsed(id, username) =>
      UserInfo(id, if Present(username) then username.value else Anonymous)
    case _ => UserInfo(None, Anonymous)
  }

  /** The entry a `new_message` payload becomes: the payload's `userId`
      becomes the entry's `user`, the other four fields keep their names,
      and the payload's `type` and `roomId` are dropped. */
  function ToMessage(p: ServerPayload): (m: Message)
    ensures m.id == p.id && m.user == p.userId && m.name == p.name
    ensures m.text == p.text && m.sentAt == p.sentAt
  {
    Message(p.id, p.userId, p.name, p.text, p.sentAt)
  }

  /** The `"server"` handler's update of the list: a `new_message` payload
      adds one entry, copied field by field, at the tail and keeps every
      earlier entry; any other payload type leaves the list as it was. */
  function AppendServer(prev: seq<Message>, p: ServerPayload): (next: seq<Message>)
    ensures p.kind == NewMessageKind ==>
      |next| == |prev| + 1 && next[..|prev|] == prev
      && next[|prev|] == Message(p.id, p.userId, p.name, p.text, p.sentAt)
    ensures p.kind != NewMessageKind ==> next == prev
  {
    if p.kind == NewMessageKind then prev + [ToMessage(p)] else prev
  }

  /** The guard of `sendMessage`: the trimmed input is non-empty, a socket
      is held, and both the user id and the room id are present. Stated
      without `trim`, it refuses exactly the inputs made of nothing but
      whitespace and line terminators (the empty one included), a missing
      socket, and a missing or empty user or room id. */
  function CanSend(input: string, hasSocket: bool, user: UserInfo, roomId: Option<string>): (ok: bool)
    ensures ok <==> !IsBlank(input) && hasSocket && Present(user.id) && Present(roomId)
  {
    Trim(input) != "" && hasSocket && Present(user.id) && Present(roomId)
  }

  /** The provisional id `optimistic-${Date.now()}`: the prefix followed
      by digits that read back as the clock value. */
  function OptimisticId(nowMs: nat): (id: string)
    ensures |id| > |OptimisticPrefix| && id[..|OptimisticPrefix|] == OptimisticPrefix
    ensures var digits := id[|OptimisticPrefix|..];
      (forall i :: 0 <= i < |digits| ==> IsDigit(digits[i])) && DecimalValue(digits) == nowMs
  {
    DecimalRoundTrip(nowMs);
    var id := OptimisticPrefix + Decimal(nowMs);
    assert id[|OptimisticPrefix|..] == Decimal(nowMs);
    id
  }

  /** Two sends in different milliseconds get different provisional ids
      (two in the same millisecond get the same one). */
  lemma OptimisticIdsDistinct(a: nat, b: nat)
    requires a != b
    ensures OptimisticId(a) != OptimisticId(b)
  {
    DecimalInjective(a, b);
    var n := |OptimisticPrefix|;
    assert OptimisticId(a)[n..] == Decimal(a);
    assert OptimisticId(b)[n..] == Decimal(b);
  }

  /** The entry `sendMessage` shows before the server has seen it: raw,
      untrimmed text, the local identity, the clock readings it was given. */
  function Optimistic(user: UserInfo, text: string, nowMs: nat, nowIso: string): (m: Message)
    requires Present(user.id)
    ensures OptimisticPrefix <= m.id && m.id[|OptimisticPrefix|..] == Decimal(nowMs)
    ensures m.user == user.id.value && m.user != "" && m.name == user.name
    ensures m.text == text && m.sentAt == nowIso
  {
    Message(OptimisticId(nowMs), user.id.value, user.name, text, nowIso)
  }

  /** The outbound event of `sendMessage`: a `send_message` on the
      `client` channel carrying the room, the sender and the text as given. */
  function SendEvent(roomId: string, userId: string, text: string): (e: Outbound)
    ensures e.channel == ClientChannel && e.kind == SendMessageKind
    ensures e.roomId == roomId && e.userId == userId && e.text == text
  {
    Outbound(ClientChannel, SendMessageKind, roomId, userId, text)
  }

  /** `socketRef.current`: no socket yet, or the socket opened with the
      query `{userId, roomId}`, which `disconnect` closes but leaves in
      the ref. */
  datatype SocketRef = NoSocket | Socket(userId: string, roomId: string, connected: bool)

  /** One observable effect of the page, in the order it happened. */
  datatype Effect = Appended(m: Message) | Emitted(e: Outbound) | CountSet(count: int)

  /** The list entries the effects add, in order. */
  function Appends(t: seq<Effect>): seq<Message> {
    if t == [] then []
    else (if t[0].Appended? then [t[0].m] else []) + Appends(t[1..])
  }

  /** The events the effects emit, in order. */
  function Emits(t: seq<Effect>): seq<Outbound> {
    if t == [] then []
    else (if t[0].Emitted? then [t[0].e] else []) + Emits(t[1..])
  }

  /** The count set by the most recent `CountSet`, or `init` if there is none. */
  function LastCount(t: seq<Effect>, init: int): int {
    if t == [] then init
    else if t[|t| - 1].CountSet? then t[|t| - 1].count
    else LastCount(t[..|t| - 1], init)
  }

  /** Every emit comes straight after the append of an entry with the
      same text by the same user. */
  predicate EmitsFollowAppends(t: seq<Effect>) {
    forall i :: 0 <= i < |t| && t[i].Emitted? ==>
      0 < i && t[i - 1].Appended?
      && t[i - 1].m.text == t[i].e.text && t[i - 1].m.user == t[i].e.userId
  }

  lemma {:induction false} AppendsSnoc(t: seq<Effect>, e: Effect)
    ensures Appends(t + [e]) == Appends(t) + (if e.Appended? then [e.m] else [])
  {
    if t != [] {
      assert (t + [e])[1..] == t[1..] + [e];
      AppendsSnoc(t[1..], e);
    }
  }

  lemma {:induction false} EmitsSnoc(t: seq<Effect>, e: Effect)
    ensures Emits(t + [e]) == Emits(t) + (if e.Emitted? then [e.e] else [])
  {
    if t != [] {
      assert (t + [e])[1..] == t[1..] + [e];
      EmitsSnoc(t[1..], e);
    }
  }

  /** Last write wins: after a count update, effects that set no count
      leave the count at that update's value. */
  lemma {:induction false} LastWriteWins(t: seq<Effect>, c: int, u: seq<Effect>, init: int)
    requires forall i :: 0 <= i < |u| ==> !u[i].CountSet?
    ensures LastCount(t + [CountSet(c)] + u, init) == c
    decreases |u|
  {
    var w := t + [CountSet(c)] + u;
    if u != [] {
      assert w[..|w| - 1] == t + [CountSet(c)] + u[..|u| - 1];
      LastWriteWins(t, c, u[..|u| - 1], init);
    }
  }

  /** Count updates never touch the list. */
  lemma {:induction false} CountUpdatesKeepMessages(t: seq<Effect>, u: seq<Effect>)
    requires forall i :: 0 <= i < |u| ==> u[i].CountSet?
    ensures Appends(t + u) == Appends(t)
    decreases |u|
  {
    if u != [] {
      var v, last := u[..|u| - 1], u[|u| - 1];
      assert t + u == (t + v) + [last];
      AppendsSnoc(t + v, last);
      assert !last.Appended?;
      CountUpdatesKeepMessages(t, v);
    } else {
      assert t + u == t;
    }
  }

  /** An emit right after the entry with the same text and author keeps
      every emit right after its entry. */
  lemma EmitAfterOptimisticKeepsOrder(t: seq<Effect>, e: Outbound)
    requires EmitsFollowAppends(t)
    requires t != [] && t[|t| - 1].Appended?
    requires t[|t| - 1].m.text == e.text && t[|t| - 1].m.user == e.userId
    ensures EmitsFollowAppends(t + [Emitted(e)])
  {
  }

  /** An effect other than an emit extends the list by what it appends,
      leaves the outbox alone, sets the count if it is a count update, and
      keeps every emit right after its entry. */
  lemma NonEmitStep(t: seq<Effect>, e: Effect)
    requires EmitsFollowAppends(t) && !e.Emitted?
    ensures Appends(t + [e]) == Appends(t) + (if e.Appended? then [e.m] else [])
    ensures Emits(t + [e]) == Emits(t)
    ensures LastCount(t + [e], 0) == if e.CountSet? then e.count else LastCount(t, 0)
    ensures EmitsFollowAppends(t + [e])
  {
    AppendsSnoc(t, e);
    EmitsSnoc(t, e);
    assert (t + [e])[..|t|] == t;
  }

  /** A page never emits more events than it has appended entries: each
      emit is paid for by the entry appended right before it. */
  lemma {:induction false} EmitsBoundedByAppends(t: seq<Effect>)
    requires EmitsFollowAppends(t)
    ensures |Emits(t)| <= |Appends(t)|
    decreases |t|
  {
    if t != [] {
      var init := t[..|t| - 1];
      var last := t[|t| - 1];
      assert t == init + [last];
      AppendsSnoc(init, last);
      EmitsSnoc(init, last);
      if last.Emitted? {
        var before := init[..|init| - 1];
        assert init == before + [init[|init| - 1]];
        AppendsSnoc(before, init[|init| - 1]);
        EmitsSnoc(before, init[|init| - 1]);
        assert forall i :: 0 <= i < |before| ==> before[i] == t[i];
        EmitsBoundedByAppends(before);
      } else {
        assert forall i :: 0 <= i < |init| ==> init[i] == t[i];
        EmitsBoundedByAppends(init);
      }
    }
  }

  /** One mounted chat page. `roomId` comes from the route and `userInfo`
      is derived once at mount; the rest is the state the handlers change.
      `trace` records the effects so far, in order. */
  class Room {
    const roomId: Option<string>
    const userInfo: UserInfo
    var messages: seq<Message>
    var input: string
    var usersConnected: int
    var socket: SocketRef
    var outbox: seq<Outbound>
    ghost var trace: seq<Effect>

    /** The list and the outbox are what the effects appended and emitted,
        the count is the last one set (0 before any), every emit follows
        the entry it sends, nothing is emitted without a socket, and a
        socket is only ever opened for a present user id and room id. */
    ghost predicate Valid()
      reads this
    {
      messages == Appends(trace) && outbox == Emits(trace)
      && usersConnected == LastCount(trace, 0)
      && EmitsFollowAppends(trace)
      && (outbox != [] ==> socket.Socket?)
      && (socket.Socket? ==>
            Present(userInfo.id) && Present(roomId)
            && socket.userId == userInfo.id.value && socket.roomId == roomId.value)
    }

    /** Mounting the page: empty list, empty input, no users counted, no socket. */
    constructor (roomId: Option<string>, stored: StoredUser)
      ensures Valid()
      ensures this.roomId == roomId && userInfo == DeriveUserInfo(stored)
      ensures messages == [] && input == "" && usersConnected == 0
      ensures socket == NoSocket && outbox == [] && trace == []
    {
      this.roomId := roomId;
      userInfo := DeriveUserInfo(stored);
      messages := [];
      input := "";
      usersConnected := 0;
      socket := NoSocket;
      outbox := [];
      trace := [];
    }

    /** The connection effect: opens a socket with the query `{userId,
        roomId}` only when both are present, and otherwise does nothing. */
    method Connect()
      requires Valid()
      modifies this
      ensures Valid()
      ensures socket == if Present(userInfo.id) && Present(roomId)
                        then Socket(userInfo.id.value, roomId.value, true)
                        else old(socket)
      ensures messages == old(messages) && input == old(input)
      ensures usersConnected == old(usersConnected) && outbox == old(outbox) && trace == old(trace)
    {
      if !Present(userInfo.id) || !Present(roomId) {
        return;
      }
      socket := Socket(userInfo.id.value, roomId.value, true);
    }

    /** The effect's cleanup: disconnects the socket, which stays in the
        ref; a second call changes nothing more. */
    method Teardown()
      requires Valid()
      modifies this
      ensures Valid()
      ensures socket == if old(socket).Socket? then old(socket).(connected := false) else NoSocket
      ensures messages == old(messages) && input == old(input)
      ensures usersConnected == old(usersConnected) && outbox == old(outbox) && trace == old(trace)
    {
      if socket.Socket? {
        socket := socket.(connected := false);
      }
    }

    /** The `"server"` listener, which runs only while the socket the
        connection effect opened is connected: a `new_message` payload is
        appended, whoever sent it; every other payload type is ignored. */
    method OnServer(p: ServerPayload)
      requires Valid() && socket.Socket? && socket.connected
      modifies this
      ensures Valid()
      ensures messages == AppendServer(old(messages), p)
      ensures trace == old(trace) + (if p.kind == NewMessageKind then [Appended(ToMessage(p))] else [])
      ensures input == old(input) && usersConnected == old(usersConnected)
      ensures socket == old(socket) && outbox == old(outbox)
    {
      if p.kind == NewMessageKind {
        var newMessage := ToMessage(p);
        AppendEntry(newMessage);
      }
    }

    /** The `"user_count_update"` listener, which runs only while the socket
        is connected: the count becomes the pushed value, whatever it was
        before, and nothing else changes. */
    method OnUserCountUpdate(count: int)
      requires Valid() && socket.Socket? && socket.connected
      modifies this
      ensures Valid()
      ensures usersConnected == count && trace == old(trace) + [CountSet(count)]
      ensures messages == old(messages) && input == old(input)
      ensures socket == old(socket) && outbox == old(outbox)
    {
      NonEmitStep(trace, CountSet(count));
      usersConnected := count;
      trace := trace + [CountSet(count)];
    }

    /** `setInput`: the input field's change handler puts what was typed in
        the buffer, and `sendMessage` empties it. */
    method Edit(value: string)
      requires Valid()
      modifies this
      ensures Valid()
      ensures input == value
      ensures messages == old(messages) && usersConnected == old(usersConnected)
      ensures socket == old(socket) && outbox == old(outbox) && trace == old(trace)
    {
      input := value;
    }

    /** `setMessages((prev) => [...prev, m])`: one entry at the tail. */
    method AppendEntry(m: Message)
      requires Valid()
      modifies this
      ensures Valid()
      ensures messages == old(messages) + [m] && trace == old(trace) + [Appended(m)]
      ensures input == old(input) && usersConnected == old(usersConnected)
      ensures socket == old(socket) && outbox == old(outbox)
    {
      NonEmitStep(trace, Appended(m));
      messages := messages + [m];
      trace := trace + [Appended(m)];
    }

    /** `socket.emit`: allowed only straight after the entry with the same
        text and author. */
    method Emit(e: Outbound)
      requires Valid() && socket.Socket?
      requires trace != [] && trace[|trace| - 1].Appended?
      requires trace[|trace| - 1].m.text == e.text && trace[|trace| - 1].m.user == e.userId
      modifies this
      ensures Valid()
      ensures outbox == old(outbox) + [e] && trace == old(trace) + [Emitted(e)]
      ensures messages == old(messages) && input == old(input)
      ensures usersConnected == old(usersConnected) && socket == old(socket)
    {
      AppendsSnoc(trace, Emitted(e));
      EmitsSnoc(trace, Emitted(e));
      EmitAfterOptimisticKeepsOrder(trace, e);
      outbox := outbox + [e];
      trace := trace + [Emitted(e)];
    }

    /** The body of `sendMessage` past its guard: the optimistic entry,
        then the emit, then clearing the input. */
    method SendUnchecked(nowMs: nat, nowIso: string)
      requires Valid() && socket.Socket? && Present(userInfo.id) && Present(roomId)
      modifies this
      ensures Valid()
      ensures var m := Optimistic(userInfo, old(input), nowMs, nowIso);
        var e := SendEvent(roomId.value, userInfo.id.value, old(input));
        messages == old(messages) + [m] && outbox == old(outbox) + [e]
        && trace == old(trace) + [Appended(m), Emitted(e)]
      ensures input == "" && usersConnected == old(usersConnected) && socket == old(socket)
    {
      ghost var before := trace;
      var text := input;
      var optimisticMessage := Optimistic(userInfo, text, nowMs, nowIso);
      AppendEntry(optimisticMessage);
      var event := SendEvent(roomId.value, userInfo.id.value, text);
      Emit(event);
      assert trace == before + [Appended(optimisticMessage), Emitted(event)];
      Edit("");
    }

    /** `sendMessage`, given the two clock readings it takes. When the guard
        refuses, nothing changes. Otherwise it appends one optimistic entry
        with the raw input, then emits one `send_message` event with the
        same text, then clears the input. */
    method SendMessage(nowMs: nat, nowIso: string)
      requires Valid()
      modifies this
      ensures Valid()
      ensures CanSend(old(input), socket.Socket?, userInfo, roomId) ==>
        var m := Optimistic(userInfo, old(input), nowMs, nowIso);
        var e := SendEvent(roomId.value, userInfo.id.value, old(input));
        messages == old(messages) + [m] && outbox == old(outbox) + [e]
        && trace == old(trace) + [Appended(m), Emitted(e)]
        && input == ""
      ensures !CanSend(old(input), socket.Socket?, userInfo, roomId) ==>
        messages == old(messages) && outbox == old(outbox)
        && trace == old(trace) && input == old(input)
      ensures usersConnected == old(usersConnected) && socket == old(socket)
    {
      if !CanSend(input, socket.Socket?, userInfo, roomId) {
        return;
      }
      SendUnchecked(nowMs, nowIso);
    }
  }

  /** There is no authorship filter: in a connected room, a `new_message`
      whose sender is the local user is appended like any other, as one
      more entry at the tail carrying the local user's id. */
  method ReceiveOwnMessage(room: Room, p: ServerPayload)
    requires room.Valid() && room.socket.Socket? && room.socket.connected
    requires p.kind == NewMessageKind && room.userInfo.id == Some(p.userId)
    modifies room
    ensures room.Valid()
    ensures room.messages == old(room.messages) + [ToMessage(p)]
    ensures room.messages[|room.messages| - 1].user == room.userInfo.id.value
  {
    room.OnServer(p);
  }
}
