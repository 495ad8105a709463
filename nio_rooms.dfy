/**
 * The room protocol of the selector-driven server as pure steps: the three
 * maps (channel to name, room to member channels, channel to current room),
 * the parse of one read into a `TYPE:DATA` command, the six handlers, the
 * room broadcast, disconnection and admission. Each step yields the new maps
 * and the plan of frames it writes.
 */
module NioRooms {
  import opened Wrappers
  import opened JavaText
  import opened NioFrames
  import Utf8

  /** `MAX_CLIENTS`. */
  const MaxClients: nat := 50
  /** The size of the buffer one read fills. */
  const ReadBufferSize: nat := 1024
  /** A chat message whose UTF-8 form is longer than this is refused. */
  const MaxMessageBytes: nat := 1024
  /** Frames starting with this are not echoed to their sender. */
  const SystemPrefix: string := "SYSTEM:"

  const AskName: string := "SYSTEM:введите ваше имя:"
  const UnknownCommand: string := "SYSTEM: неизвестная команда"
  const AlreadyRegistered: string := "SYSTEM: вы уже зарегистрированы"
  /** The notice CREATE and MESSAGE send to an unnamed channel. */
  const RegisterFirst: string := "SYSTEM: сначала зарегистрируйтесь"
  /** The notice JOIN sends to an unnamed channel: its first letter is a Latin "c". */
  const RegisterFirstToJoin: string := "SYSTEM: cначала зарегистрируйтесь"
  const RoomExists: string := "SYSTEM: комната уже существует"
  const NoSuchRoom: string := "SYSTEM: комната не существует"
  const EnterRoomFirst: string := "SYSTEM: сначала войдите в комнату"
  const MessageTooLong: string := "SYSTEM: сообщение слишком длинное"

  function Created(room: string): string { "SYSTEM: вы создали комнату: " + room }
  function YouAreIn(room: string): string { "SYSTEM: вы в комнате: " + room }
  function JoinedRoom(name: string): string { SystemPrefix + name + " присоединился к комнате" }
  function LeftRoom(name: string): string { SystemPrefix + name + " покинул комнату" }
  function Chat(name: string, message: string): string { "MESSAGE:[" + name + "] " + message }

  /** `clientNames`, `rooms` and `clientRooms`. */
  datatype ServerState = ServerState(names: map<Conn, string>, rooms: map<string, set<Conn>>, current: map<Conn, string>)

  const Initial: ServerState := ServerState(map[], map[], map[])

  /** A step's new maps and the frames it writes. */
  datatype Outcome = Outcome(state: ServerState, sends: seq<Send>)

  /** `clientNames.get(c)` concatenated into a string: "null" for an unnamed channel. */
  function NameOf(s: ServerState, c: Conn): string
  {
    if c in s.names then s.names[c] else "null"
  }

  /** `rooms.get(room)`, with no members when there is no such room. */
  function Members(s: ServerState, room: string): set<Conn>
  {
    if room in s.rooms then s.rooms[room] else {}
  }

  /**
   * The maps agree with each other: a channel with a current room is named,
   * that room exists and lists it, and every member of a room has that room
   * as its current one.
   */
  predicate Consistent(s: ServerState)
  {
    && (forall c :: c in s.current ==> c in s.names && s.current[c] in s.rooms && c in s.rooms[s.current[c]])
    && (forall r, c :: r in s.rooms && c in s.rooms[r] ==> c in s.current && s.current[c] == r)
  }

  /** Each room with the size of its member set, as `sendRoomList` reports them. */
  function Counts(rooms: map<string, set<Conn>>): map<string, nat>
  {
    map r | r in rooms :: |rooms[r]|
  }

  /** `sendRoomList(c)`. */
  function RoomListTo(s: ServerState, c: Conn): Send
  {
    Send(Listing(Counts(s.rooms)), {c})
  }

  /**
   * `broadcastToRoom(text, room, sender)`: the room's members other than the
   * sender, then the sender itself unless `text` is a `SYSTEM:` frame.
   */
  function RoomBroadcast(s: ServerState, text: string, room: string, sender: Option<Conn>): (r: seq<Send>)
    ensures forall i :: 0 <= i < |r| ==> r[i].frame == Text(text)
    ensures forall i :: 0 <= i < |r| ==> r[i].to <= Members(s, room) + (if sender.Some? then {sender.value} else {})
  {
    var others := if sender.Some? then Members(s, room) - {sender.value} else Members(s, room);
    [Send(Text(text), others)]
    + if sender.Some? && !StartsWith(text, SystemPrefix) then [Notify(sender.value, text)] else []
  }

  /** `handleName`: only `clientNames` changes, and afterwards `c` is named. */
  function Name(s: ServerState, c: Conn, name: string): (o: Outcome)
    ensures o.state.rooms == s.rooms && o.state.current == s.current
    ensures o.state.names.Keys == s.names.Keys + {c}
  {
    if c in s.names then Outcome(s, [Notify(c, AlreadyRegistered)])
    else
      var t := s.(names := s.names[c := name]);
      Outcome(t, [RoomListTo(t, c)])
  }

  /** `handleCreate`: only `rooms` changes, and no existing room's members change. */
  function Create(s: ServerState, c: Conn, room: string): (o: Outcome)
    ensures o.state.names == s.names && o.state.current == s.current
    ensures forall r :: r in s.rooms ==> r in o.state.rooms && o.state.rooms[r] == s.rooms[r]
  {
    if c !in s.names then Outcome(s, [Notify(c, RegisterFirst)])
    else if room in s.rooms then Outcome(s, [Notify(c, RoomExists)])
    else
      var t := s.(rooms := s.rooms[room := {}]);
      Outcome(t, [Notify(c, Created(room)), RoomListTo(t, c)])
  }

  /**
   * `handleLeave`: nothing unless `c` has a current room; otherwise `c`
   * leaves its member set and its current room, and the remaining members
   * are told. The room always exists in a consistent state; were it missing,
   * Java would fail on a null set, which is not modelled.
   */
  function Leave(s: ServerState, c: Conn): (o: Outcome)
    ensures o.state.names == s.names && o.state.rooms.Keys == s.rooms.Keys
  {
    if c !in s.current then Outcome(s, [])
    else
      var room := s.current[c];
      var rooms := if room in s.rooms then s.rooms[room := s.rooms[room] - {c}] else s.rooms;
      var t := s.(rooms := rooms, current := s.current - {c});
      Outcome(t, RoomBroadcast(t, LeftRoom(NameOf(s, c)), room, None))
  }

  /** `handleJoin`: leave the current room, if any, then enter `room`. */
  function Join(s: ServerState, c: Conn, room: string): (o: Outcome)
    ensures o.state.names == s.names && o.state.rooms.Keys == s.rooms.Keys
  {
    if c !in s.names then Outcome(s, [Notify(c, RegisterFirstToJoin)])
    else if room !in s.rooms then Outcome(s, [Notify(c, NoSuchRoom)])
    else
      var left := Leave(s, c);
      var u := left.state;
      var t := u.(rooms := u.rooms[room := u.rooms[room] + {c}], current := u.current[c := room]);
      Outcome(t, left.sends + RoomBroadcast(t, JoinedRoom(NameOf(t, c)), room, Some(c)) + [Notify(c, YouAreIn(room))])
  }

  /** `handleMessage`: the checks in order, then the room broadcast. */
  function Message(s: ServerState, c: Conn, message: string): (o: Outcome)
    ensures o.state == s
  {
    if c !in s.names then Outcome(s, [Notify(c, RegisterFirst)])
    else if c !in s.current then Outcome(s, [Notify(c, EnterRoomFirst)])
    else if message == [] then Outcome(s, [])
    else if Utf8.Length(message) > MaxMessageBytes then Outcome(s, [Notify(c, MessageTooLong)])
    else Outcome(s, RoomBroadcast(s, Chat(s.names[c], message), s.current[c], Some(c)))
  }

  /** `handleList`: works for a channel that has no name yet, too. */
  function List(s: ServerState, c: Conn): (o: Outcome)
    ensures o.state == s && |o.sends| == 1 && o.sends[0].to == {c}
  {
    Outcome(s, [RoomListTo(s, c)])
  }

  /** The `switch` on the command type. */
  function Command(s: ServerState, c: Conn, kind: string, data: string): Outcome
  {
    if kind == "NAME" then Name(s, c, data)
    else if kind == "CREATE" then Create(s, c, data)
    else if kind == "JOIN" then Join(s, c, data)
    else if kind == "LEAVE" then Leave(s, c)
    else if kind == "MESSAGE" then Message(s, c, data)
    else if kind == "LIST" then List(s, c)
    else Outcome(s, [Notify(c, UnknownCommand)])
  }

  /** The parse of a trimmed read: a command only when the text holds a colon. */
  function Dispatch(s: ServerState, c: Conn, text: string): Outcome
  {
    match SplitOnce(text)
    case None => Outcome(s, [])
    case Some((kind, data)) => Command(s, c, kind, data)
  }

  /** `disconnectClient`: leave the room, then forget the name and the current room. */
  function Disconnect(s: ServerState, c: Conn): (o: Outcome)
    ensures o.state.names == s.names - {c} && c !in o.state.current
    ensures o.state.rooms.Keys == s.rooms.Keys
  {
    var left := Leave(s, c);
    Outcome(left.state.(names := left.state.names - {c}, current := left.state.current - {c}), left.sends)
  }

  /** What one read on a client channel returned. */
  datatype ReadResult =
    | EndOfStream              // `read` returned -1
    | ReadFailed               // `read` threw an IOException
    | Bytes(data: seq<Utf8.Byte>)

  /** `processMessage`: one read is one command; an empty read does nothing. */
  function Process(s: ServerState, c: Conn, read: ReadResult): Outcome
  {
    match read
    case EndOfStream => Disconnect(s, c)
    case ReadFailed => Disconnect(s, c)
    case Bytes(data) => if data == [] then Outcome(s, []) else Dispatch(s, c, Trim(Utf8.Decode(data)))
  }

  /**
   * The admission check of `registerNewChannel`: a refused channel is closed
   * with nothing written; an admitted one is asked for its name. Neither
   * enters any map.
   */
  function Accept(s: ServerState, c: Conn): (o: Outcome)
    ensures o.state == s
  {
    if |s.names| > MaxClients then Outcome(s, []) else Outcome(s, [Notify(c, AskName)])
  }
}
