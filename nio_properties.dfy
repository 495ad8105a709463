/**
 * What the room protocol guarantees: the parse, the outcome of each handler,
 * who receives what, the consistency of the three maps, and the limits.
 */
module NioRoomProperties {
  import opened Wrappers
  import opened JavaText
  import opened NioFrames
  import opened NioRooms
  import Utf8

  /**
   * A room broadcast reaches every member of the room other than the sender
   * once, and the sender once unless the text is a `SYSTEM:` frame.
   */
  lemma BroadcastReaches(s: ServerState, text: string, room: string, sender: Option<Conn>, x: Conn)
    ensures PlannedFor(RoomBroadcast(s, text, room, sender), x) ==
              if (x in Members(s, room) && sender != Some(x)) || (sender == Some(x) && !StartsWith(text, SystemPrefix))
              then [Text(text)] else []
  {
    var others := if sender.Some? then Members(s, room) - {sender.value} else Members(s, room);
    var echo := if sender.Some? && !StartsWith(text, SystemPrefix) then [Notify(sender.value, text)] else [];
    PlannedForAppend([Send(Text(text), others)], echo, x);
    PlannedForSend(Text(text), others, x);
    if echo != [] {
      PlannedForSend(Text(text), {sender.value}, x);
    }
  }

  /** A `SYSTEM:` broadcast never reaches its own sender. */
  lemma SystemNotEchoed(s: ServerState, text: string, room: string, c: Conn)
    requires StartsWith(text, SystemPrefix)
    ensures PlannedFor(RoomBroadcast(s, text, room, Some(c)), c) == []
  {
    BroadcastReaches(s, text, room, Some(c), c);
  }

  /** A read whose trimmed text has no colon changes no map and writes nothing. */
  lemma NoColonNoCommand(s: ServerState, c: Conn, text: string)
    requires ':' !in text
    ensures Dispatch(s, c, text) == Outcome(s, [])
  {
  }

  /** Otherwise the type is what precedes the first colon, and the data all that follows it, possibly nothing. */
  lemma CommandAtFirstColon(s: ServerState, c: Conn, kind: string, data: string)
    requires ':' !in kind
    ensures Dispatch(s, c, kind + ":" + data) == Command(s, c, kind, data)
  {
    SplitJoin(kind, data);
  }

  /** An unknown type gets one notice to the sender and changes nothing. */
  lemma UnknownCommandNotice(s: ServerState, c: Conn, kind: string, data: string)
    requires kind !in {"NAME", "CREATE", "JOIN", "LEAVE", "MESSAGE", "LIST"}
    ensures Command(s, c, kind, data) == Outcome(s, [Notify(c, UnknownCommand)])
  {
  }

  /**
   * NAME on a named channel changes nothing and sends one notice; otherwise
   * the name is stored, whatever other channels are called, and only this
   * channel receives a room list.
   */
  lemma NameOnce(s: ServerState, c: Conn, name: string)
    ensures var o := Name(s, c, name);
            && (c in s.names ==> o.state == s && o.sends == [Notify(c, AlreadyRegistered)])
            && (c !in s.names ==>
                  && o.state == s.(names := s.names[c := name])
                  && forall x :: PlannedFor(o.sends, x) == if x == c then [Listing(Counts(s.rooms))] else [])
  {
    if c !in s.names {
      forall x {
        PlannedForSend(Listing(Counts(s.rooms)), {c}, x);
      }
    }
  }

  /** Two channels may register under the same name. */
  lemma NamesNotUnique(a: Conn, b: Conn, name: string)
    requires a != b
    ensures var s := Name(Name(Initial, a, name).state, b, name).state;
            a in s.names && b in s.names && s.names[a] == name && s.names[b] == name
  {
  }

  /** CREATE, JOIN and MESSAGE from an unnamed channel change nothing and send it one `SYSTEM:` notice. */
  lemma UnnamedRefused(s: ServerState, c: Conn, kind: string, data: string)
    requires c !in s.names && kind in {"CREATE", "JOIN", "MESSAGE"}
    ensures var o := Command(s, c, kind, data);
            && o.state == s && |o.sends| == 1 && o.sends[0].to == {c}
            && o.sends[0].frame.Text? && StartsWith(o.sends[0].frame.text, SystemPrefix)
  {
    var o := Command(s, c, kind, data);
    assert o.sends[0].frame.text[..|SystemPrefix|] == SystemPrefix;
  }

  /**
   * CREATE of an existing room changes nothing; otherwise the room is added
   * with no members, not even its creator, and the creator alone hears of it.
   */
  lemma CreateRoom(s: ServerState, c: Conn, room: string)
    requires c in s.names
    ensures var o := Create(s, c, room);
            && (room in s.rooms ==> o.state == s && o.sends == [Notify(c, RoomExists)])
            && (room !in s.rooms ==>
                  && o.state == s.(rooms := s.rooms[room := {}]) && c !in o.state.rooms[room]
                  && forall x :: PlannedFor(o.sends, x) ==
                                   if x == c then [Text(Created(room)), Listing(Counts(o.state.rooms))] else [])
  {
    var o := Create(s, c, room);
    if room !in s.rooms {
      forall x
        ensures PlannedFor(o.sends, x) == if x == c then [Text(Created(room)), Listing(Counts(o.state.rooms))] else []
      {
        PlannedForAppend([o.sends[0]], [o.sends[1]], x);
        assert o.sends == [o.sends[0]] + [o.sends[1]];
        PlannedForSend(Text(Created(room)), {c}, x);
        PlannedForSend(Listing(Counts(o.state.rooms)), {c}, x);
      }
    }
  }

  lemma InitialConsistent()
    ensures Consistent(Initial)
  {
  }

  /** LEAVE from a channel in no room changes nothing and writes nothing. */
  lemma LeaveOutside(s: ServerState, c: Conn)
    requires c !in s.current
    ensures Leave(s, c) == Outcome(s, [])
  {
  }

  /**
   * LEAVE takes the channel out of its room's member set and out of
   * `clientRooms`, keeps the maps consistent, and tells each remaining
   * member of the room once; the leaver is not told.
   */
  lemma LeaveTells(s: ServerState, c: Conn)
    requires Consistent(s) && c in s.current
    ensures var o := Leave(s, c);
            && Consistent(o.state) && c !in o.state.current
            && (forall r :: r in o.state.rooms ==> c !in o.state.rooms[r])
            && forall x :: PlannedFor(o.sends, x) ==
                             if x in s.rooms[s.current[c]] && x != c then [Text(LeftRoom(s.names[c]))] else []
  {
    var o := Leave(s, c);
    var room := s.current[c];
    forall x
      ensures PlannedFor(o.sends, x) == if x in s.rooms[room] && x != c then [Text(LeftRoom(s.names[c]))] else []
    {
      BroadcastReaches(o.state, LeftRoom(s.names[c]), room, None, x);
    }
  }

  /** LEAVE keeps the maps consistent and leaves the channel in no room, whether or not it was in one. */
  lemma LeaveKeeps(s: ServerState, c: Conn)
    requires Consistent(s)
    ensures var t := Leave(s, c).state;
            Consistent(t) && c !in t.current && forall r :: r in t.rooms ==> c !in t.rooms[r]
  {
    if c in s.current {
      LeaveTells(s, c);
    }
  }

  /**
   * JOIN keeps the maps consistent; when it succeeds the channel is in the
   * member set of the target room and of no other, and its current room is
   * the target.
   */
  lemma JoinPlaces(s: ServerState, c: Conn, room: string)
    requires Consistent(s)
    ensures var t := Join(s, c, room).state;
            && Consistent(t)
            && (c in s.names && room in s.rooms ==>
                  t.current[c] == room && forall r :: r in t.rooms ==> (c in t.rooms[r] <==> r == room))
  {
    if c in s.names && room in s.rooms {
      LeaveKeeps(s, c);
    }
  }

  /**
   * Who hears of a successful JOIN: the remaining members of the room left
   * are told of the leave, the other members of the target room of the
   * join, and the joiner alone gets the "вы в комнате" notice. Re-joining
   * the current room tells its other members both.
   */
  lemma JoinTells(s: ServerState, c: Conn, room: string, x: Conn)
    requires Consistent(s) && c in s.names && room in s.rooms
    ensures PlannedFor(Join(s, c, room).sends, x) ==
              (if c in s.current && x in s.rooms[s.current[c]] && x != c then [Text(LeftRoom(s.names[c]))] else [])
              + (if x in s.rooms[room] && x != c then [Text(JoinedRoom(s.names[c]))] else [])
              + (if x == c then [Text(YouAreIn(room))] else [])
  {
    var left := Leave(s, c);
    var t := Join(s, c, room).state;
    var text := JoinedRoom(s.names[c]);
    var joined := RoomBroadcast(t, text, room, Some(c));
    assert Join(s, c, room).sends == left.sends + joined + [Notify(c, YouAreIn(room))];
    PlannedForAppend(left.sends + joined, [Notify(c, YouAreIn(room))], x);
    PlannedForAppend(left.sends, joined, x);
    PlannedForSend(Text(YouAreIn(room)), {c}, x);
    assert StartsWith(text, SystemPrefix) by {
      assert text == SystemPrefix + (s.names[c] + " присоединился к комнате");
    }
    BroadcastReaches(t, text, room, Some(c), x);
    assert x != c ==> (x in Members(t, room) <==> x in s.rooms[room]);
    if c in s.current {
      LeaveTells(s, c);
    } else {
      LeaveOutside(s, c);
    }
  }

  lemma NameKeeps(s: ServerState, c: Conn, name: string)
    requires Consistent(s)
    ensures Consistent(Name(s, c, name).state)
  {
  }

  lemma CreateKeeps(s: ServerState, c: Conn, room: string)
    requires Consistent(s)
    ensures Consistent(Create(s, c, room).state)
  {
  }

  /**
   * MESSAGE never changes the maps, and has these outcomes in this order:
   * a notice to an unnamed sender, a notice to a sender in no room, nothing
   * for empty data, a notice for data over 1024 UTF-8 bytes, and otherwise
   * `MESSAGE:[name] data` once to every member of the sender's room, the
   * sender included.
   */
  lemma MessageOutcomes(s: ServerState, c: Conn, message: string)
    requires Consistent(s)
    ensures var o := Message(s, c, message);
            && o.state == s
            && (c !in s.names ==> o.sends == [Notify(c, RegisterFirst)])
            && (c in s.names && c !in s.current ==> o.sends == [Notify(c, EnterRoomFirst)])
            && (c in s.current && message == [] ==> o.sends == [])
            && (c in s.current && Utf8.Length(message) > MaxMessageBytes ==> o.sends == [Notify(c, MessageTooLong)])
            && (c in s.current && message != [] && Utf8.Length(message) <= MaxMessageBytes ==>
                  forall x :: PlannedFor(o.sends, x) ==
                                if x in s.rooms[s.current[c]] then [Text(Chat(s.names[c], message))] else [])
  {
    if c in s.current && message != [] && Utf8.Length(message) <= MaxMessageBytes {
      var text := Chat(s.names[c], message);
      assert text[0] == 'M' && SystemPrefix[0] == 'S';
      forall x {
        BroadcastReaches(s, text, s.current[c], Some(c), x);
      }
    }
  }

  /** Each count of a room list is the number of channels whose current room that is. */
  lemma ListCounts(s: ServerState)
    requires Consistent(s)
    ensures forall r :: r in s.rooms ==> Counts(s.rooms)[r] == |set x | x in s.current && s.current[x] == r|
  {
    forall r | r in s.rooms
      ensures Counts(s.rooms)[r] == |set x | x in s.current && s.current[x] == r|
    {
      assert s.rooms[r] == set x | x in s.current && s.current[x] == r;
    }
  }

  /**
   * Disconnection forgets the channel everywhere: its name, its current room
   * and every member set, and leaves every room in place.
   */
  lemma DisconnectForgets(s: ServerState, c: Conn)
    requires Consistent(s)
    ensures var t := Disconnect(s, c).state;
            && Consistent(t) && t.names == s.names - {c} && c !in t.current
            && (forall r :: r in t.rooms ==> c !in t.rooms[r]) && t.rooms.Keys == s.rooms.Keys
  {
    LeaveKeeps(s, c);
  }

  /** Every command keeps the maps consistent. */
  lemma CommandKeeps(s: ServerState, c: Conn, kind: string, data: string)
    requires Consistent(s)
    ensures Consistent(Command(s, c, kind, data).state)
  {
    if kind == "NAME" {
      NameKeeps(s, c, data);
    } else if kind == "CREATE" {
      CreateKeeps(s, c, data);
    } else if kind == "JOIN" {
      JoinPlaces(s, c, data);
    } else if kind == "LEAVE" {
      LeaveKeeps(s, c);
    } else if kind == "MESSAGE" {
      MessageOutcomes(s, c, data);
    }
  }

  /** Every read keeps the maps consistent, from the empty maps on. */
  lemma ProcessKeeps(s: ServerState, c: Conn, read: ReadResult)
    requires Consistent(s)
    ensures Consistent(Process(s, c, read).state)
  {
    match read
    case EndOfStream => DisconnectForgets(s, c);
    case ReadFailed => DisconnectForgets(s, c);
    case Bytes(data) =>
      if data != [] {
        var text := Trim(Utf8.Decode(data));
        match SplitOnce(text)
        case None =>
        case Some((kind, rest)) => CommandKeeps(s, c, kind, rest);
      }
  }

  /** No command removes a room, even one left empty. */
  lemma CommandKeepsRooms(s: ServerState, c: Conn, kind: string, data: string)
    ensures s.rooms.Keys <= Command(s, c, kind, data).state.rooms.Keys
  {
    if kind == "JOIN" && c in s.names && data in s.rooms {
      var u := Leave(s, c).state;
      assert Join(s, c, data).state.rooms.Keys == u.rooms.Keys;
    }
  }

  /** No read ever removes a room, even one left empty. */
  lemma RoomsNeverDeleted(s: ServerState, c: Conn, read: ReadResult)
    ensures s.rooms.Keys <= Process(s, c, read).state.rooms.Keys
  {
    match read
    case EndOfStream =>
    case ReadFailed =>
    case Bytes(data) =>
      if data != [] {
        match SplitOnce(Trim(Utf8.Decode(data)))
        case None =>
        case Some((kind, rest)) => CommandKeepsRooms(s, c, kind, rest);
      }
  }

  /**
   * A new channel is refused, with nothing written, exactly when more than
   * fifty channels are named; channels that have not sent NAME do not count.
   */
  lemma AdmissionLimit(s: ServerState, c: Conn)
    ensures Accept(s, c).state == s
    ensures Accept(s, c).sends == [] <==> |s.names| > MaxClients
    ensures Accept(s, c).sends != [] ==> Accept(s, c).sends == [Notify(c, AskName)]
  {
  }

  lemma {:induction false} LengthAppend(a: string, b: string)
    ensures Utf8.Length(a + b) == Utf8.Length(a) + Utf8.Length(b)
  {
    if a == [] {
      assert a + b == b;
    } else {
      assert (a + b)[0] == a[0] && (a + b)[1..] == a[1..] + b;
      LengthAppend(a[1..], b);
    }
  }

  /** Trimming never lengthens the UTF-8 form. */
  lemma TrimLength(text: string)
    ensures Utf8.Length(Trim(text)) <= Utf8.Length(text)
  {
    var r := Trim(text);
    var i := LeadingBlanks(text);
    var head, tail := text[..i], text[i + |r|..];
    assert text == (head + r) + tail;
    LengthAppend(head, r);
    LengthAppend(head + r, tail);
    assert Utf8.Length(text) == Utf8.Length(head + r) + Utf8.Length(tail);
    assert Utf8.Length(head + r) == Utf8.Length(head) + Utf8.Length(r);
  }

  /** A read of well-formed UTF-8 is dispatched on the trimmed text that was sent. */
  lemma WellFormedRead(s: ServerState, c: Conn, text: string)
    ensures Process(s, c, Bytes(Utf8.Encode(text))) == Dispatch(s, c, Trim(text))
  {
    Utf8.DecodeEncode(text);
  }

  /**
   * A read fills at most 1024 bytes, so the data of a MESSAGE read as
   * well-formed UTF-8 is at most 1016 bytes long: the over-long notice is
   * reached only through ill-formed bytes, each of which decodes to the
   * three-byte U+FFFD.
   */
  lemma WellFormedMessageFits(text: string, message: string)
    requires Utf8.Length(text) <= ReadBufferSize && Trim(text) == "MESSAGE:" + message
    ensures Utf8.Length(message) <= MaxMessageBytes - 8
  {
    TrimLength(text);
    LengthAppend("MESSAGE:", message);
  }
}
