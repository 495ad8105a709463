/**
 * `ChatServerNio` as the selector thread runs it: the three maps are fields
 * the handlers update in place, and `written` records what has been written
 * to each client channel. Every handler is proved to do what the matching
 * pure step of `NioRooms` says, so the properties proved there hold of it.
 */
module NioServer {
  import opened Wrappers
  import opened JavaText
  import opened NioFrames
  import opened NioRooms
  import opened NioRoomProperties
  import Utf8

  class ChatServerNio {
    var clientNames: map<Conn, string>
    var rooms: map<string, set<Conn>>
    var clientRooms: map<Conn, string>
    /** The frames written to each client channel so far. */
    var written: map<Conn, seq<Frame>>

    constructor ()
      ensures State() == Initial && Valid() && written == map[]
    {
      clientNames, rooms, clientRooms, written := map[], map[], map[], map[];
    }

    /** The three maps as one value. */
    function State(): ServerState
      reads this
    {
      ServerState(clientNames, rooms, clientRooms)
    }

    predicate Valid()
      reads this
    {
      Consistent(State())
    }

    /** `sendMessage(c, text)`. */
    method SendMessage(c: Conn, text: string)
      modifies this
      ensures State() == old(State()) && written == Write(old(written), c, Line(text))
      ensures Emitted(old(written), written, [Notify(c, text)])
    {
      EmittedOne(written, c, Line(text), Text(text));
      written := Write(written, c, Line(text));
    }

    /** The loop of `broadcastToRoom`: `text` written once to every channel of `targets`, in any order. */
    method WriteToAll(text: string, targets: set<Conn>)
      modifies this
      ensures State() == old(State())
      ensures Emitted(old(written), written, [Send(Text(text), targets)])
    {
      ghost var done: set<Conn> := {};
      EmittedToNobody(written, Text(text));
      var pending := targets;
      while pending != {}
        invariant pending <= targets && done == targets - pending
        invariant State() == old(State())
        invariant Emitted(old(written), written, [Send(Text(text), done)])
        decreases pending
      {
        var x :| x in pending;
        EmittedGrow(old(written), written, Text(text), done, x, Line(text));
        written := Write(written, x, Line(text));
        done := done + {x};
        pending := pending - {x};
      }
      assert done == targets;
    }

    /**
     * `broadcastToRoom(text, room, sender)`: one write per member of the room
     * other than the sender, then the echo to the sender unless `text` is a
     * `SYSTEM:` frame.
     */
    method BroadcastToRoom(text: string, room: string, sender: Option<Conn>)
      modifies this
      ensures State() == old(State())
      ensures Emitted(old(written), written, RoomBroadcast(old(State()), text, room, sender))
    {
      var members := if room in rooms then rooms[room] else {};
      var others := if sender.Some? then members - {sender.value} else members;
      WriteToAll(text, others);
      if sender.Some? && !StartsWith(text, SystemPrefix) {
        ghost var middle := written;
        SendMessage(sender.value, text);
        EmittedThen(old(written), middle, written, [Send(Text(text), others)], [Notify(sender.value, text)]);
      } else {
        assert [Send(Text(text), others)] + [] == [Send(Text(text), others)];
      }
    }

    /**
     * `sendRoomList(c)`: one `LIST:` frame naming every room with its member
     * count. The loop builds the wire text in `list` as the `StringBuilder`
     * does, alongside the entries it is the rendering of.
     */
    method SendRoomList(c: Conn)
      modifies this
      ensures State() == old(State())
      ensures Emitted(old(written), written, [RoomListTo(old(State()), c)])
    {
      var entries: seq<RoomEntry> := [];
      var list := "LIST:";
      var pending := rooms.Keys;
      while pending != {}
        invariant State() == old(State()) && written == old(written)
        invariant pending <= rooms.Keys
        invariant Lists(entries, Counts(rooms), rooms.Keys - pending)
        invariant list == Render(RoomList(entries))
        decreases pending
      {
        var r :| r in pending;
        var count := |rooms[r]|;
        ListsGrow(entries, Counts(rooms), rooms.Keys - pending, r);
        RenderEntriesSnoc(entries, RoomEntry(r, count));
        entries := entries + [RoomEntry(r, count)];
        list := list + Part(RoomEntry(r, count));
        assert rooms.Keys - (pending - {r}) == (rooms.Keys - pending) + {r};
        pending := pending - {r};
      }
      EmittedOne(written, c, RoomList(entries), Listing(Counts(rooms)));
      written := Write(written, c, RoomList(entries));
    }

    /** `handleName(c, name)`. */
    method HandleName(c: Conn, name: string)
      modifies this
      ensures State() == Name(old(State()), c, name).state
      ensures Emitted(old(written), written, Name(old(State()), c, name).sends)
    {
      if c in clientNames {
        SendMessage(c, AlreadyRegistered);
        return;
      }
      clientNames := clientNames[c := name];
      SendRoomList(c);
    }

    /** `handleCreate(c, room)`. */
    method HandleCreate(c: Conn, room: string)
      modifies this
      ensures State() == Create(old(State()), c, room).state
      ensures Emitted(old(written), written, Create(old(State()), c, room).sends)
    {
      if c !in clientNames {
        SendMessage(c, RegisterFirst);
        return;
      }
      if room in rooms {
        SendMessage(c, RoomExists);
        return;
      }
      rooms := rooms[room := {}];
      ghost var w0 := written;
      SendMessage(c, Created(room));
      ghost var w1 := written;
      SendRoomList(c);
      EmittedThen(w0, w1, written, [Notify(c, Created(room))], [RoomListTo(State(), c)]);
    }

    /** `handleLeave(c)`. */
    method HandleLeave(c: Conn)
      modifies this
      ensures State() == Leave(old(State()), c).state
      ensures Emitted(old(written), written, Leave(old(State()), c).sends)
    {
      if c !in clientRooms {
        EmittedNothing(written);
        return;
      }
      var room := clientRooms[c];
      var name := if c in clientNames then clientNames[c] else "null";
      if room in rooms {
        rooms := rooms[room := rooms[room] - {c}];
      }
      clientRooms := clientRooms - {c};
      BroadcastToRoom(LeftRoom(name), room, None);
    }

    /** `handleJoin(c, room)`. */
    method HandleJoin(c: Conn, room: string)
      modifies this
      ensures State() == Join(old(State()), c, room).state
      ensures Emitted(old(written), written, Join(old(State()), c, room).sends)
    {
      if c !in clientNames {
        SendMessage(c, RegisterFirstToJoin);
        return;
      }
      if room !in rooms {
        SendMessage(c, NoSuchRoom);
        return;
      }
      ghost var left := Leave(State(), c);
      ghost var w0 := written;
      HandleLeave(c);
      ghost var w1 := written;
      rooms := rooms[room := rooms[room] + {c}];
      clientRooms := clientRooms[c := room];
      var name := clientNames[c];
      BroadcastToRoom(JoinedRoom(name), room, Some(c));
      ghost var joined := RoomBroadcast(State(), JoinedRoom(name), room, Some(c));
      ghost var w2 := written;
      SendMessage(c, YouAreIn(room));
      EmittedThen(w0, w1, w2, left.sends, joined);
      EmittedThen(w0, w2, written, left.sends + joined, [Notify(c, YouAreIn(room))]);
    }

    /** `handleMessage(c, message)`. */
    method HandleMessage(c: Conn, message: string)
      modifies this
      ensures State() == Message(old(State()), c, message).state
      ensures Emitted(old(written), written, Message(old(State()), c, message).sends)
    {
      if c !in clientNames {
        SendMessage(c, RegisterFirst);
        return;
      }
      var name := clientNames[c];
      if c !in clientRooms {
        SendMessage(c, EnterRoomFirst);
        return;
      }
      var room := clientRooms[c];
      if message == [] {
        EmittedNothing(written);
        return;
      }
      if Utf8.Length(message) > MaxMessageBytes {
        SendMessage(c, MessageTooLong);
        return;
      }
      BroadcastToRoom(Chat(name, message), room, Some(c));
    }

    /** `handleList(c)`. */
    method HandleList(c: Conn)
      modifies this
      ensures State() == List(old(State()), c).state
      ensures Emitted(old(written), written, List(old(State()), c).sends)
    {
      SendRoomList(c);
    }

    /** `disconnectClient(c)`. */
    method DisconnectClient(c: Conn)
      modifies this
      ensures State() == Disconnect(old(State()), c).state
      ensures Emitted(old(written), written, Disconnect(old(State()), c).sends)
    {
      HandleLeave(c);
      clientNames := clientNames - {c};
      clientRooms := clientRooms - {c};
    }

    /** The `switch` of `processMessage` on the command type. */
    method RunCommand(c: Conn, kind: string, data: string)
      modifies this
      ensures State() == Command(old(State()), c, kind, data).state
      ensures Emitted(old(written), written, Command(old(State()), c, kind, data).sends)
    {
      if kind == "NAME" {
        HandleName(c, data);
      } else if kind == "CREATE" {
        HandleCreate(c, data);
      } else if kind == "JOIN" {
        HandleJoin(c, data);
      } else if kind == "LEAVE" {
        HandleLeave(c);
      } else if kind == "MESSAGE" {
        HandleMessage(c, data);
      } else if kind == "LIST" {
        HandleList(c);
      } else {
        SendMessage(c, UnknownCommand);
      }
    }

    /**
     * `processMessage(c)`, given what the read returned: the end of the
     * stream or a failed read disconnects, an empty read does nothing, and
     * any other read is decoded, trimmed and run as one command if it holds
     * a colon. The maps stay consistent.
     */
    method ProcessMessage(c: Conn, read: ReadResult)
      modifies this
      ensures State() == Process(old(State()), c, read).state
      ensures Emitted(old(written), written, Process(old(State()), c, read).sends)
      ensures old(Valid()) ==> Valid()
    {
      ghost var s0 := State();
      if Consistent(s0) {
        ProcessKeeps(s0, c, read);
      }
      match read
      case EndOfStream =>
        DisconnectClient(c);
      case ReadFailed =>
        DisconnectClient(c);
      case Bytes(data) =>
        if |data| == 0 {
          EmittedNothing(written);
          return;
        }
        var text := Trim(Utf8.Decode(data));
        var parts := SplitOnce(text);
        if parts.None? {
          EmittedNothing(written);
          return;
        }
        RunCommand(c, parts.value.0, parts.value.1);
    }

    /**
     * The admission check of `registerNewChannel(c)`: a refused channel is
     * closed; an admitted one is asked for its name.
     */
    method RegisterNewChannel(c: Conn)
      modifies this
      ensures State() == Accept(old(State()), c).state
      ensures Emitted(old(written), written, Accept(old(State()), c).sends)
    {
      if |clientNames| > MaxClients {
        EmittedNothing(written);
        return;
      }
      SendMessage(c, AskName);
    }
  }
}
