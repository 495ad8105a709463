/**
 * What the room server writes to its client channels. A handler decides a
 * plan: a sequence of `Send`s, each one frame to a set of channels. The
 * server realises a `Send` by writing the frame to each channel of the set
 * in the iteration order of a `HashSet`, which nothing fixes, so a plan is
 * compared with what was written channel by channel: each channel must have
 * received exactly the frames planned for it, in plan order.
 *
 * A `LIST:` frame is built by iterating a `HashMap`'s key set, so its room
 * order is not fixed either: the plan holds the counts as a map, and the
 * written frame holds them as entries in the order the loop chose.
 */
module NioFrames {

  /** An accepted client channel; only its identity matters. */
  datatype Conn = Conn(id: nat)

  /** One `room(count);` part of a `LIST:` frame. */
  datatype RoomEntry = RoomEntry(room: string, count: nat)

  /** A frame as written to a channel. */
  datatype Frame = Line(text: string) | RoomList(entries: seq<RoomEntry>)

  /** A frame as a handler decides it, before any iteration order is chosen. */
  datatype Planned = Text(text: string) | Listing(counts: map<string, nat>)

  /** One frame for every channel of `to`. */
  datatype Send = Send(frame: Planned, to: set<Conn>)

  /** `sendMessage(c, text)`: one text frame to one channel. */
  function Notify(c: Conn, text: string): Send
  {
    Send(Text(text), {c})
  }

  /** The rooms named by `entries`. */
  function RoomsOf(entries: seq<RoomEntry>): set<string>
  {
    set i | 0 <= i < |entries| :: entries[i].room
  }

  /** `entries` lists the rooms of `covered` once each, with the counts `counts` gives them. */
  predicate Lists(entries: seq<RoomEntry>, counts: map<string, nat>, covered: set<string>)
  {
    && RoomsOf(entries) == covered
    && (forall i, j :: 0 <= i < j < |entries| ==> entries[i].room != entries[j].room)
    && (forall i :: 0 <= i < |entries| ==> entries[i].room in counts && entries[i].count == counts[entries[i].room])
  }

  /** `entries` lists every room of `counts` exactly once, each with its count. */
  predicate Enumerates(entries: seq<RoomEntry>, counts: map<string, nat>)
  {
    Lists(entries, counts, counts.Keys)
  }

  /** One more room, not listed yet, appended with its count. */
  lemma ListsGrow(entries: seq<RoomEntry>, counts: map<string, nat>, covered: set<string>, r: string)
    requires Lists(entries, counts, covered) && r in counts && r !in covered
    ensures Lists(entries + [RoomEntry(r, counts[r])], counts, covered + {r})
  {
    var e := entries + [RoomEntry(r, counts[r])];
    assert RoomsOf(e) == RoomsOf(entries) + {r} by {
      forall q | q in RoomsOf(e)
        ensures q in RoomsOf(entries) + {r}
      {
        var i :| 0 <= i < |e| && e[i].room == q;
        if i < |entries| {
          assert entries[i].room == q;
        }
      }
      forall q | q in RoomsOf(entries)
        ensures q in RoomsOf(e)
      {
        var i :| 0 <= i < |entries| && entries[i].room == q;
        assert e[i].room == q;
      }
      assert e[|entries|].room == r;
    }
    forall i, j | 0 <= i < j < |e|
      ensures e[i].room != e[j].room
    {
      if j == |entries| {
        assert entries[i].room in RoomsOf(entries);
      }
    }
  }

  /** A written frame realises a planned one. */
  predicate Matches(f: Frame, p: Planned)
  {
    match p
    case Text(t) => f == Line(t)
    case Listing(counts) => f.RoomList? && Enumerates(f.entries, counts)
  }

  /** The written frames `fs` realise the planned frames `ps`, one for one and in order. */
  predicate Conforms(fs: seq<Frame>, ps: seq<Planned>)
  {
    |fs| == |ps| && forall i :: 0 <= i < |fs| ==> Matches(fs[i], ps[i])
  }

  /** The frames `plan` has for channel `x`, in plan order. */
  function PlannedFor(plan: seq<Send>, x: Conn): seq<Planned>
  {
    if plan == [] then []
    else (if x in plan[0].to then [plan[0].frame] else []) + PlannedFor(plan[1..], x)
  }

  /** Everything written to channel `x` so far. */
  function Inbox(written: map<Conn, seq<Frame>>, x: Conn): seq<Frame>
  {
    if x in written then written[x] else []
  }

  /**
   * Going from `before` to `after`, every channel kept what it had and
   * received exactly the frames `plan` has for it.
   */
  ghost predicate Emitted(before: map<Conn, seq<Frame>>, after: map<Conn, seq<Frame>>, plan: seq<Send>)
  {
    forall x :: Extends(Inbox(before, x), Inbox(after, x), PlannedFor(plan, x))
  }

  /** `b` is `a` followed by frames realising `ps`. */
  predicate Extends(a: seq<Frame>, b: seq<Frame>, ps: seq<Planned>)
  {
    |a| <= |b| && b[..|a|] == a && Conforms(b[|a|..], ps)
  }

  lemma ExtendsThen(a: seq<Frame>, b: seq<Frame>, c: seq<Frame>, ps: seq<Planned>, qs: seq<Planned>)
    requires Extends(a, b, ps) && Extends(b, c, qs)
    ensures Extends(a, c, ps + qs)
  {
    assert c[|a|..] == b[|a|..] + c[|b|..] by {
      assert c[..|b|] == b;
    }
    ConformsAppend(b[|a|..], ps, c[|b|..], qs);
    assert c[..|a|] == b[..|a|];
  }

  lemma {:induction false} PlannedForAppend(p: seq<Send>, q: seq<Send>, x: Conn)
    ensures PlannedFor(p + q, x) == PlannedFor(p, x) + PlannedFor(q, x)
  {
    if p == [] {
      assert p + q == q;
    } else {
      assert (p + q)[0] == p[0] && (p + q)[1..] == p[1..] + q;
      PlannedForAppend(p[1..], q, x);
    }
  }

  lemma ConformsAppend(fs: seq<Frame>, ps: seq<Planned>, gs: seq<Frame>, qs: seq<Planned>)
    requires Conforms(fs, ps) && Conforms(gs, qs)
    ensures Conforms(fs + gs, ps + qs)
  {
    forall i | 0 <= i < |fs + gs|
      ensures Matches((fs + gs)[i], (ps + qs)[i])
    {
      if i >= |fs| {
        assert (fs + gs)[i] == gs[i - |fs|] && (ps + qs)[i] == qs[i - |fs|];
      }
    }
  }

  /** Writing nothing realises the empty plan. */
  lemma EmittedNothing(w: map<Conn, seq<Frame>>)
    ensures Emitted(w, w, [])
  {
    forall x
      ensures Extends(Inbox(w, x), Inbox(w, x), PlannedFor([], x))
    {
      assert Inbox(w, x)[|Inbox(w, x)|..] == [];
    }
  }

  /** Two stretches of writing, one after the other, realise the two plans one after the other. */
  lemma EmittedThen(w0: map<Conn, seq<Frame>>, w1: map<Conn, seq<Frame>>, w2: map<Conn, seq<Frame>>,
                    p: seq<Send>, q: seq<Send>)
    requires Emitted(w0, w1, p) && Emitted(w1, w2, q)
    ensures Emitted(w0, w2, p + q)
  {
    forall x
      ensures Extends(Inbox(w0, x), Inbox(w2, x), PlannedFor(p + q, x))
    {
      PlannedForAppend(p, q, x);
      ExtendsThen(Inbox(w0, x), Inbox(w1, x), Inbox(w2, x), PlannedFor(p, x), PlannedFor(q, x));
    }
  }

  /** Appending the frame `f` to channel `c`. */
  function Write(w: map<Conn, seq<Frame>>, c: Conn, f: Frame): (r: map<Conn, seq<Frame>>)
    ensures Inbox(r, c) == Inbox(w, c) + [f]
    ensures forall x :: x != c ==> Inbox(r, x) == Inbox(w, x)
  {
    w[c := Inbox(w, c) + [f]]
  }

  lemma ExtendsOne(a: seq<Frame>, m: seq<Frame>, f: Frame, p: Planned)
    requires Extends(a, m, []) && Matches(f, p)
    ensures Extends(a, m + [f], [p])
  {
    assert m == a;
    assert (m + [f])[|a|..] == [f];
  }

  /** A single `Send` plans its frame for the channels of its set and nothing for the others. */
  lemma PlannedForSend(p: Planned, to: set<Conn>, x: Conn)
    ensures PlannedFor([Send(p, to)], x) == if x in to then [p] else []
  {
    assert PlannedFor([Send(p, to)], x) == (if x in to then [p] else []) + PlannedFor([], x);
  }

  /**
   * One more channel `c` of a set done so far: writing `f` to it extends the
   * realisation of `Send(p, done)` to `Send(p, done + {c})`.
   */
  lemma EmittedGrow(w0: map<Conn, seq<Frame>>, w: map<Conn, seq<Frame>>, p: Planned, done: set<Conn>, c: Conn, f: Frame)
    requires Emitted(w0, w, [Send(p, done)]) && c !in done && Matches(f, p)
    ensures Emitted(w0, Write(w, c, f), [Send(p, done + {c})])
  {
    var w' := Write(w, c, f);
    forall x
      ensures Extends(Inbox(w0, x), Inbox(w', x), PlannedFor([Send(p, done + {c})], x))
    {
      PlannedForSend(p, done, x);
      PlannedForSend(p, done + {c}, x);
      assert Extends(Inbox(w0, x), Inbox(w, x), PlannedFor([Send(p, done)], x));
      if x == c {
        assert PlannedFor([Send(p, done)], x) == [] && PlannedFor([Send(p, done + {c})], x) == [p];
        assert Inbox(w', x) == Inbox(w, x) + [f];
        ExtendsOne(Inbox(w0, x), Inbox(w, x), f, p);
      } else if x in done {
        assert PlannedFor([Send(p, done + {c})], x) == PlannedFor([Send(p, done)], x) == [p];
        assert Inbox(w', x) == Inbox(w, x);
      } else {
        assert PlannedFor([Send(p, done + {c})], x) == PlannedFor([Send(p, done)], x) == [];
        assert Inbox(w', x) == Inbox(w, x);
      }
    }
  }

  /** A `Send` to no channel is realised by writing nothing. */
  lemma EmittedToNobody(w: map<Conn, seq<Frame>>, p: Planned)
    ensures Emitted(w, w, [Send(p, {})])
  {
    forall x
      ensures Extends(Inbox(w, x), Inbox(w, x), PlannedFor([Send(p, {})], x))
    {
      PlannedForSend(p, {}, x);
      assert Inbox(w, x)[|Inbox(w, x)|..] == [];
    }
  }

  /** Writing `f` to `c` alone realises one `Send` of a frame `f` matches. */
  lemma EmittedOne(w: map<Conn, seq<Frame>>, c: Conn, f: Frame, p: Planned)
    requires Matches(f, p)
    ensures Emitted(w, Write(w, c, f), [Send(p, {c})])
  {
    EmittedToNobody(w, p);
    EmittedGrow(w, w, p, {}, c, f);
    assert {} + {c} == {c};
  }

  /** The decimal digits of `n`, as `StringBuilder.append(int)` writes a non-negative count. */
  function Decimal(n: nat): (r: string)
    ensures r != [] && forall k :: 0 <= k < |r| ==> '0' <= r[k] <= '9'
  {
    if n < 10 then [Digit(n)] else Decimal(n / 10) + [Digit(n % 10)]
  }

  function Digit(d: nat): char
    requires d < 10
  {
    ('0' as int + d) as char
  }

  /** The value of a string of decimal digits. */
  function DecimalValue(s: string): nat
    requires forall k :: 0 <= k < |s| ==> '0' <= s[k] <= '9'
  {
    if s == [] then 0 else 10 * DecimalValue(s[..|s| - 1]) + (s[|s| - 1] as int - '0' as int)
  }

  /** The digits written for a count read back as that count. */
  lemma {:induction false} DecimalRoundTrip(n: nat)
    ensures DecimalValue(Decimal(n)) == n
  {
    if n >= 10 {
      var r := Decimal(n);
      assert r[..|r| - 1] == Decimal(n / 10);
      DecimalRoundTrip(n / 10);
    }
  }

  /** The wire text of a frame, without the newline `sendMessage` appends. */
  function Render(f: Frame): string
  {
    match f
    case Line(text) => text
    case RoomList(entries) => "LIST:" + RenderEntries(entries)
  }

  function RenderEntries(entries: seq<RoomEntry>): string
  {
    if entries == [] then [] else Part(entries[0]) + RenderEntries(entries[1..])
  }

  /** `append(room).append("(").append(count).append(");")`. */
  function Part(e: RoomEntry): string
  {
    e.room + "(" + Decimal(e.count) + ");"
  }

  /**
   * One more entry adds its `room(count);` part at the end of the wire
   * text, as one turn of the `StringBuilder` loop does.
   */
  lemma {:induction false} RenderEntriesSnoc(entries: seq<RoomEntry>, e: RoomEntry)
    ensures RenderEntries(entries + [e]) == RenderEntries(entries) + Part(e)
    ensures Render(RoomList(entries + [e])) == Render(RoomList(entries)) + Part(e)
  {
    if entries == [] {
      assert RenderEntries([e]) == Part(e) + RenderEntries([]);
    } else {
      assert (entries + [e])[0] == entries[0] && (entries + [e])[1..] == entries[1..] + [e];
      RenderEntriesSnoc(entries[1..], e);
    }
  }
}
