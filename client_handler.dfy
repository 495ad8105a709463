/**
 * `ClientHandler.run`, the per-connection loop of the threaded server: the
 * first inbound message names the client, later ones are skipped, refused or
 * broadcast to every handler in the shared client list, and on the way out
 * the handler leaves the list and the others are told.
 *
 * The specification functions are generic in the handler identity `H`; the
 * class at the end instantiates it with `HandlerId`, a number that stands
 * for the identity of a handler object, so `remove(this)` removes by
 * identity as Java's `remove(Object)` does for a class without `equals`.
 */
module ClientHandlers {
  import opened Wrappers
  import opened JavaText
  import Utf8

  const NamePrompt: string := "введите ваше имя:"
  const TooLongNotice: string := "ошибка: слишком длинное сообщение"
  /** Texts longer than this many UTF-8 bytes are refused. */
  const MaxMessageBytes: nat := 256

  function JoinedNotice(name: string): string { name + " присоединился к чату" }
  function LeftNotice(name: string): string { name + " покинул чат" }
  function Formatted(name: string, text: string): string { "[" + name + "] " + text }

  /** One frame written to a handler's output stream. */
  datatype Sent<H> = Sent(to: H, text: string)

  /** The texts among `sent` that went to `h`, in order. */
  function Received<H(==)>(sent: seq<Sent<H>>, h: H): seq<string>
  {
    if sent == [] then []
    else (if sent[0].to == h then [sent[0].text] else []) + Received(sent[1..], h)
  }

  function Repeat(text: string, n: nat): (r: seq<string>)
    ensures |r| == n && forall k :: 0 <= k < n ==> r[k] == text
  {
    if n == 0 then [] else [text] + Repeat(text, n - 1)
  }

  /** `broadcast(text)`: one send to each handler in the list, in list order. */
  function BroadcastAll<H>(clients: seq<H>, text: string): (out: seq<Sent<H>>)
    ensures |out| == |clients|
  {
    if clients == [] then [] else [Sent(clients[0], text)] + BroadcastAll(clients[1..], text)
  }

  /** The `k`-th send of a broadcast goes to the `k`-th listed handler. */
  lemma {:induction false} BroadcastAllAt<H>(clients: seq<H>, text: string, k: nat)
    requires k < |clients|
    ensures BroadcastAll(clients, text)[k] == Sent(clients[k], text)
  {
    if k > 0 {
      BroadcastAllAt(clients[1..], text, k - 1);
    }
  }

  /** Broadcasting to one more handler appends one send. */
  lemma BroadcastAllSnoc<H>(clients: seq<H>, text: string, i: nat)
    requires i < |clients|
    ensures BroadcastAll(clients[..i + 1], text) == BroadcastAll(clients[..i], text) + [Sent(clients[i], text)]
  {
    var a, b := BroadcastAll(clients[..i + 1], text), BroadcastAll(clients[..i], text) + [Sent(clients[i], text)];
    forall k | 0 <= k < |a|
      ensures a[k] == b[k]
    {
      BroadcastAllAt(clients[..i + 1], text, k);
      if k < i {
        BroadcastAllAt(clients[..i], text, k);
      }
    }
  }

  lemma {:induction false} ReceivedAppend<H>(a: seq<Sent<H>>, b: seq<Sent<H>>, h: H)
    ensures Received(a + b, h) == Received(a, h) + Received(b, h)
  {
    if a != [] {
      var first := if a[0].to == h then [a[0].text] else [];
      calc {
        Received(a + b, h);
        { assert (a + b)[0] == a[0] && (a + b)[1..] == a[1..] + b; }
        first + Received(a[1..] + b, h);
        { ReceivedAppend(a[1..], b, h); }
        first + (Received(a[1..], h) + Received(b, h));
        Received(a, h) + Received(b, h);
      }
    } else {
      assert a + b == b;
    }
  }

  /** A broadcast reaches each handler once per occurrence in the list, the sender included. */
  lemma {:induction false} BroadcastReaches<H>(clients: seq<H>, text: string, h: H)
    ensures Received(BroadcastAll(clients, text), h) == Repeat(text, multiset(clients)[h])
  {
    if clients != [] {
      assert clients == [clients[0]] + clients[1..];
      assert BroadcastAll(clients, text)[1..] == BroadcastAll(clients[1..], text);
      BroadcastReaches(clients[1..], text, h);
      if clients[0] == h {
        assert Repeat(text, multiset(clients)[h]) == [text] + Repeat(text, multiset(clients[1..])[h]);
      }
    }
  }

  /**
   * The reply to one inbound text other than "exit": nothing for a blank
   * text, an error to the sender alone for one over 256 UTF-8 bytes, and
   * otherwise `[name] text` to every handler in the list.
   */
  function Respond<H>(self: H, name: string, clients: seq<H>, text: string): seq<Sent<H>>
  {
    if AllBlank(text) then []
    else if Utf8.Length(text) > MaxMessageBytes then [Sent(self, TooLongNotice)]
    else BroadcastAll(clients, Formatted(name, text))
  }

  /** What each handler receives in reply to one text. */
  lemma RespondReaches<H>(self: H, name: string, clients: seq<H>, text: string, h: H)
    ensures Received(Respond(self, name, clients, text), h) ==
              if AllBlank(text) then []
              else if Utf8.Length(text) > MaxMessageBytes then (if h == self then [TooLongNotice] else [])
              else Repeat(Formatted(name, text), multiset(clients)[h])
  {
    if !AllBlank(text) && Utf8.Length(text) <= MaxMessageBytes {
      BroadcastReaches(clients, Formatted(name, text), h);
    } else if !AllBlank(text) {
      assert Received([Sent(self, TooLongNotice)], h) == (if h == self then [TooLongNotice] else []) + Received([], h);
    }
  }

  /**
   * The replies to the texts read after the name: one `Respond` per text, in
   * order, up to but not including the first "exit", after which nothing
   * more is read.
   */
  function Replies<H>(self: H, name: string, clients: seq<H>, texts: seq<string>): seq<Sent<H>>
  {
    if texts == [] || IsExit(texts[0]) then []
    else Respond(self, name, clients, texts[0]) + Replies(self, name, clients, texts[1..])
  }

  /** One turn of the message loop: the reply to `texts[i]` moves from the pending replies to the trace. */
  lemma RepliesStep<H>(self: H, name: string, clients: seq<H>, texts: seq<string>, i: nat,
                       start: seq<Sent<H>>, sent: seq<Sent<H>>)
    requires i < |texts| && !IsExit(texts[i])
    requires start + Replies(self, name, clients, texts) == sent + Replies(self, name, clients, texts[i..])
    ensures start + Replies(self, name, clients, texts)
            == (sent + Respond(self, name, clients, texts[i])) + Replies(self, name, clients, texts[i + 1..])
  {
    assert texts[i..][0] == texts[i] && texts[i..][1..] == texts[i + 1..];
  }

  /** Texts after an "exit" are never answered. */
  lemma {:induction false} RepliesStopAtExit<H>(self: H, name: string, clients: seq<H>, texts: seq<string>,
                                                k: nat, extra: seq<string>)
    requires k < |texts| && IsExit(texts[k])
    ensures Replies(self, name, clients, texts + extra) == Replies(self, name, clients, texts)
  {
    if !IsExit(texts[0]) {
      assert (texts + extra)[0] == texts[0] && (texts + extra)[1..] == texts[1..] + extra;
      RepliesStopAtExit(self, name, clients, texts[1..], k - 1, extra);
    }
  }

  /** Without an "exit", every text is answered, and a final "exit" adds nothing. */
  lemma {:induction false} RepliesEndAtExit<H>(self: H, name: string, clients: seq<H>, texts: seq<string>, exit: string)
    requires IsExit(exit) && forall j :: 0 <= j < |texts| ==> !IsExit(texts[j])
    ensures Replies(self, name, clients, texts + [exit]) == Replies(self, name, clients, texts)
  {
    if texts == [] {
      assert texts + [exit] == [exit];
    } else {
      assert (texts + [exit])[0] == texts[0] && (texts + [exit])[1..] == texts[1..] + [exit];
      RepliesEndAtExit(self, name, clients, texts[1..], exit);
    }
  }

  /** `remove(o)` on a list: drops the first occurrence of `x`, if any. */
  function RemoveFirst<H(==)>(xs: seq<H>, x: H): (r: seq<H>)
    ensures x !in xs ==> r == xs
    ensures x in xs ==> multiset(r) == multiset(xs) - multiset{x}
  {
    if xs == [] then []
    else if xs[0] == x then assert xs == [xs[0]] + xs[1..]; xs[1..]
    else
      assert xs == [xs[0]] + xs[1..];
      [xs[0]] + RemoveFirst(xs[1..], x)
  }

  /**
   * `remove(o)` keeps the order of the rest: when `xs[i]` is the first
   * occurrence of `x`, the result is `xs` without position `i`.
   */
  lemma {:induction false} RemoveFirstAt<H>(xs: seq<H>, x: H, i: nat)
    requires i < |xs| && xs[i] == x && x !in xs[..i]
    ensures RemoveFirst(xs, x) == xs[..i] + xs[i + 1..]
  {
    if i > 0 {
      var ys := xs[1..];
      assert xs[0] != x by { assert xs[0] == xs[..i][0]; }
      assert ys[..i - 1] == xs[1..i];
      RemoveFirstAt(ys, x, i - 1);
      assert RemoveFirst(xs, x) == [xs[0]] + RemoveFirst(ys, x);
      assert xs[..i] == [xs[0]] + ys[..i - 1];
      assert xs[i + 1..] == ys[i..];
    }
  }

  /** The outcome of a whole `run()`: the name set, the list left behind, and every frame sent. */
  datatype Outcome<H> = Outcome(name: Option<string>, clients: seq<H>, sent: seq<Sent<H>>)

  /**
   * `run()` for handler `self` against the shared list `clients`, where
   * `inbound` holds the texts of the messages read before the read that
   * fails. The name prompt goes to `self`; without a first message the
   * session ends with no name and no notice.
   */
  function Session<H(==)>(self: H, clients: seq<H>, inbound: seq<string>): (o: Outcome<H>)
    ensures |o.sent| >= 1 && o.sent[0] == Sent(self, NamePrompt)
    ensures o.name.Some? <==> inbound != []
    ensures inbound != [] ==> o.name.value == inbound[0]
  {
    var prompt := [Sent(self, NamePrompt)];
    var rest := RemoveFirst(clients, self);
    if inbound == [] then Outcome(None, rest, prompt)
    else
      var name := inbound[0];
      var texts := inbound[1..];
      Outcome(Some(name), rest,
              prompt + BroadcastAll(clients, JoinedNotice(name))
              + Replies(self, name, clients, texts)
              + BroadcastAll(rest, LeftNotice(name)))
  }

  /** The frames of a named session, in the order `run()` writes them one call at a time. */
  lemma SessionTrace<H>(self: H, clients: seq<H>, inbound: seq<string>, before: seq<Sent<H>>)
    requires inbound != []
    ensures var name, rest := inbound[0], RemoveFirst(clients, self);
            before + Session(self, clients, inbound).sent
            == before + [Sent(self, NamePrompt)] + BroadcastAll(clients, JoinedNotice(name))
               + Replies(self, name, clients, inbound[1..]) + BroadcastAll(rest, LeftNotice(name))
  {
  }

  /**
   * What one handler `h` receives from a named session: the prompt if it is
   * the session's own handler, the join notice once per listing (itself
   * included), the replies, and the farewell once per listing that is left
   * after this handler's own entry is removed.
   */
  lemma SessionReceived<H>(self: H, clients: seq<H>, inbound: seq<string>, h: H)
    requires inbound != []
    ensures var name := inbound[0];
            Received(Session(self, clients, inbound).sent, h)
            == (if h == self then [NamePrompt] else [])
               + Repeat(JoinedNotice(name), multiset(clients)[h])
               + Received(Replies(self, name, clients, inbound[1..]), h)
               + Repeat(LeftNotice(name), multiset(clients)[h] - (if h == self && self in clients then 1 else 0))
  {
    var name, rest := inbound[0], RemoveFirst(clients, self);
    var prompt, joined := [Sent(self, NamePrompt)], BroadcastAll(clients, JoinedNotice(name));
    var replies, left := Replies(self, name, clients, inbound[1..]), BroadcastAll(rest, LeftNotice(name));
    assert Session(self, clients, inbound).sent == prompt + joined + replies + left;
    ReceivedAppend(prompt + joined + replies, left, h);
    ReceivedAppend(prompt + joined, replies, h);
    ReceivedAppend(prompt, joined, h);
    assert Received(prompt, h) == (if h == self then [NamePrompt] else []) + Received([], h);
    BroadcastReaches(clients, JoinedNotice(name), h);
    BroadcastReaches(rest, LeftNotice(name), h);
    RemoveFirstCount(clients, self, h);
  }

  /** `remove(o)` takes one listing of `x` away, if there is one, and leaves every other count alone. */
  lemma RemoveFirstCount<H>(xs: seq<H>, x: H, h: H)
    ensures multiset(RemoveFirst(xs, x))[h] == multiset(xs)[h] - (if h == x && x in xs then 1 else 0)
  {
  }

  /** After an "exit", nothing more is read: what follows it changes nothing. */
  lemma ExitEndsSession<H>(self: H, clients: seq<H>, inbound: seq<string>, k: nat, extra: seq<string>)
    requires 1 <= k < |inbound| && IsExit(inbound[k])
    ensures Session(self, clients, inbound + extra) == Session(self, clients, inbound)
  {
    assert (inbound + extra)[0] == inbound[0] && (inbound + extra)[1..] == inbound[1..] + extra;
    RepliesStopAtExit(self, inbound[0], clients, inbound[1..], k - 1, extra);
  }

  /** "exit" broadcasts nothing: the session ends as if the stream had ended there. */
  lemma ExitLikeEndOfStream<H>(self: H, clients: seq<H>, name: string, texts: seq<string>, exit: string)
    requires IsExit(exit) && forall j :: 0 <= j < |texts| ==> !IsExit(texts[j])
    ensures Session(self, clients, [name] + texts + [exit]) == Session(self, clients, [name] + texts)
  {
    assert ([name] + texts + [exit])[1..] == texts + [exit] && ([name] + texts)[1..] == texts;
    RepliesEndAtExit(self, name, clients, texts, exit);
  }

  /**
   * The handler leaves the list before the farewell is sent, so when it was
   * listed once it does not receive its own `покинул чат` notice, and every
   * other handler receives it once per listing.
   */
  lemma FarewellSkipsSelf<H>(self: H, clients: seq<H>, inbound: seq<string>, h: H)
    requires inbound != [] && multiset(clients)[self] == 1
    ensures var s := Session(self, clients, inbound);
            Received(BroadcastAll(s.clients, LeftNotice(inbound[0])), h) ==
              if h == self then [] else Repeat(LeftNotice(inbound[0]), multiset(clients)[h])
  {
    var rest := RemoveFirst(clients, self);
    BroadcastReaches(rest, LeftNotice(inbound[0]), h);
  }

  /** Without a name, the only frame of the session is the prompt and no farewell is sent. */
  lemma NoNameNoFarewell<H>(self: H, clients: seq<H>, h: H)
    ensures Received(Session(self, clients, []).sent, h) == if h == self then [NamePrompt] else []
    ensures Session(self, clients, []).name == None
  {
    assert Received([Sent(self, NamePrompt)], h) == (if h == self then [NamePrompt] else []) + Received([], h);
  }

  /** The identity of one `ClientHandler` object. */
  type HandlerId = nat

  /** The shared client list and the output streams of all handlers, as one trace. */
  class ChatHub {
    var clients: seq<HandlerId>
    var sent: seq<Sent<HandlerId>>

    constructor ()
      ensures clients == [] && sent == []
    {
      clients, sent := [], [];
    }
  }

  class ClientHandler {
    const id: HandlerId
    const hub: ChatHub
    var clientName: Option<string>

    constructor (id: HandlerId, hub: ChatHub)
      ensures this.id == id && this.hub == hub && clientName == None
    {
      this.id := id;
      this.hub := hub;
      clientName := None;
    }

    /** `send(new SocketMessage(text))` to this handler's own client. */
    method Send(text: string)
      modifies hub
      ensures hub.sent == old(hub.sent) + [Sent(id, text)]
      ensures hub.clients == old(hub.clients)
    {
      hub.sent := hub.sent + [Sent(id, text)];
    }

    /** `broadcast(text)`: a send to each handler in the shared list. */
    method Broadcast(text: string)
      modifies hub
      ensures hub.sent == old(hub.sent) + BroadcastAll(hub.clients, text)
      ensures hub.clients == old(hub.clients)
    {
      var clients := hub.clients;
      for i := 0 to |clients|
        invariant hub.clients == clients
        invariant hub.sent == old(hub.sent) + BroadcastAll(clients[..i], text)
      {
        BroadcastAllSnoc(clients, text, i);
        hub.sent := hub.sent + [Sent(clients[i], text)];
      }
      assert clients[..|clients|] == clients;
    }

    /** The `finally` block: leave the list, then say goodbye if named. */
    method Finish()
      modifies this, hub
      ensures hub.clients == RemoveFirst(old(hub.clients), id)
      ensures hub.sent == old(hub.sent) + if clientName.Some? then BroadcastAll(hub.clients, LeftNotice(clientName.value)) else []
      ensures clientName == old(clientName)
    {
      hub.clients := RemoveFirst(hub.clients, id);
      if clientName.Some? {
        Broadcast(LeftNotice(clientName.value));
      }
    }

    /** The body of the message loop for one text other than "exit". */
    method Reply(name: string, text: string)
      modifies hub
      ensures hub.sent == old(hub.sent) + Respond(id, name, hub.clients, text)
      ensures hub.clients == old(hub.clients)
    {
      if Trim(text) == [] {
        return;
      }
      if Utf8.Length(text) > MaxMessageBytes {
        Send(TooLongNotice);
        return;
      }
      Broadcast(Formatted(name, text));
    }

    /**
     * The `while (true)` loop of `run()` over `texts`, the messages after the
     * name: it stops at the first "exit" or when the reads run out.
     */
    method MessageLoop(name: string, texts: seq<string>)
      modifies hub
      ensures hub.sent == old(hub.sent) + Replies(id, name, old(hub.clients), texts)
      ensures hub.clients == old(hub.clients)
    {
      ghost var clients, start := hub.clients, hub.sent;
      var i := 0;
      while i < |texts| && !IsExit(texts[i])
        invariant i <= |texts| && hub.clients == clients
        invariant start + Replies(id, name, clients, texts) == hub.sent + Replies(id, name, clients, texts[i..])
      {
        RepliesStep(id, name, clients, texts, i, start, hub.sent);
        Reply(name, texts[i]);
        i := i + 1;
      }
    }

    /** `run()`, reading the texts of `inbound` and then failing on the next read. */
    method Run(inbound: seq<string>)
      modifies this, hub
      ensures var s := Session(id, old(hub.clients), inbound);
              hub.sent == old(hub.sent) + s.sent && hub.clients == s.clients && clientName == s.name
    {
      Send(NamePrompt);
      if |inbound| == 0 {
        clientName := None;
        Finish();
        return;
      }
      var name := inbound[0];
      clientName := Some(name);
      Broadcast(JoinedNotice(name));
      MessageLoop(name, inbound[1..]);
      Finish();
      SessionTrace(id, old(hub.clients), inbound, old(hub.sent));
    }
  }
}
