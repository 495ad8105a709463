/**
 * `SocketMessageInputStream`: reads one frame at a time from an underlying
 * input stream, modelled as the bytes the peer sent and a cursor. A bulk read
 * returns every remaining byte up to the size asked for.
 */
module SocketMessageInputStreams {
  import opened Wrappers
  import opened Utf8
  import opened SocketMessages
  import opened SocketMessageOutputStreams

  /** `EOFException`, with or without a message. */
  datatype ReadError = EndOfStream

  /** What `readSocketMessage` returns or throws, and where the cursor ends up. */
  datatype ReadStep = ReadStep(result: Result<SocketMessage, ReadError>, pos: nat)

  function Min(a: int, b: int): int { if a <= b then a else b }

  /** What `InputStream.read(byte[want])` copies out of `bytes` at `pos`. */
  function Available(bytes: seq<Byte>, pos: nat, want: nat): (got: seq<Byte>)
    requires pos <= |bytes|
    ensures |got| == Min(want, |bytes| - pos)
  {
    bytes[pos..Min(pos + want, |bytes|)]
  }

  /**
   * `readSocketMessage()` on the stream `bytes` with the cursor at `pos`. At
   * the end of the stream the header read returns -1: EOF. Otherwise one or
   * two header bytes are read (a header byte that is not there stays 0, as
   * the fresh array held it), then up to `length` payload bytes; fewer than
   * `length` is EOF, and the bytes read stay consumed.
   */
  function ReadMessage(bytes: seq<Byte>, pos: nat): (r: ReadStep)
    requires pos <= |bytes|
    ensures pos <= r.pos <= |bytes|
  {
    if pos == |bytes| then ReadStep(Err(EndOfStream), pos)
    else
      var got := Available(bytes, pos, HeaderSize);
      var header := if |got| == 2 then got else got + [0];
      var length := HeaderValue(header);
      var p := pos + |got|;
      var data := Available(bytes, p, length);
      if |data| < length then ReadStep(Err(EndOfStream), p + |data|)
      else ReadStep(Ok(SocketMessage(header, data)), p + length)
  }

  /** An exhausted stream raises EOF and consumes nothing. */
  lemma ReadAtEnd(bytes: seq<Byte>)
    ensures ReadMessage(bytes, |bytes|) == ReadStep(Err(EndOfStream), |bytes|)
  {
  }

  /**
   * With the whole header available, the length is `b0 + 256 * b1`; the read
   * succeeds exactly when that many payload bytes follow, returns the header
   * read and exactly those bytes, and moves the cursor past them; otherwise
   * it fails with EOF after consuming what was there.
   */
  lemma ReadWithHeader(bytes: seq<Byte>, pos: nat)
    requires pos + HeaderSize <= |bytes|
    ensures var length := bytes[pos] as int + 0x100 * bytes[pos + 1] as int;
            var r := ReadMessage(bytes, pos);
            && 0 <= length < 0x10000
            && (pos + 2 + length <= |bytes| ==>
                  r == ReadStep(Ok(SocketMessage(bytes[pos..pos + 2], bytes[pos + 2..pos + 2 + length])), pos + 2 + length))
            && (pos + 2 + length > |bytes| ==> r == ReadStep(Err(EndOfStream), |bytes|))
  {
    var got := Available(bytes, pos, HeaderSize);
    assert got == bytes[pos..pos + 2];
  }

  /**
   * A stream with a single byte left: the header read returns one byte and
   * the high byte stays 0, so that byte alone is the length.
   */
  lemma ReadOneByteLeft(bytes: seq<Byte>)
    requires |bytes| == 1
    ensures ReadMessage(bytes, 0) ==
              if bytes[0] == 0 then ReadStep(Ok(SocketMessage([0, 0], [])), 1)
              else ReadStep(Err(EndOfStream), 1)
  {
    assert Available(bytes, 0, HeaderSize) == bytes;
    assert HeaderValue(bytes + [0]) == bytes[0];
    assert Available(bytes, 1, bytes[0]) == [];
    assert bytes[0] == 0 ==> bytes + [0] == [0, 0];
  }

  /** A successful read yields a 2-byte header whose value is the payload length. */
  lemma ReadSuccessShape(bytes: seq<Byte>, pos: nat)
    requires pos <= |bytes|
    requires ReadMessage(bytes, pos).result.Ok?
    ensures var r := ReadMessage(bytes, pos); var m := r.result.value;
            |m.messageLength| == HeaderSize && |m.messageData| == HeaderValue(m.messageLength)
            && r.pos <= pos + HeaderSize + |m.messageData|
            && bytes[r.pos - |m.messageData|..r.pos] == m.messageData
  {
  }

  /**
   * Reading back what `writeSocketMessage(new SocketMessage(s))` wrote gives
   * the same header and payload, hence `s`, whenever the payload is shorter
   * than 65536 bytes; the cursor stops right after the frame.
   */
  lemma {:induction false} WriteThenRead(s: string, rest: seq<Byte>)
    requires Length(s) < 0x10000
    ensures var m := FromString(s);
            var r := ReadMessage(Serialized(m) + rest, 0);
            r == ReadStep(Ok(m), HeaderSize + Length(s)) && GetStringData(r.result.value) == s
  {
    var m := FromString(s);
    var bytes := Serialized(m) + rest;
    HeaderEncodesLength(s);
    LengthOfEncode(s);
    ReadWithHeader(bytes, 0);
    assert bytes[0..2] == m.messageLength;
    assert bytes[2..2 + |m.messageData|] == m.messageData;
    StringDataRoundTrip(s);
  }

  class SocketMessageInputStream {
    /** Everything the peer sent on the underlying stream. */
    const input: seq<Byte>
    /** How many of those bytes have been consumed. */
    var pos: nat

    ghost predicate Valid()
      reads this
    {
      pos <= |input|
    }

    constructor (input: seq<Byte>)
      ensures Valid() && this.input == input && pos == 0
    {
      this.input := input;
      pos := 0;
    }

    /** The underlying `read()`: the next byte, or -1 at the end of the stream. */
    method Read() returns (b: int)
      requires Valid()
      modifies this`pos
      ensures Valid()
      ensures old(pos) == |input| ==> b == -1 && pos == old(pos)
      ensures old(pos) < |input| ==> b == input[old(pos)] && pos == old(pos) + 1
    {
      if pos == |input| {
        b := -1;
      } else {
        b := input[pos];
        pos := pos + 1;
      }
    }

    /**
     * The underlying `read(byte[] buf)`: 0 for an empty buffer, -1 at the
     * end of the stream, otherwise the number of bytes copied into the front
     * of `buf`, all that remain up to its length.
     */
    method ReadInto(buf: array<Byte>) returns (n: int)
      requires Valid()
      modifies this`pos, buf
      ensures Valid()
      ensures buf.Length == 0 ==> n == 0
      ensures buf.Length > 0 && old(pos) == |input| ==> n == -1
      ensures buf.Length > 0 && old(pos) < |input| ==> n == Min(buf.Length, |input| - old(pos))
      ensures pos == old(pos) + (if n < 0 then 0 else n)
      ensures 0 <= n ==> buf[..n] == input[old(pos)..pos] && buf[n..] == old(buf[n..])
      ensures n < 0 ==> buf[..] == old(buf[..])
    {
      if buf.Length > 0 && pos == |input| {
        return -1;
      }
      n := Min(buf.Length, |input| - pos);
      var i := 0;
      while i < n
        invariant 0 <= i <= n
        invariant pos == old(pos) && pos + n <= |input|
        invariant buf[..i] == input[pos..pos + i]
        invariant buf[i..] == old(buf[i..])
      {
        buf[i] := input[pos + i];
        i := i + 1;
      }
      pos := pos + n;
    }

    /** `readSocketMessage()`: one frame, or EOF. */
    method ReadSocketMessage() returns (r: Result<SocketMessage, ReadError>)
      requires Valid()
      modifies this`pos
      ensures Valid()
      ensures ReadStep(r, pos) == ReadMessage(input, old(pos))
    {
      var lengthBytes := new Byte[2](_ => 0);
      var n := ReadInto(lengthBytes);
      if n == -1 {
        return Err(EndOfStream);
      }
      ghost var got := Available(input, old(pos), HeaderSize);
      assert lengthBytes[..] == if |got| == 2 then got else got + [0];
      var messageLength := lengthBytes[0] as int + 0x100 * lengthBytes[1] as int;
      assert messageLength == HeaderValue(lengthBytes[..]);
      var dataBytes := new Byte[messageLength](_ => 0);
      var readBytes := ReadInto(dataBytes);
      ghost var data := Available(input, old(pos) + |got|, messageLength);
      assert readBytes < 0 ==> data == [];
      assert 0 <= readBytes ==> data == dataBytes[..readBytes];
      if readBytes < messageLength {
        return Err(EndOfStream);
      }
      assert dataBytes[..] == dataBytes[..readBytes];
      r := Ok(SocketMessage(lengthBytes[..], dataBytes[..]));
    }
  }

  /** Writing a frame to a fresh output stream and reading it back from the written bytes. */
  method Exchange(s: string) returns (r: Result<SocketMessage, ReadError>)
    requires Length(s) < 0x10000
    ensures r.Ok? && GetStringData(r.value) == s
  {
    var out := new SocketMessageOutputStream();
    out.WriteSocketMessage(FromString(s));
    var inp := new SocketMessageInputStream(out.written);
    r := inp.ReadSocketMessage();
    WriteThenRead(s, []);
    assert Serialized(FromString(s)) + [] == out.written;
  }
}
