/**
 * `SocketMessageOutputStream`: a wrapper that writes frames to an underlying
 * output stream, modelled as the append-only sequence of bytes written so far.
 */
module SocketMessageOutputStreams {
  import opened Utf8
  import opened SocketMessages

  /** The bytes `writeSocketMessage(m)` puts on the wire: the header, then the payload. */
  function Serialized(m: SocketMessage): seq<Byte>
  {
    m.messageLength + m.messageData
  }

  class SocketMessageOutputStream {
    /** Everything written to the underlying stream, oldest first. */
    var written: seq<Byte>

    constructor ()
      ensures written == []
    {
      written := [];
    }

    /** `write(int b)`: appends the low-order eight bits of `b`. */
    method Write(b: int)
      modifies this
      ensures written == old(written) + [b % 0x100]
    {
      written := written + [b % 0x100];
    }

    /** The underlying stream's `write(byte[])`: appends every byte, in order. */
    method WriteBytes(bytes: seq<Byte>)
      modifies this
      ensures written == old(written) + bytes
    {
      written := written + bytes;
    }

    /** `writeSocketMessage(m)`: appends the header and then the data. */
    method WriteSocketMessage(m: SocketMessage)
      modifies this
      ensures written == old(written) + Serialized(m)
      ensures |written| == |old(written)| + |m.messageLength| + |m.messageData|
      ensures written[..|old(written)|] == old(written)
    {
      WriteBytes(m.messageLength);
      WriteBytes(m.messageData);
    }
  }

  /** A frame built from a string occupies two bytes more than its payload. */
  lemma SerializedLength(s: string)
    ensures |Serialized(FromString(s))| == HeaderSize + Length(s)
  {
    LengthOfEncode(s);
  }
}
