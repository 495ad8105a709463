/**
 * The legacy binary frame: a 2-byte little-endian length header followed by
 * the UTF-8 payload. The receiving constructor, which stores the given header
 * and data unchanged, is the datatype constructor itself.
 */
module SocketMessages {
  import opened Utf8

  datatype SocketMessage = SocketMessage(messageLength: seq<Byte>, messageData: seq<Byte>)

  /** The number of bytes a header occupies. */
  const HeaderSize: nat := 2

  /** The payload length a 2-byte header stands for: low byte first. */
  function HeaderValue(header: seq<Byte>): (n: nat)
    requires |header| == HeaderSize
    ensures n < 0x10000
  {
    header[0] as int + 0x100 * header[1] as int
  }

  /**
   * `new SocketMessage(data)`: the payload is the UTF-8 encoding of `data`;
   * the header holds `(byte) length` and `(byte) (length >> 8)`.
   */
  function FromString(data: string): (m: SocketMessage)
    ensures |m.messageLength| == HeaderSize
    ensures m.messageData == Encode(data)
    ensures m.messageLength[0] == |m.messageData| % 0x100
    ensures m.messageLength[1] == (|m.messageData| / 0x100) % 0x100
  {
    var bytes := Encode(data);
    var n := |bytes|;
    SocketMessage([n % 0x100, (n / 0x100) % 0x100], bytes)
  }

  /** `getStringData()`: the stored payload, decoded. */
  function GetStringData(m: SocketMessage): string
  {
    Decode(m.messageData)
  }

  /**
   * The header of an outgoing message records the payload length modulo
   * 65536, and the length itself when the payload is shorter than that.
   */
  lemma HeaderEncodesLength(data: string)
    ensures var m := FromString(data);
            HeaderValue(m.messageLength) == |m.messageData| % 0x10000
            && (|m.messageData| < 0x10000 ==> HeaderValue(m.messageLength) == |m.messageData|)
  {
    var n := |Encode(data)|;
    var q, lo := n / 0x100, n % 0x100;
    assert n == q * 0x100 + lo;
    var qq, hi := q / 0x100, q % 0x100;
    assert q == qq * 0x100 + hi;
    assert n == qq * 0x10000 + (hi * 0x100 + lo);
    assert n % 0x10000 == hi * 0x100 + lo;
  }

  /** `new SocketMessage(s).getStringData()` gives back `s`. */
  lemma {:induction false} StringDataRoundTrip(s: string)
    ensures GetStringData(FromString(s)) == s
  {
    DecodeEncode(s);
  }
}
