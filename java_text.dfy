/**
 * The java.lang.String operations the chat code relies on: `trim()`,
 * `startsWith`, `split(":", 2)` and `equalsIgnoreCase("exit")`.
 */
module JavaText {
  import opened Wrappers

  /** `trim()` removes characters up to and including U+0020 from both ends. */
  predicate IsBlank(ch: char) { ch <= ' ' }

  predicate AllBlank(s: string) { forall k :: 0 <= k < |s| ==> IsBlank(s[k]) }

  /** The number of blank characters at the start of `s`. */
  function LeadingBlanks(s: string): (n: nat)
    ensures n <= |s| && AllBlank(s[..n])
    ensures n < |s| ==> !IsBlank(s[n])
  {
    if s != [] && IsBlank(s[0]) then 1 + LeadingBlanks(s[1..]) else 0
  }

  /** The number of blank characters at the end of `s`. */
  function TrailingBlanks(s: string): (n: nat)
    ensures n <= |s| && AllBlank(s[|s| - n..])
    ensures n < |s| ==> !IsBlank(s[|s| - n - 1])
  {
    if s != [] && IsBlank(s[|s| - 1]) then 1 + TrailingBlanks(s[..|s| - 1]) else 0
  }

  /** `s.trim()`: `s` without its blank prefix and blank suffix. */
  function Trim(s: string): (r: string)
    ensures var i := LeadingBlanks(s);
            i + |r| <= |s| && s[i..i + |r|] == r && AllBlank(s[..i]) && AllBlank(s[i + |r|..])
    ensures r == [] <==> AllBlank(s)
    ensures r != [] ==> !IsBlank(r[0]) && !IsBlank(r[|r| - 1])
  {
    var i := LeadingBlanks(s);
    var rest := s[i..];
    var r := rest[..|rest| - TrailingBlanks(rest)];
    assert rest[|r|..] == s[i + |r|..];
    assert AllBlank(s) ==> AllBlank(rest) && TrailingBlanks(rest) == |rest|;
    r
  }

  /** `s.startsWith(p)`. */
  predicate StartsWith(s: string, p: string) { p <= s }

  /** The index of the first `:` in `s`, if there is one (`s.indexOf(':')`). */
  function ColonIndex(s: string): (r: Option<nat>)
    ensures r.None? <==> ':' !in s
    ensures r.Some? ==> r.value < |s| && s[r.value] == ':' && ':' !in s[..r.value]
  {
    if s == [] then None
    else if s[0] == ':' then Some(0)
    else match ColonIndex(s[1..])
      case None => None
      case Some(k) => assert s[1..][..k] == s[1..k + 1]; Some(k + 1)
  }

  /**
   * `s.split(":", 2)` on a string that contains a colon, as the pair of its
   * two parts; None for a string without one (the caller tests
   * `contains(":")` first and then relies on two parts).
   */
  function SplitOnce(s: string): (r: Option<(string, string)>)
    ensures r.None? <==> ':' !in s
    ensures r.Some? ==> s == r.value.0 + ":" + r.value.1 && ':' !in r.value.0
  {
    match ColonIndex(s)
    case None => None
    case Some(i) =>
      assert s == s[..i] + ":" + s[i + 1..];
      Some((s[..i], s[i + 1..]))
  }

  /** Splitting undoes joining a colon-free head to any tail. */
  lemma SplitJoin(head: string, tail: string)
    requires ':' !in head
    ensures SplitOnce(head + ":" + tail) == Some((head, tail))
  {
    var s := head + ":" + tail;
    assert s[|head|] == ':' && s[..|head|] == head && s[|head| + 1..] == tail;
  }

  /**
   * Whether `ch` equals `lower` ignoring case, as `equalsIgnoreCase` decides
   * it for the four letters of "exit": two characters are equal when their
   * upper cases agree or the lower cases of those upper cases agree. Besides
   * `i` and `I`, U+0131 (dotless i, upper case `I`) and U+0130 (dotted
   * capital I, lower case `i`) match `i`.
   */
  predicate ExitLetterMatches(ch: char, lower: char)
  {
    match lower
    case 'e' => ch == 'e' || ch == 'E'
    case 'x' => ch == 'x' || ch == 'X'
    case 'i' => ch == 'i' || ch == 'I' || ch == 'ı' || ch == 'İ'
    case 't' => ch == 't' || ch == 'T'
    case _ => ch == lower
  }

  /** `text.equalsIgnoreCase("exit")`. */
  predicate IsExit(text: string)
  {
    && |text| == 4
    && ExitLetterMatches(text[0], 'e') && ExitLetterMatches(text[1], 'x')
    && ExitLetterMatches(text[2], 'i') && ExitLetterMatches(text[3], 't')
  }

  /**
   * On ASCII text, `equalsIgnoreCase("exit")` holds exactly for the sixteen
   * upper/lower-case spellings of "exit"; only non-ASCII text can match
   * otherwise (through U+0130 and U+0131).
   */
  lemma AsciiExit(t: string)
    requires forall k :: 0 <= k < |t| ==> (t[k] as int) < 0x80
    ensures IsExit(t) <==>
              && |t| == 4
              && (t[0] == 'e' || t[0] == 'E') && (t[1] == 'x' || t[1] == 'X')
              && (t[2] == 'i' || t[2] == 'I') && (t[3] == 't' || t[3] == 'T')
  {
    if |t| == 4 {
      assert (t[2] as int) < 0x80;
    }
  }
}
