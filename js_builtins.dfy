/**
 * The JavaScript built-ins the core relies on: String.prototype.trim,
 * String.prototype.toLowerCase, String.prototype.includes,
 * Array.prototype.slice and TextEncoder.encode (UTF-8).
 * Strings are sequences of Unicode scalar values.
 */
module JsBuiltins {
  import opened Options

  type Byte = b: int | 0 <= b < 256

  // ---------------------------------------------------------------- trim

  /** The WhiteSpace and LineTerminator code points of ECMAScript (sections 12.2 and 12.3 of ECMA-262), which `trim` strips. */
  predicate IsTrimmable(c: char) {
    || c == '\t' || c == '\n' || c == '\U{000B}' || c == '\U{000C}' || c == '\r' || c == ' '
    || c == '\U{00A0}' || c == '\U{1680}' || ('\U{2000}' <= c <= '\U{200A}')
    || c == '\U{2028}' || c == '\U{2029}' || c == '\U{202F}' || c == '\U{205F}'
    || c == '\U{3000}' || c == '\U{FEFF}'
  }

  /** Everything in `s` before position `i` and from `i + n` on is trimmable. */
  predicate BlankOutside(s: string, i: int, n: nat) {
    && 0 <= i && i + n <= |s|
    && (forall k :: 0 <= k < i ==> IsTrimmable(s[k]))
    && (forall k :: i + n <= k < |s| ==> IsTrimmable(s[k]))
  }

  /** Drops the leading trimmable characters: the result is the suffix that starts at the first other one. */
  function TrimStart(s: string): (r: string)
    ensures |r| <= |s| && r == s[|s| - |r|..]
    ensures forall k :: 0 <= k < |s| - |r| ==> IsTrimmable(s[k])
    ensures r == [] || !IsTrimmable(r[0])
  {
    if s != [] && IsTrimmable(s[0]) then TrimStart(s[1..]) else s
  }

  /** Drops the trailing trimmable characters: the result is the prefix that ends at the last other one. */
  function TrimEnd(s: string): (r: string)
    ensures |r| <= |s| && r == s[..|r|]
    ensures forall k :: |r| <= k < |s| ==> IsTrimmable(s[k])
    ensures r == [] || !IsTrimmable(r[|r| - 1])
  {
    if s != [] && IsTrimmable(s[|s| - 1]) then TrimEnd(s[..|s| - 1]) else s
  }

  /** `s.trim()`: the infix of `s` between its leading and trailing white space. */
  function Trim(s: string): (r: string)
    ensures exists i :: OccursAt(r, s, i) && BlankOutside(s, i, |r|)
    ensures r == [] || (!IsTrimmable(r[0]) && !IsTrimmable(r[|r| - 1]))
    ensures r == [] <==> forall k :: 0 <= k < |s| ==> IsTrimmable(s[k])
  {
    TrimBothEnds(s);
    TrimEnd(TrimStart(s))
  }

  /** Trimming the end keeps the start: the result sits at the offset where the leading space ends. */
  lemma TrimBothEnds(s: string)
    ensures var t := TrimStart(s); var r := TrimEnd(t);
      && OccursAt(r, s, |s| - |t|)
      && (r == [] ==> t == [])
      && (r == [] || r[0] == t[0])
  {
  }

  /** Trimming an already trimmed string changes nothing. */
  lemma TrimIdempotent(s: string)
    ensures Trim(Trim(s)) == Trim(s)
  {
    var t := Trim(s);
    assert TrimStart(t) == t;
    assert TrimEnd(t) == t;
  }

  // --------------------------------------------------------- toLowerCase

  predicate IsAsciiUpper(c: char) {
    'A' <= c <= 'Z'
  }

  /** Lower-cases one character; only the ASCII letters A-Z are mapped. */
  function ToLowerChar(c: char): (r: char)
    ensures !IsAsciiUpper(r)
    ensures !IsAsciiUpper(c) ==> r == c
    ensures IsAsciiUpper(c) ==> 'a' <= r <= 'z' && r as int - 'a' as int == c as int - 'A' as int
  {
    if IsAsciiUpper(c) then (c as int - 'A' as int + 'a' as int) as char else c
  }

  /** `s.toLowerCase()`, character by character. */
  function ToLowerCase(s: string): (r: string)
    ensures |r| == |s|
    ensures forall i :: 0 <= i < |s| ==> r[i] == ToLowerChar(s[i])
  {
    if s == [] then [] else [ToLowerChar(s[0])] + ToLowerCase(s[1..])
  }

  /** Lower-casing twice is lower-casing once. */
  lemma ToLowerCaseIdempotent(s: string)
    ensures ToLowerCase(ToLowerCase(s)) == ToLowerCase(s)
  {
  }

  /** Lower-casing distributes over concatenation, so a template string lower-cases piecewise. */
  lemma ToLowerCaseConcat(a: string, b: string)
    ensures ToLowerCase(a + b) == ToLowerCase(a) + ToLowerCase(b)
  {
  }

  // ------------------------------------------------------------ includes

  /** `part` occurs in `whole` starting at position `i`. */
  predicate OccursAt<T(==)>(part: seq<T>, whole: seq<T>, i: int) {
    0 <= i <= |whole| - |part| && whole[i..i + |part|] == part
  }

  /** `haystack.includes(needle)`: `needle` occurs at some position of `haystack`. */
  predicate Includes(haystack: string, needle: string) {
    exists i :: 0 <= i <= |haystack| && OccursAt(needle, haystack, i)
  }

  /** Every string includes the empty string. */
  lemma IncludesEmpty(haystack: string)
    ensures Includes(haystack, "")
  {
    assert OccursAt("", haystack, 0);
  }

  /** A string included in a suffix is included in the whole. */
  lemma IncludesInSuffix(pre: string, haystack: string, needle: string)
    requires Includes(haystack, needle)
    ensures Includes(pre + haystack, needle)
  {
    var i: int :| 0 <= i <= |haystack| && OccursAt(needle, haystack, i);
    assert (pre + haystack)[|pre| + i..|pre| + i + |needle|] == needle;
    assert OccursAt(needle, pre + haystack, |pre| + i);
  }

  /** A string included in a prefix is included in the whole. */
  lemma IncludesInPrefix(haystack: string, post: string, needle: string)
    requires Includes(haystack, needle)
    ensures Includes(haystack + post, needle)
  {
    var i: int :| 0 <= i <= |haystack| && OccursAt(needle, haystack, i);
    assert (haystack + post)[i..i + |needle|] == needle;
    assert OccursAt(needle, haystack + post, i);
  }

  // --------------------------------------------------------------- slice

  /** How Array.prototype.slice resolves one relative index against the length. */
  function RelativeIndex(i: int, length: nat): (k: nat)
    ensures k <= length
    ensures 0 <= i <= length ==> k == i
    ensures i < 0 ==> k == (if length + i < 0 then 0 else length + i)
    ensures i > length ==> k == length
  {
    if i < 0 then (if length + i < 0 then 0 else length + i)
    else if i < length then i
    else length
  }

  /** `s.slice(start, end)` with integer arguments, negative ones counting from the end. */
  function Slice<T>(s: seq<T>, start: int, end: int): (r: seq<T>)
    ensures start <= end ==> |r| <= end - start
    ensures 0 <= start <= |s| && start <= end ==> r == s[start..if end < |s| then end else |s|]
    ensures exists i :: OccursAt(r, s, i)
  {
    var from := RelativeIndex(start, |s|);
    var to := RelativeIndex(end, |s|);
    if to <= from then
      assert OccursAt([], s, 0);
      []
    else
      assert OccursAt(s[from..to], s, from);
      s[from..to]
  }

  /**
   * Negative indices count from the end: they select what the same indices
   * shifted by the length select; and a start at or past the end selects nothing.
   */
  lemma SliceNegativeIndices<T>(s: seq<T>, start: int, end: int)
    ensures -|s| <= start < 0 && -|s| <= end < 0 ==> Slice(s, start, end) == Slice(s, |s| + start, |s| + end)
    ensures start >= |s| ==> Slice(s, start, end) == []
    ensures 0 <= start <= |s| && end < 0 && -|s| <= end ==> Slice(s, start, end) == Slice(s, start, |s| + end)
  {
  }

  // ------------------------------------------------------ TextEncoder

  /** The UTF-8 encoding of one scalar value (section 3 of RFC 3629). */
  function EncodeScalar(c: char): (r: seq<Byte>)
    ensures 1 <= |r| <= 4
    ensures |r| == SequenceLength(r[0])
    ensures |r| == 1 <==> c as int < 0x80
    ensures forall k :: 1 <= k < |r| ==> 0x80 <= r[k] < 0xC0
  {
    var v := c as int;
    if v < 0x80 then
      [v]
    else if v < 0x800 then
      [0xC0 + v / 64, 0x80 + v % 64]
    else if v < 0x1_0000 then
      [0xE0 + v / 64 / 64, 0x80 + v / 64 % 64, 0x80 + v % 64]
    else
      [0xF0 + v / 64 / 64 / 64, 0x80 + v / 64 / 64 % 64, 0x80 + v / 64 % 64, 0x80 + v % 64]
  }

  /** `new TextEncoder().encode(s)`: the UTF-8 bytes of the whole string, in order. */
  function TextEncode(s: string): (r: seq<Byte>)
    ensures |s| <= |r| <= 4 * |s|
  {
    if s == [] then [] else EncodeScalar(s[0]) + TextEncode(s[1..])
  }

  /** The length of the UTF-8 sequence a leading byte announces; 0 for a byte that cannot lead one. */
  function SequenceLength(b: Byte): nat {
    if b < 0x80 then 1
    else if 0xC0 <= b < 0xE0 then 2
    else if 0xE0 <= b < 0xF0 then 3
    else if 0xF0 <= b < 0xF8 then 4
    else 0
  }

  /** The number that one complete UTF-8 sequence spells out in its payload bits. */
  function ScalarValue(b: seq<Byte>): int
    requires 1 <= |b| <= 4 && |b| == SequenceLength(b[0])
  {
    var b0: int := b[0];
    if |b| == 1 then b0
    else if |b| == 2 then (b0 - 0xC0) * 64 + (b[1] as int - 0x80)
    else if |b| == 3 then ((b0 - 0xE0) * 64 + (b[1] as int - 0x80)) * 64 + (b[2] as int - 0x80)
    else (((b0 - 0xF0) * 64 + (b[1] as int - 0x80)) * 64 + (b[2] as int - 0x80)) * 64 + (b[3] as int - 0x80)
  }

  /** The scalar value that one complete UTF-8 sequence denotes, if it denotes one. */
  function DecodeScalar(b: seq<Byte>): Option<char>
    requires 1 <= |b| <= 4 && |b| == SequenceLength(b[0])
  {
    var v := ScalarValue(b);
    if 0 <= v < 0xD800 || 0xE000 <= v < 0x11_0000 then Some(v as char) else None
  }

  /** A UTF-8 decoder, the inverse of TextEncode. */
  function DecodeUtf8(bytes: seq<Byte>): Option<string>
    decreases |bytes|
  {
    if bytes == [] then Some("")
    else
      var n := SequenceLength(bytes[0]);
      if n == 0 || |bytes| < n then None
      else
        match DecodeScalar(bytes[..n])
        case None => None
        case Some(c) =>
          match DecodeUtf8(bytes[n..])
          case None => None
          case Some(rest) => Some([c] + rest)
  }

  /** Decoding one encoded scalar value gives that value back. */
  lemma DecodeEncodeScalar(c: char)
    ensures DecodeScalar(EncodeScalar(c)) == Some(c)
  {
    var v := c as int;
    var b := EncodeScalar(c);
    if v < 0x80 {
    } else if v < 0x800 {
      assert ScalarValue(b) == v;
    } else if v < 0x1_0000 {
      assert v / 64 / 64 * 64 + v / 64 % 64 == v / 64;
      assert ScalarValue(b) == v;
    } else {
      assert v / 64 / 64 / 64 * 64 + v / 64 / 64 % 64 == v / 64 / 64;
      assert v / 64 / 64 * 64 + v / 64 % 64 == v / 64;
      assert ScalarValue(b) == v;
    }
  }

  /** TextEncode loses nothing: decoding its bytes gives the string back, so distinct strings encode to distinct bytes. */
  lemma {:induction false} DecodeTextEncode(s: string)
    ensures DecodeUtf8(TextEncode(s)) == Some(s)
  {
    if s != [] {
      var head := EncodeScalar(s[0]);
      var bytes := TextEncode(s);
      assert bytes == head + TextEncode(s[1..]);
      assert bytes[0] == head[0];
      assert bytes[..|head|] == head;
      assert bytes[|head|..] == TextEncode(s[1..]);
      DecodeEncodeScalar(s[0]);
      DecodeTextEncode(s[1..]);
      assert [s[0]] + s[1..] == s;
    }
  }

  /** An ASCII string encodes to its own code points, one byte each. */
  lemma {:induction false} TextEncodeAscii(s: string)
    requires forall i :: 0 <= i < |s| ==> s[i] as int < 0x80
    ensures |TextEncode(s)| == |s|
    ensures forall i :: 0 <= i < |s| ==> TextEncode(s)[i] == s[i] as int
  {
    if s != [] {
      TextEncodeAscii(s[1..]);
    }
  }
}
