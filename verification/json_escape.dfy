/**
 * The JSON string escaper of the traffic dump plugin
 * (plugins/experimental/traffic_dump/traffic_dump.cc, `min_write` and `esc_json_out`),
 * together with a reference decoder for JSON string bodies (section 7 of RFC 8259)
 * against which the escaper is proved.
 *
 * A `char` of this model stands for one byte of the C++ `std::string`.
 */
module JsonEscape {
  import opened Wrappers

  const Backspace: char := 8 as char
  const FormFeed: char := 12 as char

  /** A byte that `esc_json_out` rewrites: the quote, the backslash and the range 0x00-0x1f. */
  predicate NeedsEscape(c: char) {
    c == '"' || c == '\\' || c as int <= 0x1f
  }

  // ---------------------------------------------------------------------------
  // Lower-case hexadecimal, as `std::hex` with `std::setw(w)` and `std::setfill('0')`
  // ---------------------------------------------------------------------------

  function Pow16(w: nat): (r: nat)
    ensures r >= 1
  {
    if w == 0 then 1 else 16 * Pow16(w - 1)
  }

  predicate IsLowerHexDigit(c: char) {
    ('0' <= c <= '9') || ('a' <= c <= 'f')
  }

  predicate IsHexDigit(c: char) {
    ('0' <= c <= '9') || ('a' <= c <= 'f') || ('A' <= c <= 'F')
  }

  function HexDigit(d: nat): (c: char)
    requires d < 16
    ensures IsLowerHexDigit(c)
  {
    if d < 10 then ('0' as int + d) as char else ('a' as int + d - 10) as char
  }

  function DigitValue(c: char): (d: nat)
    requires IsHexDigit(c)
    ensures d < 16
  {
    if '0' <= c <= '9' then c as int - '0' as int
    else if 'a' <= c <= 'f' then c as int - 'a' as int + 10
    else c as int - 'A' as int + 10
  }

  /** `n` written with exactly `width` lower-case hex digits, zero padded on the left. */
  function HexDigits(n: nat, width: nat): (r: string)
    requires n < Pow16(width)
    ensures |r| == width
    ensures forall k :: 0 <= k < |r| ==> IsLowerHexDigit(r[k]) && IsHexDigit(r[k])
  {
    if width == 0 then ""
    else HexDigits(n / 16, width - 1) + [HexDigit(n % 16)]
  }

  /** The number that a string of hex digits denotes. */
  function HexValue(s: string): (v: nat)
    requires forall k :: 0 <= k < |s| ==> IsHexDigit(s[k])
    ensures v < Pow16(|s|)
  {
    if s == [] then 0
    else 16 * HexValue(s[..|s| - 1]) + DigitValue(s[|s| - 1])
  }

  lemma HexDigitValue(d: nat)
    requires d < 16
    ensures DigitValue(HexDigit(d)) == d
  {
  }

  /** Reading back the padded digits gives the number: the padding is never lossy. */
  lemma {:induction false} HexRoundTrip(n: nat, width: nat)
    requires n < Pow16(width)
    ensures HexValue(HexDigits(n, width)) == n
  {
    if width > 0 {
      var s := HexDigits(n, width);
      assert s[..|s| - 1] == HexDigits(n / 16, width - 1);
      HexRoundTrip(n / 16, width - 1);
      HexDigitValue(n % 16);
    }
  }

  // ---------------------------------------------------------------------------
  // The escaper, byte by byte
  // ---------------------------------------------------------------------------

  /** The letter of the two-character escape `esc_json_out` uses for a byte, if it has one. */
  function EscapeLetter(c: char): Option<char>
  {
    if c == '"' || c == '\\' then Some(c)
    else if c == Backspace then Some('b')
    else if c == FormFeed then Some('f')
    else if c == '\n' then Some('n')
    else if c == '\r' then Some('r')
    else if c == '\t' then Some('t')
    else None
  }

  /** What `esc_json_out` emits for one input byte. */
  function EscapeChar(c: char): (r: string)
    ensures !NeedsEscape(c) ==> r == [c]
    ensures NeedsEscape(c) ==> 2 <= |r| && r[0] == '\\'
  {
    if !NeedsEscape(c) then [c]
    else match EscapeLetter(c)
      case Some(x) => ['\\', x]
      case None => ['\\', 'u'] + HexDigits(c as int, 4)
  }

  /** The whole escaped text: the concatenation of the per-byte escapes. */
  function Escape(s: string): string
  {
    if s == [] then [] else EscapeChar(s[0]) + Escape(s[1..])
  }

  lemma {:induction false} EscapeAppend(a: string, b: string)
    ensures Escape(a + b) == Escape(a) + Escape(b)
  {
    if a != [] {
      assert (a + b)[1..] == a[1..] + b;
      EscapeAppend(a[1..], b);
    } else {
      assert a + b == b;
    }
  }

  /** A run of bytes that need no escape is copied unchanged (the batched copy of `min_write`). */
  lemma {:induction false} EscapePlainRun(s: string)
    requires forall k :: 0 <= k < |s| ==> !NeedsEscape(s[k])
    ensures Escape(s) == s
  {
    if s != [] {
      EscapePlainRun(s[1..]);
    }
  }

  /** The escaped text never holds a raw control byte. */
  lemma {:induction false} EscapeHasNoControl(s: string)
    ensures forall k :: 0 <= k < |Escape(s)| ==> Escape(s)[k] as int > 0x1f
  {
    if s != [] {
      EscapeHasNoControl(s[1..]);
      var e := EscapeChar(s[0]);
      if s[0] as int <= 0x1f && s[0] != Backspace && s[0] != FormFeed
         && s[0] != '\n' && s[0] != '\r' && s[0] != '\t' {
        assert e == "\\u" + HexDigits(s[0] as int, 4);
      }
      assert forall k :: 0 <= k < |e| ==> e[k] as int > 0x1f;
    }
  }

  // ---------------------------------------------------------------------------
  // Reference decoder for the body of a JSON string (section 7 of RFC 8259)
  // ---------------------------------------------------------------------------

  /** The byte that a two-character escape `\x` stands for, if `x` names one. */
  function ShortEscape(x: char): Option<char>
  {
    if x == '"' then Some('"')
    else if x == '\\' then Some('\\')
    else if x == '/' then Some('/')
    else if x == 'b' then Some(Backspace)
    else if x == 'f' then Some(FormFeed)
    else if x == 'n' then Some('\n')
    else if x == 'r' then Some('\r')
    else if x == 't' then Some('\t')
    else None
  }

  function Cons(c: char, r: Option<(string, string)>): Option<(string, string)>
  {
    match r
    case None => None
    case Some((d, rest)) => Some(([c] + d, rest))
  }

  /**
   * Decodes the body of a JSON string up to its closing quote: the decoded text
   * and what follows the closing quote, or None when the body is malformed or
   * unterminated.
   */
  function DecodeBody(s: string): Option<(string, string)>
    decreases |s|
  {
    if s == [] then None
    else if s[0] == '"' then Some(("", s[1..]))
    else if s[0] == '\\' then
      if |s| < 2 then None
      else if s[1] == 'u' then
        if |s| >= 6 && IsHexDigit(s[2]) && IsHexDigit(s[3]) && IsHexDigit(s[4]) && IsHexDigit(s[5]) then
          var v := HexValue(s[2..6]);
          if v < 0xD800 || 0xE000 <= v then Cons(v as char, DecodeBody(s[6..])) else None
        else None
      else
        match ShortEscape(s[1])
        case Some(c) => Cons(c, DecodeBody(s[2..]))
        case None => None
    else if s[0] as int <= 0x1f then None
    else Cons(s[0], DecodeBody(s[1..]))
  }

  /** Decoding the escape of one byte gives back that byte and goes on after it. */
  lemma DecodeEscapeChar(c: char, t: string)
    ensures DecodeBody(EscapeChar(c) + t) == Cons(c, DecodeBody(t))
  {
    if !NeedsEscape(c) {
      var s := [c] + t;
      assert s[1..] == t;
    } else {
      match EscapeLetter(c)
      case Some(x) =>
        LetterRoundTrip(c);
        var s := ['\\', x] + t;
        assert s[2..] == t;
      case None =>
        DecodeHexEscape(c, t);
    }
  }

  /** The short escape letter of a byte reads back as that byte. */
  lemma LetterRoundTrip(c: char)
    requires EscapeLetter(c).Some?
    ensures EscapeLetter(c).value != 'u' && ShortEscape(EscapeLetter(c).value) == Some(c)
  {
  }

  lemma DecodeHexEscape(c: char, t: string)
    requires c as int <= 0x1f && EscapeLetter(c).None?
    ensures DecodeBody(['\\', 'u'] + HexDigits(c as int, 4) + t) == Cons(c, DecodeBody(t))
  {
    var h := HexDigits(c as int, 4);
    var s := ['\\', 'u'] + h + t;
    assert s[2..6] == h;
    assert s[6..] == t;
    HexRoundTrip(c as int, 4);
  }

  /** The escaper's output decodes back to its input: the escaper loses nothing. */
  lemma {:induction false} EscapeRoundTrip(s: string, rest: string)
    ensures DecodeBody(Escape(s) + ['"'] + rest) == Some((s, rest))
  {
    if s == [] {
      assert Escape(s) + ['"'] + rest == ['"'] + rest;
      assert (['"'] + rest)[1..] == rest;
    } else {
      var t := Escape(s[1..]) + ['"'] + rest;
      assert Escape(s) + ['"'] + rest == EscapeChar(s[0]) + t;
      DecodeEscapeChar(s[0], t);
      EscapeRoundTrip(s[1..], rest);
      assert [s[0]] + s[1..] == s;
    }
  }

  /** Escaping is injective: distinct byte strings never share an escaped form. */
  lemma EscapeInjective(a: string, b: string)
    requires Escape(a) == Escape(b)
    ensures a == b
  {
    EscapeRoundTrip(a, "");
    EscapeRoundTrip(b, "");
  }

  // ---------------------------------------------------------------------------
  // The imperative escaper
  // ---------------------------------------------------------------------------

  /**
   * `min_write`: flushes the pending run `buf[prevIdx..idx]` of bytes that need no
   * escape, then moves `prevIdx` past the byte at `idx`.
   */
  method MinWrite(buf: string, prevIdx: int, idx: int, stream: string) returns (prevIdx': int, stream': string)
    requires prevIdx < idx ==> 0 <= prevIdx && idx <= |buf|
    ensures prevIdx' == idx + 1
    ensures stream' == stream + (if prevIdx < idx then buf[prevIdx..idx] else [])
  {
    stream' := stream;
    if prevIdx < idx {
      stream' := stream' + buf[prevIdx..idx];
    }
    prevIdx' := idx + 1;
  }

  lemma EscapeRunThenByte(b: string, prevIdx: nat, idx: nat)
    requires prevIdx <= idx < |b|
    requires forall k :: prevIdx <= k < idx ==> !NeedsEscape(b[k])
    ensures Escape(b[..idx + 1]) == Escape(b[..prevIdx]) + b[prevIdx..idx] + EscapeChar(b[idx])
  {
    assert b[..idx + 1] == b[..prevIdx] + b[prevIdx..idx] + [b[idx]];
    EscapeAppend(b[..prevIdx] + b[prevIdx..idx], [b[idx]]);
    EscapeAppend(b[..prevIdx], b[prevIdx..idx]);
    EscapePlainRun(b[prevIdx..idx]);
    assert Escape([b[idx]]) == EscapeChar(b[idx]) + Escape([]);
  }

  /** One escaped byte: the flushed run and the byte's escape extend the escaped prefix. */
  lemma EscapeStep(stream: string, b: string, prevIdx: nat, idx: nat, out: string)
    requires prevIdx <= idx < |b|
    requires forall k :: prevIdx <= k < idx ==> !NeedsEscape(b[k])
    requires out == stream + Escape(b[..prevIdx]) + b[prevIdx..idx] + EscapeChar(b[idx])
    ensures out == stream + Escape(b[..idx + 1])
  {
    EscapeRunThenByte(b, prevIdx, idx);
    Regroup(stream, Escape(b[..prevIdx]), b[prevIdx..idx], EscapeChar(b[idx]));
  }

  lemma Regroup(stream: string, done: string, run: string, e: string)
    ensures stream + done + run + e == stream + (done + run + e)
  {
  }

  lemma EscapeTail(b: string, prevIdx: nat, idx: nat)
    requires prevIdx <= idx <= |b|
    requires forall k :: prevIdx <= k < idx ==> !NeedsEscape(b[k])
    ensures Escape(b[..idx]) == Escape(b[..prevIdx]) + b[prevIdx..idx]
  {
    assert b[..idx] == b[..prevIdx] + b[prevIdx..idx];
    EscapeAppend(b[..prevIdx], b[prevIdx..idx]);
    EscapePlainRun(b[prevIdx..idx]);
  }

  /** The `switch` of `esc_json_out` for one byte that needs an escape. */
  method WriteEscape(c: char, stream: string) returns (stream': string)
    requires NeedsEscape(c)
    ensures stream' == stream + EscapeChar(c)
  {
    if c == '"' || c == '\\' {
      stream' := stream + ['\\', c];
    } else if c == Backspace {
      stream' := stream + "\\b";
    } else if c == FormFeed {
      stream' := stream + "\\f";
    } else if c == '\n' {
      stream' := stream + "\\n";
    } else if c == '\r' {
      stream' := stream + "\\r";
    } else if c == '\t' {
      stream' := stream + "\\t";
    } else {
      stream' := stream + "\\u" + HexDigits(c as int, 4);
    }
  }

  const TwoTo32: int := 0x1_0000_0000

  /**
   * The conversion of an `int64_t` to the 32-bit `int` the function returns:
   * the value modulo 2^32 in the range of `int` (two's complement).
   */
  function ToInt32(x: int): (r: int)
    ensures -TwoTo32 / 2 <= r < TwoTo32 / 2
    ensures (x - r) % TwoTo32 == 0
    ensures -TwoTo32 / 2 <= x < TwoTo32 / 2 ==> r == x
  {
    var m := x % TwoTo32;
    if m < TwoTo32 / 2 then m else m - TwoTo32
  }

  /**
   * `esc_json_out`: appends the escape of the first `len` bytes of `buf` to the stream.
   * A null buffer writes nothing and returns 0; otherwise the result is `len`
   * as an `int` (a negative `len` writes nothing).
   */
  method EscJsonOut(buf: Option<string>, len: int, stream: string) returns (ret: int, stream': string)
    requires buf.Some? ==> len <= |buf.value|
    ensures buf.None? ==> ret == 0 && stream' == stream
    ensures buf.Some? ==> ret == ToInt32(len) && stream' == stream + Escape(buf.value[..if len < 0 then 0 else len])
    ensures buf.Some? && -TwoTo32 / 2 <= len < TwoTo32 / 2 ==> ret == len
  {
    if buf.None? {
      return 0, stream;
    }
    var b := buf.value;
    var n: int := if len < 0 then 0 else len;
    var idx: int := 0;
    var prevIdx: int := 0;
    stream' := stream;
    while idx < len
      invariant 0 <= prevIdx <= idx <= n
      invariant stream' == stream + Escape(b[..prevIdx])
      invariant forall k :: prevIdx <= k < idx ==> !NeedsEscape(b[k])
    {
      var c := b[idx];
      if NeedsEscape(c) {
        ghost var pending := prevIdx;
        prevIdx, stream' := MinWrite(b, prevIdx, idx, stream');
        stream' := WriteEscape(c, stream');
        EscapeStep(stream, b, pending, idx, stream');
      }
      idx := idx + 1;
    }
    assert idx == n;
    EscapeTail(b, prevIdx, idx);
    prevIdx, stream' := MinWrite(b, prevIdx, idx, stream');
    ret := ToInt32(len);
  }

  /** `escape_json(s)`: the escape of the whole string. */
  method EscapeJson(s: string) returns (r: string)
    ensures r == Escape(s)
    ensures DecodeBody(r + ['"']) == Some((s, ""))
  {
    var _, out := EscJsonOut(Some(s), |s|, "");
    assert s[..|s|] == s;
    r := out;
    EscapeRoundTrip(s, "");
    assert r + ['"'] + "" == r + ['"'];
  }

  /** The bytes a (buffer, size) pair denotes: none for a null buffer or a negative size. */
  function BufText(buf: Option<string>, size: int): (t: string)
    requires buf.Some? ==> size <= |buf.value|
    ensures |t| == if buf.None? || size < 0 then 0 else size
  {
    match buf
    case None => ""
    case Some(b) => b[..if size < 0 then 0 else size]
  }

  /**
   * `escape_json(buf, size)`: the escape of the first `size` bytes of a buffer;
   * the empty string for a null buffer or a negative size.
   */
  method EscapeJsonBuf(buf: Option<string>, size: int) returns (r: string)
    requires buf.Some? ==> size <= |buf.value|
    ensures r == Escape(BufText(buf, size))
    ensures (buf.None? || size <= 0) ==> r == ""
  {
    var _, out := EscJsonOut(buf, size, "");
    r := out;
    if buf.None? || size <= 0 {
      assert BufText(buf, size) == [];
    }
  }
}
