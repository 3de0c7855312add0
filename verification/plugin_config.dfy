/**
 * How `PluginManager::init` (proxy/Plugin.cc) cuts one line of plugin.config
 * into arguments: in place, in the line buffer, by overwriting each token's
 * terminator with a NUL and remembering where each token starts.
 *
 * `Scan` is the specification: it reads the text of the line (the buffer up
 * to its first NUL) and lists the tokens. `TokenizeLine` is the loop of the
 * source on an `array<char>`, proved to produce exactly those tokens and to
 * leave the buffer as `Cut` describes.
 */
module PluginConfig {
  import opened Wrappers

  /** `MAX_PLUGIN_ARGS`. */
  const MaxPluginArgs: nat := 64

  /** `ParseRules::is_wslfcr`: space, tab, line feed or carriage return. */
  predicate IsWslfcr(c: char)
  {
    c == ' ' || c == '\t' || c == '\n' || c == '\r'
  }

  // ---------------------------------------------------------------------------
  // C strings in a buffer
  // ---------------------------------------------------------------------------

  /** The buffer holds a NUL at or after position `i`. */
  predicate NulFrom(b: seq<char>, i: nat)
  {
    exists k :: i <= k < |b| && b[k] == '\0'
  }

  /** The position of the first NUL at or after `i`. */
  function NulIndex(b: seq<char>, i: nat): (k: nat)
    requires NulFrom(b, i)
    ensures i <= k < |b| && b[k] == '\0'
    ensures forall j :: i <= j < k ==> b[j] != '\0'
    decreases |b| - i
  {
    if b[i] == '\0' then i else NulIndex(b, i + 1)
  }

  /** The C string that starts at `i`. */
  function CString(b: seq<char>, i: nat): (r: string)
    requires NulFrom(b, i)
    ensures forall j :: 0 <= j < |r| ==> r[j] != '\0'
  {
    b[i..NulIndex(b, i)]
  }

  /** The text of the line: the buffer up to its first NUL. */
  function Text(b: seq<char>): (s: string)
    requires NulFrom(b, 0)
    ensures |s| < |b| && b[|s|] == '\0' && s == b[..|s|]
    ensures forall j :: 0 <= j < |s| ==> s[j] != '\0'
  {
    CString(b, 0)
  }

  // ---------------------------------------------------------------------------
  // The tokenizer, as a specification
  // ---------------------------------------------------------------------------

  /** The first position at or after `p` that is not whitespace (or the end). */
  function SkipWs(s: string, p: nat): (q: nat)
    requires p <= |s|
    ensures p <= q <= |s| && (q < |s| ==> !IsWslfcr(s[q]))
    decreases |s| - p
  {
    if p < |s| && IsWslfcr(s[p]) then SkipWs(s, p + 1) else p
  }

  /** The first `"` at or after `p` (or the end). */
  function QuoteEnd(s: string, p: nat): (q: nat)
    requires p <= |s|
    ensures p <= q <= |s| && (q < |s| ==> s[q] == '"')
    decreases |s| - p
  {
    if p < |s| && s[p] != '"' then QuoteEnd(s, p + 1) else p
  }

  /** The first whitespace or `#` at or after `p` (or the end). */
  function WordEnd(s: string, p: nat): (q: nat)
    requires p <= |s|
    ensures p <= q <= |s| && (q < |s| ==> IsWslfcr(s[q]) || s[q] == '#')
    decreases |s| - p
  {
    if p < |s| && !IsWslfcr(s[p]) && s[p] != '#' then WordEnd(s, p + 1) else p
  }

  /** Everything `SkipWs` passes over is whitespace. */
  lemma {:induction false} SkipWsChars(s: string, p: nat)
    requires p <= |s|
    ensures forall k :: p <= k < SkipWs(s, p) ==> IsWslfcr(s[k])
    decreases |s| - p
  {
    if p < |s| && IsWslfcr(s[p]) {
      SkipWsChars(s, p + 1);
    }
  }

  /** Everything `QuoteEnd` passes over is not a `"`. */
  lemma {:induction false} QuoteEndChars(s: string, p: nat)
    requires p <= |s|
    ensures forall k :: p <= k < QuoteEnd(s, p) ==> s[k] != '"'
    decreases |s| - p
  {
    if p < |s| && s[p] != '"' {
      QuoteEndChars(s, p + 1);
    }
  }

  /** Everything `WordEnd` passes over is neither whitespace nor `#`. */
  lemma {:induction false} WordEndChars(s: string, p: nat)
    requires p <= |s|
    ensures forall k :: p <= k < WordEnd(s, p) ==> !IsWslfcr(s[k]) && s[k] != '#'
    decreases |s| - p
  {
    if p < |s| && !IsWslfcr(s[p]) && s[p] != '#' {
      WordEndChars(s, p + 1);
    }
  }

  /**
   * One token: it starts at `start` and its scan stopped at `end`; `cut` says
   * whether the terminator at `end` was overwritten with a NUL, `quoted`
   * whether the token was written between double quotes.
   */
  datatype Token = Token(start: nat, end: nat, cut: bool, quoted: bool)

  /**
   * A token found at or after `p`: it lies inside the line, and it is cut
   * exactly when its scan stopped at a closing `"` (quoted) or at whitespace
   * (unquoted).
   */
  predicate TokenOk(s: string, p: nat, t: Token)
  {
    && p <= t.start <= t.end <= |s|
    && (t.quoted ==> (t.cut <==> t.end < |s|))
    && (!t.quoted ==> (t.cut <==> t.end < |s| && s[t.end] != '#'))
  }

  /**
   * What a token holds: an unquoted token is never empty and holds no
   * whitespace and no `#`; a quoted token follows its opening `"`, holds no
   * `"`, and keeps any whitespace it contains.
   */
  predicate TokenChars(s: string, t: Token)
  {
    && t.start <= t.end <= |s|
    && (!t.quoted ==> t.start < t.end && forall k :: t.start <= k < t.end ==> !IsWslfcr(s[k]) && s[k] != '#')
    && (t.quoted ==> 0 < t.start && s[t.start - 1] == '"' && forall k :: t.start <= k < t.end ==> s[k] != '"')
  }

  /**
   * A token taken by a scan from `p` begins at the first character after the
   * whitespace, or just after it when that character is an opening `"`.
   */
  predicate Leads(s: string, p: nat, t: Token)
  {
    && p <= |s|
    && var q := SkipWs(s, p);
    && q < |s|
    && (t.quoted <==> s[q] == '"')
    && t.start == (if t.quoted then q + 1 else q)
  }

  /**
   * Tokens found at or after `p`, in order, not overlapping, all but the last
   * one cut; the first begins after the whitespace at `p`, and each later one
   * after the whitespace that follows the previous one's cut.
   */
  predicate Shaped(s: string, p: nat, r: seq<Token>)
  {
    && (forall i :: 0 <= i < |r| ==> TokenOk(s, p, r[i]))
    && (forall i :: 0 <= i < |r| - 1 ==> r[i].cut)
    && (forall i, j :: 0 <= i < j < |r| ==> r[i].end < r[j].start)
    && (|r| > 0 ==> Leads(s, p, r[0]))
    && (forall i :: 0 <= i < |r| - 1 ==> Leads(s, r[i].end + 1, r[i + 1]))
  }

  /**
   * The token a scan from `p` takes, when the first non-whitespace character
   * is neither the end of the line nor `#`: after a `"`, up to the next `"`;
   * otherwise up to the next whitespace or `#`.
   */
  function FirstToken(s: string, p: nat): (t: Token)
    requires p <= |s|
    requires var q := SkipWs(s, p); q < |s| && s[q] != '#'
    ensures TokenOk(s, p, t) && Leads(s, p, t)
  {
    var q := SkipWs(s, p);
    if s[q] == '"' then
      var e := QuoteEnd(s, q + 1);
      Token(q + 1, e, e < |s|, true)
    else
      var e := WordEnd(s, q);
      Token(q, e, e < |s| && s[e] != '#', false)
  }

  lemma FirstTokenChars(s: string, p: nat)
    requires p <= |s|
    requires var q := SkipWs(s, p); q < |s| && s[q] != '#'
    ensures TokenChars(s, FirstToken(s, p))
  {
    var q := SkipWs(s, p);
    if s[q] == '"' {
      QuoteEndChars(s, q + 1);
    } else {
      WordEndChars(s, q);
    }
  }

  /**
   * The tokens of `s` from position `p`, when `argc` tokens are already taken.
   * Nothing more is taken once there are 64; whitespace separates tokens; a
   * `#` where a token would start ends the line. A token that stops at `#` or
   * at the end of the line is not cut, and ends the scan.
   */
  function Scan(s: string, p: nat, argc: nat): (r: seq<Token>)
    requires p <= |s|
    ensures argc + |r| <= MaxPluginArgs || r == []
    decreases |s| - p
  {
    if argc >= MaxPluginArgs then []
    else
      var q := SkipWs(s, p);
      if q == |s| || s[q] == '#' then []
      else
        var t := FirstToken(s, p);
        if t.cut then [t] + Scan(s, t.end + 1, argc + 1) else [t]
  }

  /** The tokens of a whole line. */
  function Tokens(s: string): seq<Token>
  {
    Scan(s, 0, 0)
  }

  /** A blank line, or one whose first non-whitespace character is `#`. */
  predicate Blank(s: string)
  {
    var q := SkipWs(s, 0);
    q == |s| || s[q] == '#'
  }

  /** What the tokenizer reports as the starts of the tokens (`argv[i]`). */
  function Starts(toks: seq<Token>): (r: seq<nat>)
    ensures |r| == |toks|
  {
    if toks == [] then [] else [toks[0].start] + Starts(toks[1..])
  }

  /** Some token was cut at position `k`. */
  predicate CutAt(toks: seq<Token>, k: nat)
  {
    exists i :: 0 <= i < |toks| && toks[i].cut && toks[i].end == k
  }

  /** The buffer after the terminator of every cut token is overwritten with NUL. */
  function Cut(b: seq<char>, toks: seq<Token>): (r: seq<char>)
    ensures |r| == |b|
  {
    if toks == [] then b
    else
      var c := Cut(b, toks[..|toks| - 1]);
      var t := toks[|toks| - 1];
      if t.cut && t.end < |c| then c[t.end := '\0'] else c
  }

  /** A position of the cut buffer is NUL where a token was cut, and as before elsewhere. */
  lemma {:induction false} CutPointwise(b: seq<char>, toks: seq<Token>, k: nat)
    requires k < |b|
    ensures Cut(b, toks)[k] == if CutAt(toks, k) then '\0' else b[k]
  {
    if toks != [] {
      var front := toks[..|toks| - 1];
      var t := toks[|toks| - 1];
      CutPointwise(b, front, k);
      assert CutAt(toks, k) <==> CutAt(front, k) || (t.cut && t.end == k) by {
        if CutAt(toks, k) {
          var i :| 0 <= i < |toks| && toks[i].cut && toks[i].end == k;
          if i < |toks| - 1 {
            assert front[i] == toks[i];
          }
        }
        if CutAt(front, k) {
          var i :| 0 <= i < |front| && front[i].cut && front[i].end == k;
          assert toks[i] == front[i];
        }
      }
    }
  }

  lemma CutSnoc(b: seq<char>, toks: seq<Token>, t: Token)
    ensures Cut(b, toks + [t]) == if t.cut && t.end < |b| then Cut(b, toks)[t.end := '\0'] else Cut(b, toks)
  {
    assert (toks + [t])[..|toks|] == toks;
  }

  // ---------------------------------------------------------------------------
  // Properties of the tokens
  // ---------------------------------------------------------------------------

  /** No more than 64 tokens are ever taken from one line. */
  lemma TokenCap(s: string)
    ensures |Tokens(s)| <= MaxPluginArgs
  {
  }

  /** A blank or comment line gives no tokens (and so no `load`). */
  lemma BlankLineHasNoTokens(s: string)
    requires Blank(s)
    ensures Tokens(s) == []
  {
  }

  /** Any other line gives at least one token. */
  lemma OtherLineHasTokens(s: string)
    requires !Blank(s)
    ensures |Tokens(s)| >= 1
  {
    var t := FirstToken(s, 0);
    ScanStep(s, 0, 0, t);
  }

  /** One step of the scan: the first token, then (if it was cut) the scan after it. */
  lemma ScanStep(s: string, p: nat, argc: nat, t: Token)
    requires p <= |s| && argc < MaxPluginArgs
    requires var q := SkipWs(s, p); q < |s| && s[q] != '#'
    requires t == FirstToken(s, p)
    ensures t.cut ==> t.end < |s| && Scan(s, p, argc) == [t] + Scan(s, t.end + 1, argc + 1)
    ensures !t.cut ==> Scan(s, p, argc) == [t]
  {
  }

  lemma ShapedCons(s: string, p: nat, t: Token, rest: seq<Token>, r: seq<Token>)
    requires TokenOk(s, p, t) && Leads(s, p, t) && t.cut && Shaped(s, t.end + 1, rest) && r == [t] + rest
    ensures Shaped(s, p, r)
  {
    forall i | 0 <= i < |r| - 1
      ensures Leads(s, r[i].end + 1, r[i + 1])
    {
      assert r[i + 1] == rest[i];
      if i > 0 { assert r[i] == rest[i - 1]; }
    }
    forall i | 0 <= i < |r|
      ensures TokenOk(s, p, r[i])
    {
      if i > 0 { assert r[i] == rest[i - 1]; }
    }
    forall i | 0 <= i < |r| - 1
      ensures r[i].cut
    {
      if i > 0 { assert r[i] == rest[i - 1]; }
    }
    forall i, j | 0 <= i < j < |r|
      ensures r[i].end < r[j].start
    {
      assert r[j] == rest[j - 1];
      if i > 0 { assert r[i] == rest[i - 1]; }
    }
  }

  lemma ShapedSingle(s: string, p: nat, t: Token, r: seq<Token>)
    requires TokenOk(s, p, t) && Leads(s, p, t) && r == [t]
    ensures Shaped(s, p, r)
  {
  }

  /** Every scan gives tokens of that shape. */
  lemma {:induction false} ScanShape(s: string, p: nat, argc: nat)
    requires p <= |s|
    ensures Shaped(s, p, Scan(s, p, argc))
    decreases |s| - p, 1
  {
    var q := SkipWs(s, p);
    if argc < MaxPluginArgs && q < |s| && s[q] != '#' {
      TokenScanShape(s, p, argc);
    }
  }

  lemma {:induction false} TokenScanShape(s: string, p: nat, argc: nat)
    requires p <= |s| && argc < MaxPluginArgs
    requires var q := SkipWs(s, p); q < |s| && s[q] != '#'
    ensures Shaped(s, p, Scan(s, p, argc))
    decreases |s| - p, 0
  {
    var t := FirstToken(s, p);
    ScanStep(s, p, argc, t);
    if t.cut {
      ScanShape(s, t.end + 1, argc + 1);
      ShapedCons(s, p, t, Scan(s, t.end + 1, argc + 1), Scan(s, p, argc));
    } else {
      ShapedSingle(s, p, t, Scan(s, p, argc));
    }
  }

  /** Every token of a scan holds what `TokenChars` says. */
  lemma {:induction false} ScanChars(s: string, p: nat, argc: nat, i: nat)
    requires p <= |s| && i < |Scan(s, p, argc)|
    ensures TokenChars(s, Scan(s, p, argc)[i])
    decreases |s| - p
  {
    var t := FirstToken(s, p);
    ScanNonEmpty(s, p, argc);
    ScanStep(s, p, argc, t);
    if i == 0 {
      FirstTokenChars(s, p);
    } else {
      var rest := Scan(s, t.end + 1, argc + 1);
      ScanChars(s, t.end + 1, argc + 1, i - 1);
      ConsIndex(t, rest, Scan(s, p, argc), i);
    }
  }

  /** A scan that finds a token stopped neither at the cap nor at the end of the text nor at a comment. */
  lemma ScanNonEmpty(s: string, p: nat, argc: nat)
    requires p <= |s| && Scan(s, p, argc) != []
    ensures argc < MaxPluginArgs && SkipWs(s, p) < |s| && s[SkipWs(s, p)] != '#'
  {
  }

  lemma ConsIndex(t: Token, rest: seq<Token>, r: seq<Token>, i: nat)
    requires r == [t] + rest && 0 < i < |r|
    ensures r[i] == rest[i - 1]
  {
  }

  /**
   * An unquoted token that runs into a `#` is not cut there: it is the last
   * token, and its argument goes on through the `#` to the end of the line.
   */
  lemma HashGluedTokenKeepsComment(s: string, i: nat)
    requires i < |Tokens(s)|
    requires var t := Tokens(s)[i]; !t.quoted && t.end < |s| && s[t.end] == '#'
    ensures !Tokens(s)[i].cut && i == |Tokens(s)| - 1
    ensures Tokens(s)[i].start <= |s| && Arg(s, Tokens(s)[i]) == s[Tokens(s)[i].start..]
  {
    ScanShape(s, 0, 0);
    assert TokenOk(s, 0, Tokens(s)[i]);
  }

  /** The argument a token stands for: up to its cut, or to the end of the line. */
  function Arg(s: string, t: Token): string
    requires t.start <= |s| && (t.cut ==> t.start <= t.end <= |s|)
  {
    if t.cut then s[t.start..t.end] else s[t.start..]
  }

  /** No cut falls inside the argument of token `i`. */
  lemma NoCutInside(s: string, toks: seq<Token>, i: nat, k: nat)
    requires Shaped(s, 0, toks) && i < |toks|
    requires toks[i].start <= k < (if toks[i].cut then toks[i].end else |s|)
    ensures !CutAt(toks, k)
  {
    forall j | 0 <= j < |toks| && toks[j].cut
      ensures toks[j].end != k
    {
      if j < i {
        assert toks[j].end < toks[i].start;
      } else if j > i {
        assert toks[i].cut && toks[i].end < toks[j].start;
        assert TokenOk(s, 0, toks[j]);
      }
    }
  }

  /**
   * After the cuts, the C string at each token's start is that token's
   * argument: what the plugin receives as `argv[i]`.
   */
  lemma CutArguments(b: seq<char>, i: nat)
    requires NulFrom(b, 0) && i < |Tokens(Text(b))|
    ensures var s := Text(b); var toks := Tokens(s); var t := toks[i];
      t.start <= t.end <= |s| && NulFrom(Cut(b, toks), t.start) && CString(Cut(b, toks), t.start) == Arg(s, t)
  {
    var s := Text(b);
    var toks := Tokens(s);
    var t := toks[i];
    var c := Cut(b, toks);
    ScanShape(s, 0, 0);
    assert TokenOk(s, 0, t);
    var stop := if t.cut then t.end else |s|;
    CutPointwise(b, toks, stop);
    forall k | t.start <= k < stop
      ensures c[k] == s[k] && c[k] != '\0'
    {
      NoCutInside(s, toks, i, k);
      CutPointwise(b, toks, k);
    }
    assert NulFrom(c, t.start);
    assert NulIndex(c, t.start) == stop;
    assert c[t.start..stop] == s[t.start..stop];
  }

  /** The C strings at the given positions: what the `argv` pointers point to. */
  function CArgs(c: seq<char>, starts: seq<nat>): (r: seq<string>)
    requires forall i :: 0 <= i < |starts| ==> NulFrom(c, starts[i])
    ensures |r| == |starts|
  {
    seq(|starts|, i requires 0 <= i < |starts| => CString(c, starts[i]))
  }

  /** After the cuts, `argv` points at the arguments of the line's tokens, in order. */
  lemma LineArguments(b: seq<char>)
    requires NulFrom(b, 0)
    ensures var s := Text(b); var toks := Tokens(s); var c := Cut(b, toks);
      && (forall i :: 0 <= i < |toks| ==> toks[i].start <= toks[i].end <= |s| && NulFrom(c, Starts(toks)[i]))
      && CArgs(c, Starts(toks)) == TokenArgs(s, toks)
  {
    var s := Text(b);
    var toks := Tokens(s);
    forall i | 0 <= i < |toks|
      ensures toks[i].start <= toks[i].end <= |s| && NulFrom(Cut(b, toks), Starts(toks)[i])
      ensures CString(Cut(b, toks), Starts(toks)[i]) == Arg(s, toks[i])
    {
      CutArguments(b, i);
      StartsIndex(toks, i);
    }
  }

  // ---------------------------------------------------------------------------
  // The tokenizer, as the source runs it
  // ---------------------------------------------------------------------------

  lemma ScanAfterSkip(s: string, p: nat, argc: nat)
    requires p <= |s|
    ensures Scan(s, SkipWs(s, p), argc) == Scan(s, p, argc)
  {
    var q := SkipWs(s, p);
    assert SkipWs(s, q) == q;
  }

  /** From position `p` on, the buffer still holds the text `s` and its terminating NUL. */
  ghost predicate Agrees(a: seq<char>, s: string, p: nat)
  {
    && p <= |s| < |a| && a[|s|] == '\0'
    && forall k :: p <= k < |s| ==> a[k] == s[k] && s[k] != '\0'
  }

  lemma AgreesAt(a: seq<char>, s: string, p: nat, q: nat)
    requires Agrees(a, s, p) && p <= q <= |s|
    ensures q < |a| && (a[q] == '\0' <==> q == |s|) && (q < |s| ==> a[q] == s[q])
  {
  }

  /** The whole text of a line agrees with its buffer. */
  lemma TextAgrees(b: seq<char>)
    requires NulFrom(b, 0)
    ensures Agrees(b, Text(b), 0)
  {
  }

  /** The whitespace-skipping loops of `PluginManager::init`'s tokenizer, before and between tokens. */
  method SkipWhitespace(line: array<char>, p: nat, ghost s: string) returns (q: nat)
    requires Agrees(line[..], s, p)
    ensures q == SkipWs(s, p)
  {
    q := p;
    while line[q] != '\0' && IsWslfcr(line[q])
      invariant p <= q <= |s| && SkipWs(s, q) == SkipWs(s, p)
      decreases |s| - q
    {
      q := q + 1;
    }
  }

  /** The tokenizer's scan of a quoted token for its closing quote. */
  method FindQuote(line: array<char>, p: nat, ghost s: string) returns (e: nat)
    requires Agrees(line[..], s, p)
    ensures e == QuoteEnd(s, p)
  {
    e := p;
    while line[e] != '\0' && line[e] != '"'
      invariant p <= e <= |s| && QuoteEnd(s, e) == QuoteEnd(s, p)
      decreases |s| - e
    {
      e := e + 1;
    }
  }

  /** The tokenizer's scan of an unquoted token for its end. */
  method FindWordEnd(line: array<char>, p: nat, ghost s: string) returns (e: nat)
    requires Agrees(line[..], s, p)
    ensures e == WordEnd(s, p)
  {
    e := p;
    while line[e] != '\0' && !IsWslfcr(line[e]) && line[e] != '#'
      invariant p <= e <= |s| && WordEnd(s, e) == WordEnd(s, p)
      decreases |s| - e
    {
      e := e + 1;
    }
  }

  /**
   * Takes the token whose first character is at `q`, the first non-whitespace
   * position after `p`: a quoted one up to its closing quote,
   * another up to whitespace or `#`; the token is cut unless its scan reached
   * the end of the line or, unquoted, a `#`.
   */
  method ReadToken(line: array<char>, p: nat, q: nat, ghost s: string) returns (t: Token)
    requires Agrees(line[..], s, p) && q == SkipWs(s, p) && q < |s| && s[q] != '#'
    ensures t == FirstToken(s, p)
  {
    var start: nat, e: nat, quoted: bool;
    if line[q] == '"' {
      start := q + 1;
      e := FindQuote(line, start, s);
      quoted := true;
    } else {
      start := q;
      e := FindWordEnd(line, start, s);
      quoted := false;
    }
    var cut := line[e] != '\0' && (quoted || line[e] != '#');
    t := Token(start, e, cut, quoted);
  }

  lemma {:induction false} StartsIndex(toks: seq<Token>, i: nat)
    requires i < |toks|
    ensures Starts(toks)[i] == toks[i].start
  {
    if i > 0 {
      StartsIndex(toks[1..], i - 1);
    }
  }

  lemma {:induction false} StartsSnoc(toks: seq<Token>, t: Token)
    ensures Starts(toks + [t]) == Starts(toks) + [t.start]
  {
    if toks != [] {
      assert (toks + [t])[1..] == toks[1..] + [t];
      StartsSnoc(toks[1..], t);
    }
  }

  /** Taking the first token moves it from the scan still to do to the tokens done. */
  lemma ScanDone(s: string, p: nat, argc: nat, done: seq<Token>, all: seq<Token>, q: nat)
    requires p <= |s| && done + Scan(s, p, argc) == all
    requires argc >= MaxPluginArgs || (q == SkipWs(s, p) && (q == |s| || s[q] == '#'))
    ensures done == all
  {
    assert Scan(s, p, argc) == [];
    assert done + [] == done;
  }

  lemma ScanAppend(s: string, p: nat, argc: nat, done: seq<Token>, t: Token, all: seq<Token>)
    requires p <= |s| && done + Scan(s, p, argc) == all
    requires t.cut ==> t.end < |s| && Scan(s, p, argc) == [t] + Scan(s, t.end + 1, argc + 1)
    requires !t.cut ==> Scan(s, p, argc) == [t]
    ensures t.cut ==> (done + [t]) + Scan(s, t.end + 1, argc + 1) == all
    ensures !t.cut ==> done + [t] == all
  {
    if t.cut {
      assert (done + [t]) + Scan(s, t.end + 1, argc + 1) == done + ([t] + Scan(s, t.end + 1, argc + 1));
    }
  }

  /** Cutting a token in the buffer keeps the buffer equal to `Cut` and the rest of the text in place. */
  lemma CutStep(b: seq<char>, s: string, p: nat, done: seq<Token>, t: Token, before: seq<char>, after: seq<char>)
    requires Agrees(before, s, p) && before == Cut(b, done)
    requires TokenOk(s, p, t) && t.cut
    requires t.end < |before| && after == before[t.end := '\0']
    ensures Agrees(after, s, t.end + 1) && after == Cut(b, done + [t])
  {
    CutSnoc(b, done, t);
  }

  /**
   * The tokenizer of `PluginManager::init` for one line: skip leading whitespace;
   * on a blank or comment line report `skip`; otherwise collect the tokens,
   * NUL-terminating them in the buffer. Gives the token count and the
   * position each token starts at.
   */
  method TokenizeLine(line: array<char>) returns (skip: bool, argc: nat, argv: seq<nat>)
    requires NulFrom(line[..], 0)
    modifies line
    ensures skip <==> Blank(Text(old(line[..])))
    ensures argc == |Tokens(Text(old(line[..])))| && argv == Starts(Tokens(Text(old(line[..]))))
    ensures line[..] == Cut(old(line[..]), Tokens(Text(old(line[..]))))
  {
    ghost var b := line[..];
    ghost var s := Text(b);
    TextAgrees(b);
    var p := SkipWhitespace(line, 0, s);
    if line[p] == '\0' || line[p] == '#' {
      BlankLineHasNoTokens(s);
      return true, 0, [];
    }
    assert !Blank(s);
    ScanAfterSkip(s, 0, 0);
    skip := false;
    argc, argv := CutTokens(line, p, b, s);
  }

  /** Overwrites the terminator of a cut token with NUL (`*p++ = '\0'`). */
  method Terminate(line: array<char>, ghost b: seq<char>, ghost s: string, ghost p: nat, ghost done: seq<Token>, t: Token)
    requires Agrees(line[..], s, p) && line[..] == Cut(b, done)
    requires TokenOk(s, p, t) && t.cut
    modifies line
    ensures Agrees(line[..], s, t.end + 1) && line[..] == Cut(b, done + [t])
  {
    ghost var before := line[..];
    line[t.end] := '\0';
    CutStep(b, s, p, done, t, before, line[..]);
  }

  /**
   * One pass of the token loop once a token is known to start at `q`: read the
   * token and, when it was ended by a separator, cut it there.
   */
  method TakeToken(line: array<char>, p: nat, q: nat, argc: nat, ghost b: seq<char>, ghost s: string,
                   ghost done: seq<Token>, ghost all: seq<Token>) returns (t: Token)
    requires Agrees(line[..], s, p) && line[..] == Cut(b, done) && done + Scan(s, p, argc) == all
    requires argc < MaxPluginArgs && q == SkipWs(s, p) && q < |s| && s[q] != '#'
    modifies line
    ensures TokenOk(s, p, t) && line[..] == Cut(b, done + [t])
    ensures t.cut ==> t.end < |s| && Agrees(line[..], s, t.end + 1) && (done + [t]) + Scan(s, t.end + 1, argc + 1) == all
    ensures !t.cut ==> done + [t] == all
  {
    t := ReadToken(line, p, q, s);
    ScanStep(s, p, argc, t);
    ScanAppend(s, p, argc, done, t, all);
    if t.cut {
      Terminate(line, b, s, p, done, t);
    } else {
      assert Cut(b, done + [t]) == Cut(b, done);
    }
  }

  /**
   * The tokenizer's token loop, from the first non-whitespace character
   * of the line: takes the tokens `Scan` lists and cuts them in the buffer.
   */
  method CutTokens(line: array<char>, p0: nat, ghost b: seq<char>, ghost s: string) returns (argc: nat, argv: seq<nat>)
    requires Agrees(line[..], s, p0) && line[..] == b
    modifies line
    ensures argc == |Scan(s, p0, 0)| && argv == Starts(Scan(s, p0, 0))
    ensures line[..] == Cut(b, Scan(s, p0, 0))
  {
    var p := p0;
    argc, argv := 0, [];
    ghost var done: seq<Token> := [];
    ghost var all := Scan(s, p0, 0);
    while true
      invariant Agrees(line[..], s, p)
      invariant argc == |done| && argv == Starts(done)
      invariant done + Scan(s, p, argc) == all
      invariant line[..] == Cut(b, done)
      decreases |s| - p
    {
      if argc >= MaxPluginArgs {
        ScanDone(s, p, argc, done, all, p);
        break;
      }
      var q := SkipWhitespace(line, p, s);
      AgreesAt(line[..], s, p, q);
      if line[q] == '\0' || line[q] == '#' {
        ScanDone(s, p, argc, done, all, q);
        break;
      }
      var t := TakeToken(line, p, q, argc, b, s, done, all);
      StartsSnoc(done, t);
      argc, argv := argc + 1, argv + [t.start];
      done := done + [t];
      if !t.cut {
        break;
      }
      p := t.end + 1;
    }
  }

  // ---------------------------------------------------------------------------
  // Expansion and the argument vector
  // ---------------------------------------------------------------------------

  /**
   * `expand(arg)`: only an argument that starts with `$` is looked up, under
   * the name that follows the `$`; `lookup` stands for the records store and
   * gives the value as text, or nothing when there is no such parameter.
   */
  function Expand(arg: string, lookup: string -> Option<string>): (r: Option<string>)
    ensures r.Some? ==> |arg| > 0 && arg[0] == '$'
  {
    if |arg| == 0 || arg[0] != '$' then None else lookup(arg[1..])
  }

  /** The expansion step of `PluginManager::init`: each argument is replaced by its expansion when there is one. */
  function ExpandAll(args: seq<string>, lookup: string -> Option<string>): (r: seq<string>)
    ensures |r| == |args|
    ensures forall i :: 0 <= i < |args| ==> r[i] == Expand(args[i], lookup).GetOr(args[i])
    ensures forall i :: 0 <= i < |args| && (|args[i]| == 0 || args[i][0] != '$') ==> r[i] == args[i]
  {
    if args == [] then [] else [Expand(args[0], lookup).GetOr(args[0])] + ExpandAll(args[1..], lookup)
  }

  /** The loop of `PluginManager::init` that expands the arguments one by one. */
  method ExpandArgs(args: seq<string>, lookup: string -> Option<string>) returns (r: seq<string>)
    ensures r == ExpandAll(args, lookup)
  {
    r := [];
    var i := 0;
    while i < |args|
      invariant 0 <= i <= |args| && |r| == i
      invariant forall j :: 0 <= j < i ==> r[j] == Expand(args[j], lookup).GetOr(args[j])
    {
      var v := Expand(args[i], lookup);
      var a := args[i];
      if v.Some? {
        a := v.value;
      }
      r := r + [a];
      i := i + 1;
    }
  }

  /**
   * The argument vector `PluginManager::init` hands to `PluginManager::load`, up to and including
   * its terminating null; when all 64 slots are taken, the last one is
   * overwritten by the null.
   */
  function FinalArgv(args: seq<string>): (r: seq<Option<string>>)
    requires |args| <= MaxPluginArgs
    ensures |args| < MaxPluginArgs ==> |r| == |args| + 1
    ensures |args| == MaxPluginArgs ==> |r| == MaxPluginArgs
    ensures r[|r| - 1] == None
    ensures forall i :: 0 <= i < |r| - 1 ==> r[i] == Some(args[i])
  {
    var kept := if |args| < MaxPluginArgs then args else args[..MaxPluginArgs - 1];
    seq(|kept|, i requires 0 <= i < |kept| => Some(kept[i])) + [None]
  }

  /**
   * With 64 arguments, `load` is told there are 64 but the 64th slot holds
   * the null: the last argument never reaches the plugin.
   */
  lemma FullLineLosesLastArgument(args: seq<string>)
    requires |args| == MaxPluginArgs
    ensures FinalArgv(args)[|args| - 1] == None
    ensures forall i :: 0 <= i < |args| - 1 ==> FinalArgv(args)[i] == Some(args[i])
  {
  }

  /** The arguments the tokens stand for. */
  function TokenArgs(s: string, toks: seq<Token>): (r: seq<string>)
    requires forall i :: 0 <= i < |toks| ==> toks[i].start <= toks[i].end <= |s|
    ensures |r| == |toks| && forall i :: 0 <= i < |toks| ==> r[i] == Arg(s, toks[i])
  {
    seq(|toks|, i requires 0 <= i < |toks| => Arg(s, toks[i]))
  }

  /** The arguments of a line: the tokens' C strings, after expansion. */
  function LineArgs(s: string, lookup: string -> Option<string>): (r: seq<string>)
    ensures |r| == |Tokens(s)| <= MaxPluginArgs
  {
    ScanShape(s, 0, 0);
    assert forall i :: 0 <= i < |Tokens(s)| ==> TokenOk(s, 0, Tokens(s)[i]);
    ExpandAll(TokenArgs(s, Tokens(s)), lookup)
  }
}
