/**
 * tests/tools/traffic-replay/translator.py: turns the per-transaction JSON
 * logs of a recorder into replay sessions. `condenseHeaders` flattens a header
 * list into an HTTP header block; `translate` is one worker draining the queue
 * of input files, writing one session file per log.
 *
 * JSON parsing and printing, the clock, the file system and the thread pool
 * are outside the model: a file arrives already parsed (or not), the clock
 * reading is a parameter, and the outputs are returned as (path, session)
 * pairs in the order they are written.
 */
module Translator {
  import opened Wrappers

  // ---------------------------------------------------------------------------
  // Header blocks
  // ---------------------------------------------------------------------------

  /** A header as the input lists it: a name and a value. */
  type Header = (string, string)

  const CrLf: string := "\r\n"
  const NameSep: string := ": "

  /** One header line: `header[0] + ': ' + header[1] + '\r\n'`. */
  function HeaderLine(h: Header): string
  {
    h.0 + NameSep + h.1 + CrLf
  }

  /** The header lines, in order. */
  function HeaderLines(headers: seq<Header>): string
  {
    if headers == [] then "" else HeaderLine(headers[0]) + HeaderLines(headers[1..])
  }

  /** What `condenseHeaders` returns: CR LF, the header lines, and CR LF. */
  function Condensed(headers: seq<Header>): string
  {
    CrLf + HeaderLines(headers) + CrLf
  }

  lemma {:induction false} HeaderLinesSnoc(headers: seq<Header>, h: Header)
    ensures HeaderLines(headers + [h]) == HeaderLines(headers) + HeaderLine(h)
  {
    if headers == [] {
      assert [h][1..] == [];
    } else {
      assert (headers + [h])[1..] == headers[1..] + [h];
      HeaderLinesSnoc(headers[1..], h);
    }
  }

  /** `condenseHeaders`: the loop that builds the block. */
  method CondenseHeaders(headers: seq<Header>) returns (result: string)
    ensures result == Condensed(headers)
  {
    result := CrLf;
    var i := 0;
    while i < |headers|
      invariant 0 <= i <= |headers|
      invariant result == CrLf + HeaderLines(headers[..i])
    {
      HeaderLinesSnoc(headers[..i], headers[i]);
      assert headers[..i + 1] == headers[..i] + [headers[i]];
      result := result + HeaderLine(headers[i]);
      i := i + 1;
    }
    assert headers[..i] == headers;
    result := result + CrLf;
  }

  /** The combined length of the names and values, with 4 characters for each header's `: ` and CR LF. */
  function HeadersSize(headers: seq<Header>): nat
  {
    if headers == [] then 0 else |headers[0].0| + |headers[0].1| + 4 + HeadersSize(headers[1..])
  }

  /** A block is 4 characters longer than its headers' names, values and separators. */
  lemma {:induction false} CondensedLength(headers: seq<Header>)
    ensures |Condensed(headers)| == 4 + HeadersSize(headers)
  {
    HeaderLinesLength(headers);
  }

  lemma {:induction false} HeaderLinesLength(headers: seq<Header>)
    ensures |HeaderLines(headers)| == HeadersSize(headers)
  {
    if headers != [] {
      HeaderLinesLength(headers[1..]);
    }
  }

  /** An empty header list gives just the two line ends. */
  lemma CondensedEmpty()
    ensures Condensed([]) == "\r\n\r\n"
  {
  }

  /** The position of the first `c` in `s`, or `|s|` when there is none. */
  function IndexOf(s: string, c: char): (i: nat)
    ensures i <= |s| && (i < |s| ==> s[i] == c)
    ensures forall k :: 0 <= k < i ==> s[k] != c
  {
    if s == [] then 0 else if s[0] == c then 0 else 1 + IndexOf(s[1..], c)
  }

  /**
   * A reader of header lines: each line is a name up to the first `:`, a
   * space, and a value up to CR LF.
   */
  function ParseHeaderLines(s: string): Option<seq<Header>>
    decreases |s|
  {
    if s == [] then Some([])
    else
      var i := IndexOf(s, ':');
      if i + 2 > |s| || s[i + 1] != ' ' then None
      else
        var rest := s[i + 2..];
        var j := IndexOf(rest, '\r');
        if j + 2 > |rest| || rest[j + 1] != '\n' then None
        else
          match ParseHeaderLines(rest[j + 2..])
          case None => None
          case Some(tail) => Some([(s[..i], rest[..j])] + tail)
  }

  /** Names without `:` and values without CR: the block can be read back. */
  predicate Plain(headers: seq<Header>)
  {
    forall k :: 0 <= k < |headers| ==> ':' !in headers[k].0 && '\r' !in headers[k].1
  }

  lemma IndexOfPrefix(a: string, b: string, c: char)
    requires c !in a
    ensures IndexOf(a + [c] + b, c) == |a|
  {
    var s := a + [c] + b;
    assert s[|a|] == c;
    assert forall k :: 0 <= k < |a| ==> s[k] == a[k];
  }

  /** The reader takes one header line off the front. */
  lemma ParseLine(h: Header, tail: string)
    requires ':' !in h.0 && '\r' !in h.1
    ensures ParseHeaderLines(HeaderLine(h) + tail) ==
      match ParseHeaderLines(tail)
      case None => None
      case Some(t) => Some([h] + t)
  {
    var rest := h.1 + ['\r'] + (['\n'] + tail);
    LineParts(h.0, h.1, tail);
    IndexOfPrefix(h.0, [' '] + rest, ':');
    Split2(h.0, ':', ' ', rest);
    IndexOfPrefix(h.1, ['\n'] + tail, '\r');
    Split2(h.1, '\r', '\n', tail);
  }

  lemma LineParts(name: string, value: string, tail: string)
    ensures name + NameSep + value + CrLf + tail == name + [':'] + ([' '] + (value + ['\r'] + (['\n'] + tail)))
  {
  }

  lemma Split2(a: string, c: char, d: char, r: string)
    ensures |a + [c] + ([d] + r)| >= |a| + 2 && (a + [c] + ([d] + r))[|a| + 1] == d
    ensures (a + [c] + ([d] + r))[..|a|] == a && (a + [c] + ([d] + r))[|a| + 2..] == r
  {
  }

  /** Reading the header lines back gives the headers. */
  lemma {:induction false} HeaderLinesRoundTrip(headers: seq<Header>)
    requires Plain(headers)
    ensures ParseHeaderLines(HeaderLines(headers)) == Some(headers)
  {
    if headers != [] {
      assert Plain(headers[1..]) by {
        forall k | 0 <= k < |headers[1..]|
          ensures ':' !in headers[1..][k].0 && '\r' !in headers[1..][k].1
        {
          assert headers[1..][k] == headers[k + 1];
        }
      }
      HeaderLinesRoundTrip(headers[1..]);
      ParseLine(headers[0], HeaderLines(headers[1..]));
      assert [headers[0]] + headers[1..] == headers;
    }
  }

  /** The block `condenseHeaders` builds holds exactly the headers it was given. */
  lemma CondensedRoundTrip(headers: seq<Header>)
    requires Plain(headers)
    ensures var c := Condensed(headers);
      && |c| >= 4 && c[..2] == CrLf && c[|c| - 2..] == CrLf
      && ParseHeaderLines(c[2..|c| - 2]) == Some(headers)
  {
    var c := Condensed(headers);
    assert c[2..|c| - 2] == HeaderLines(headers);
    HeaderLinesRoundTrip(headers);
  }

  // ---------------------------------------------------------------------------
  // Parsed logs
  // ---------------------------------------------------------------------------

  /**
   * A value as `json.load` gives it. An object lists its members as the
   * resulting dict holds them: distinct keys, in document order.
   * Floating-point numbers are not modelled.
   */
  datatype Value =
    | Null
    | Bool(b: bool)
    | Num(n: int)
    | Str(s: string)
    | Arr(items: seq<Value>)
    | Obj(members: seq<(string, Value)>)

  /** `data[key]` on an object: the member's value, or nothing (a `KeyError`). */
  function Member(members: seq<(string, Value)>, key: string): (r: Option<Value>)
    ensures r.Some? ==> (key, r.value) in members
    ensures r.None? ==> forall m :: m in members ==> m.0 != key
  {
    if members == [] then None
    else if members[0].0 == key then Some(members[0].1)
    else Member(members[1..], key)
  }

  /** `data[key]`: only an object has members. */
  function Field(data: Value, key: string): Option<Value>
  {
    if data.Obj? then Member(data.members, key) else None
  }

  /**
   * `header[0] + ': ' + header[1]` for one entry of a header list: an array
   * whose first two items are strings, or a string of at least two
   * characters (indexed character by character). Anything else raises.
   */
  function HeaderOf(item: Value): (r: Option<Header>)
    ensures r.Some? ==> (item.Arr? && |item.items| >= 2) || (item.Str? && |item.s| >= 2)
    ensures item.Arr? && |item.items| >= 2 && item.items[0].Str? && item.items[1].Str?
      ==> r == Some((item.items[0].s, item.items[1].s))
  {
    match item
    case Arr(items) =>
      if |items| >= 2 && items[0].Str? && items[1].Str? then Some((items[0].s, items[1].s)) else None
    case Str(s) =>
      if |s| >= 2 then Some(([s[0]], [s[1]])) else None
    case _ => None
  }

  function HeadersOfItems(items: seq<Value>): (r: Option<seq<Header>>)
    ensures r.Some? ==> |r.value| == |items|
  {
    if items == [] then Some([])
    else
      var h := HeaderOf(items[0]);
      var t := HeadersOfItems(items[1..]);
      if h.None? || t.None? then None else Some([h.value] + t.value)
  }

  /** A header list is accepted exactly when every entry is a header. */
  lemma {:induction false} HeadersOfItemsIff(items: seq<Value>)
    ensures HeadersOfItems(items).Some? <==> forall k :: 0 <= k < |items| ==> HeaderOf(items[k]).Some?
    ensures HeadersOfItems(items).Some? ==>
      forall k :: 0 <= k < |items| ==> HeadersOfItems(items).value[k] == HeaderOf(items[k]).value
  {
    if items != [] {
      HeadersOfItemsIff(items[1..]);
      assert forall k :: 0 < k < |items| ==> items[k] == items[1..][k - 1];
    }
  }

  function KeyValues(members: seq<(string, Value)>): (r: seq<Value>)
    ensures |r| == |members|
  {
    if members == [] then [] else [Str(members[0].0)] + KeyValues(members[1..])
  }

  /**
   * The headers `condenseHeaders` iterates over: the entries of an array, the
   * one-character strings of a string, or the keys of an object. Other
   * values are not iterable.
   */
  function HeadersOf(v: Value): Option<seq<Header>>
  {
    match v
    case Arr(items) => HeadersOfItems(items)
    case Str(s) => HeadersOfItems(seq(|s|, k requires 0 <= k < |s| => Str([s[k]])))
    case Obj(members) => HeadersOfItems(KeyValues(members))
    case _ => None
  }

  /** A header list given as a string is only accepted when it is empty. */
  lemma StringHeadersOnlyWhenEmpty(s: string)
    ensures HeadersOf(Str(s)).Some? <==> s == ""
  {
    if s != "" {
      var items := seq(|s|, k requires 0 <= k < |s| => Str([s[k]]));
      assert HeaderOf(items[0]).None?;
    }
  }

  // ---------------------------------------------------------------------------
  // Sessions
  // ---------------------------------------------------------------------------

  /** One side of a replay transaction. */
  datatype Message = Message(timestamp: Value, headers: string, body: Value)

  datatype Txn = Txn(uuid: Value, request: Message, response: Message)

  /** A replay session: the time of translation, the format version, the transactions. */
  datatype Session = Session(timestamp: int, version: string, txns: seq<Txn>)

  const Version: string := "0.1"

  /** A start line followed by a header block, as the request and response headers are built. */
  function HeaderText(line: Option<Value>, hdr: Option<Value>): Option<string>
  {
    if line.Some? && line.value.Str? && hdr.Some? && HeadersOf(hdr.value).Some? then
      Some(line.value.s + Condensed(HeadersOf(hdr.value).value))
    else None
  }

  /** The keys of a log that `translate` reads. */
  const KeyId: string := "transaction-id"
  const KeyStart: string := "start-time"
  const KeyRequestLine: string := "ua-request-line"
  const KeyRequestHeaders: string := "ua-request-hdr"
  const KeyRequestBody: string := "ua-content"
  const KeyEnd: string := "end-time"
  const KeyResponseLine: string := "proxy-response-line"
  const KeyResponseHeaders: string := "proxy-response-hdr"
  const KeyResponseBody: string := "upstream-content"

  /**
   * The `txn` dictionary and the session wrapped around it in `translate`, for one parsed log: a session stamped `now`,
   * version "0.1", holding one transaction. Nothing when the log is not an
   * object, lacks a key, or has start lines or header lists of the wrong
   * kind (the source raises there).
   */
  function TranslateRecord(data: Value, now: int): (r: Option<Session>)
    ensures r.Some? ==> r.value.timestamp == now && r.value.version == Version && |r.value.txns| == 1
    ensures r.Some? ==> Field(data, KeyId).Some? && r.value.txns[0].uuid == Field(data, KeyId).value
    ensures r.Some? ==> Field(data, KeyStart).Some? && r.value.txns[0].request.timestamp == Field(data, KeyStart).value
    ensures r.Some? ==> Field(data, KeyRequestBody).Some? && r.value.txns[0].request.body == Field(data, KeyRequestBody).value
    ensures r.Some? ==> Field(data, KeyEnd).Some? && r.value.txns[0].response.timestamp == Field(data, KeyEnd).value
    ensures r.Some? ==> Field(data, KeyResponseBody).Some? && r.value.txns[0].response.body == Field(data, KeyResponseBody).value
    ensures r.Some? <==>
      && data.Obj?
      && Field(data, KeyId).Some? && Field(data, KeyStart).Some? && Field(data, KeyRequestBody).Some?
      && Field(data, KeyEnd).Some? && Field(data, KeyResponseBody).Some?
      && Field(data, KeyRequestLine).Some? && Field(data, KeyRequestLine).value.Str?
      && Field(data, KeyRequestHeaders).Some? && HeadersOf(Field(data, KeyRequestHeaders).value).Some?
      && Field(data, KeyResponseLine).Some? && Field(data, KeyResponseLine).value.Str?
      && Field(data, KeyResponseHeaders).Some? && HeadersOf(Field(data, KeyResponseHeaders).value).Some?
  {
    var id := Field(data, KeyId);
    var start := Field(data, KeyStart);
    var reqHeaders := HeaderText(Field(data, KeyRequestLine), Field(data, KeyRequestHeaders));
    var reqBody := Field(data, KeyRequestBody);
    var end := Field(data, KeyEnd);
    var respHeaders := HeaderText(Field(data, KeyResponseLine), Field(data, KeyResponseHeaders));
    var respBody := Field(data, KeyResponseBody);
    if id.None? || start.None? || reqHeaders.None? || reqBody.None? || end.None? || respHeaders.None? || respBody.None? then None
    else
      var txn := Txn(id.value, Message(start.value, reqHeaders.value, reqBody.value),
                     Message(end.value, respHeaders.value, respBody.value));
      Some(Session(now, Version, [txn]))
  }

  /**
   * The request headers are the request line followed by the block of the
   * request header list, and likewise for the response.
   */
  lemma TranslatedHeaders(data: Value, now: int)
    requires TranslateRecord(data, now).Some?
    ensures var txn := TranslateRecord(data, now).value.txns[0];
      && HeaderText(Field(data, KeyRequestLine), Field(data, KeyRequestHeaders)) == Some(txn.request.headers)
      && HeaderText(Field(data, KeyResponseLine), Field(data, KeyResponseHeaders)) == Some(txn.response.headers)
  {
  }

  /** A start line and a header block can be taken apart again. */
  lemma HeaderTextRoundTrip(line: string, hdr: Value, hs: seq<Header>, h: string)
    requires HeadersOf(hdr) == Some(hs) && Plain(hs)
    requires HeaderText(Some(Str(line)), Some(hdr)) == Some(h)
    ensures |h| >= |line| + 4 && h[..|line|] == line
    ensures ParseHeaderLines(h[|line| + 2..|h| - 2]) == Some(hs)
  {
    var c := Condensed(hs);
    assert h == line + c;
    CondensedRoundTrip(hs);
    assert h[|line| + 2..|h| - 2] == c[2..|c| - 2];
  }


  // ---------------------------------------------------------------------------
  // The worker
  // ---------------------------------------------------------------------------

  /** `f[:-4]`: the name without its last four characters (empty when shorter). */
  function StripExt(f: string): (r: string)
    ensures |r| <= |f| && f[..|r|] == r
    ensures |f| >= 4 ==> f == r + f[|f| - 4..]
    ensures |f| < 4 ==> |r| == 0
  {
    if |f| >= 4 then f[..|f| - 4] else ""
  }

  /** A log named with a four-character extension gives back its stem. */
  lemma StripExtRoundTrip(stem: string, ext: string)
    requires |ext| == 4
    ensures StripExt(stem + ext) == stem
  {
    assert (stem + ext)[..|stem|] == stem;
  }

  /** The name skipped in test mode. */
  const Placeholder: string := "REPLACE ME?"

  /** The cap on translations in test mode. */
  const TestCap: nat := 5000

  /** An input file: its name and what `json.load` made of it (nothing when it failed). */
  datatype InputFile = InputFile(name: string, data: Option<Value>)

  /** A file written: its path and the session in it. */
  datatype Output = Output(path: string, session: Session)

  /**
   * What a worker did: the files written, how many files it took from the
   * queue, and whether it stopped on an exception.
   */
  datatype Outcome = Outcome(written: seq<Output>, taken: nat, raised: bool)

  /** `"{0}/{1}.json".format(out_dir, name)`. */
  function OutPath(outDir: string, name: string): string
  {
    outDir + "/" + StripExt(name) + ".json"
  }

  /**
   * The worker from file `i` on, with `count` translations done: in test
   * mode it stops (having taken one more file) once 5000 are done; it skips
   * the placeholder name in test mode and files that fail to parse; a log
   * that cannot be translated raises and ends the worker.
   */
  function Run(files: seq<InputFile>, i: nat, isTesting: bool, tr: Value -> Option<Session>, outDir: string, count: nat): (r: Outcome)
    requires i <= |files|
    ensures i <= r.taken <= |files|
    decreases |files| - i
  {
    if i == |files| then Outcome([], i, false)
    else if count == TestCap && isTesting then Outcome([], i + 1, false)
    else
      var f := files[i];
      if StripExt(f.name) == Placeholder && isTesting then Run(files, i + 1, isTesting, tr, outDir, count)
      else if f.data.None? then Run(files, i + 1, isTesting, tr, outDir, count)
      else
        match tr(f.data.value)
        case None => Outcome([], i + 1, true)
        case Some(session) =>
          var rest := Run(files, i + 1, isTesting, tr, outDir, count + 1);
          Outcome([Output(OutPath(outDir, f.name), session)] + rest.written, rest.taken, rest.raised)
  }

  /** The translation of every log of one run, stamped with the same clock reading. */
  function Translation(now: int): Value -> Option<Session>
  {
    data => TranslateRecord(data, now)
  }

  /** `translate`, run by one worker over the whole queue. */
  method Translate(files: seq<InputFile>, isTesting: bool, now: int, outDir: string) returns (r: Outcome)
    ensures r == Run(files, 0, isTesting, Translation(now), outDir, 0)
  {
    r := Work(files, isTesting, Translation(now), outDir);
  }

  /**
   * The queue loop of `translate`, with the per-record translation (the body
   * of the `try` from the `txn` dictionary on) passed as `translation`.
   */
  method Work(files: seq<InputFile>, isTesting: bool, translation: Value -> Option<Session>, outDir: string) returns (r: Outcome)
    ensures r == Run(files, 0, isTesting, translation, outDir, 0)
  {
    var written: seq<Output> := [];
    var taken := 0;
    var count := 0;
    var raised := false;
    ghost var all := Run(files, 0, isTesting, translation, outDir, 0);
    while taken < |files|
      invariant taken <= |files| && count == |written|
      invariant all == After(written, Run(files, taken, isTesting, translation, outDir, count))
      decreases |files| - taken
    {
      var f := files[taken];
      taken := taken + 1;
      if count == TestCap && isTesting {
        break;
      }
      var name := StripExt(f.name);
      if name == Placeholder && isTesting {
        continue;
      }
      if f.data.None? {
        continue;
      }
      var session := translation(f.data.value);
      if session.None? {
        raised := true;
        break;
      }
      AfterAppend(written, Output(OutPath(outDir, f.name), session.value), Run(files, taken, isTesting, translation, outDir, count + 1));
      written := written + [Output(OutPath(outDir, f.name), session.value)];
      count := count + 1;
    }
    return Outcome(written, taken, raised);
  }

  /** The outcome `rest` preceded by the files already written. */
  function After(written: seq<Output>, rest: Outcome): Outcome
  {
    Outcome(written + rest.written, rest.taken, rest.raised)
  }

  lemma AfterAppend(written: seq<Output>, o: Output, rest: Outcome)
    ensures After(written, Outcome([o] + rest.written, rest.taken, rest.raised)) == After(written + [o], rest)
  {
    assert written + ([o] + rest.written) == (written + [o]) + rest.written;
  }

  /** In test mode a worker writes at most 5000 files. */
  lemma {:induction false} TestModeCap(files: seq<InputFile>, i: nat, tr: Value -> Option<Session>, outDir: string, count: nat)
    requires i <= |files| && count <= TestCap
    ensures count + |Run(files, i, true, tr, outDir, count).written| <= TestCap
    decreases |files| - i
  {
    if i < |files| && count != TestCap {
      TestModeCap(files, i + 1, tr, outDir, count);
      if count + 1 <= TestCap {
        TestModeCap(files, i + 1, tr, outDir, count + 1);
      }
    }
  }

  /** Outside test mode, a worker that raises nothing takes every file. */
  lemma {:induction false} DrainsQueue(files: seq<InputFile>, i: nat, tr: Value -> Option<Session>, outDir: string, count: nat)
    requires i <= |files|
    ensures !Run(files, i, false, tr, outDir, count).raised ==> Run(files, i, false, tr, outDir, count).taken == |files|
    decreases |files| - i
  {
    if i < |files| {
      DrainsQueue(files, i + 1, tr, outDir, count);
      DrainsQueue(files, i + 1, tr, outDir, count + 1);
    }
  }

  /**
   * A file the worker translates when it reaches it: not the test-mode
   * placeholder, parsed, and translatable.
   */
  predicate Admissible(f: InputFile, isTesting: bool, tr: Value -> Option<Session>)
  {
    !(StripExt(f.name) == Placeholder && isTesting) && f.data.Some? && tr(f.data.value).Some?
  }

  /** The files written for the admissible inputs among `files[i..n]`, in queue order. */
  function Kept(files: seq<InputFile>, i: nat, n: nat, isTesting: bool, tr: Value -> Option<Session>, outDir: string): seq<Output>
    requires i <= n <= |files|
    decreases n - i
  {
    if i == n then []
    else
      var f := files[i];
      (if Admissible(f, isTesting, tr) then [Output(OutPath(outDir, f.name), tr(f.data.value).value)] else [])
      + Kept(files, i + 1, n, isTesting, tr, outDir)
  }

  /**
   * A worker writes exactly the admissible files among those it took, in
   * queue order. The one exception is the test-mode stop: the file taken when
   * 5000 translations are done is not translated.
   */
  lemma {:induction false} RunWritesKept(files: seq<InputFile>, i: nat, isTesting: bool, tr: Value -> Option<Session>, outDir: string, count: nat)
    requires i <= |files|
    ensures var r := Run(files, i, isTesting, tr, outDir, count);
      || r.written == Kept(files, i, r.taken, isTesting, tr, outDir)
      || (isTesting && !r.raised && count + |r.written| == TestCap && i < r.taken
          && r.written == Kept(files, i, r.taken - 1, isTesting, tr, outDir))
    ensures !isTesting ==> Run(files, i, isTesting, tr, outDir, count).written
                           == Kept(files, i, Run(files, i, isTesting, tr, outDir, count).taken, isTesting, tr, outDir)
    decreases |files| - i
  {
    if i == |files| || (count == TestCap && isTesting) {
      return;
    }
    var f := files[i];
    if (StripExt(f.name) == Placeholder && isTesting) || f.data.None? {
      RunWritesKept(files, i + 1, isTesting, tr, outDir, count);
      var r := Run(files, i + 1, isTesting, tr, outDir, count);
      assert Run(files, i, isTesting, tr, outDir, count) == r;
      KeptSkip(files, i, r.taken, isTesting, tr, outDir);
      if i + 1 < r.taken {
        KeptSkip(files, i, r.taken - 1, isTesting, tr, outDir);
      }
    } else if tr(f.data.value).Some? {
      RunWritesKept(files, i + 1, isTesting, tr, outDir, count + 1);
      var rest := Run(files, i + 1, isTesting, tr, outDir, count + 1);
      var o := Output(OutPath(outDir, f.name), tr(f.data.value).value);
      assert Run(files, i, isTesting, tr, outDir, count) == Outcome([o] + rest.written, rest.taken, rest.raised);
      KeptTake(files, i, rest.taken, isTesting, tr, outDir);
      if i + 1 < rest.taken {
        KeptTake(files, i, rest.taken - 1, isTesting, tr, outDir);
      }
    } else {
      assert Run(files, i, isTesting, tr, outDir, count) == Outcome([], i + 1, true);
      KeptSkip(files, i, i + 1, isTesting, tr, outDir);
    }
  }

  lemma KeptSkip(files: seq<InputFile>, i: nat, n: nat, isTesting: bool, tr: Value -> Option<Session>, outDir: string)
    requires i < n <= |files| && !Admissible(files[i], isTesting, tr)
    ensures Kept(files, i, n, isTesting, tr, outDir) == Kept(files, i + 1, n, isTesting, tr, outDir)
  {
  }

  lemma KeptTake(files: seq<InputFile>, i: nat, n: nat, isTesting: bool, tr: Value -> Option<Session>, outDir: string)
    requires i < n <= |files| && Admissible(files[i], isTesting, tr)
    ensures Kept(files, i, n, isTesting, tr, outDir)
            == [Output(OutPath(outDir, files[i].name), tr(files[i].data.value).value)] + Kept(files, i + 1, n, isTesting, tr, outDir)
  {
  }

  /**
   * Every file written comes from a taken input that parsed and translated:
   * its path is that input's name without the extension, plus ".json".
   */
  lemma {:induction false} OutputsFromInputs(files: seq<InputFile>, i: nat, isTesting: bool, tr: Value -> Option<Session>, outDir: string, count: nat, k: nat)
    requires i <= |files|
    requires k < |Run(files, i, isTesting, tr, outDir, count).written|
    ensures var o := Run(files, i, isTesting, tr, outDir, count).written[k];
      exists j :: i <= j < |files| && files[j].data.Some? && o.path == OutPath(outDir, files[j].name)
        && tr(files[j].data.value) == Some(o.session)
    decreases |files| - i
  {
    var f := files[i];
    if (StripExt(f.name) == Placeholder && isTesting) || f.data.None? {
      OutputsFromInputs(files, i + 1, isTesting, tr, outDir, count, k);
    } else if k > 0 {
      OutputsFromInputs(files, i + 1, isTesting, tr, outDir, count + 1, k - 1);
    }
  }
}
