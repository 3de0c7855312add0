/**
 * The traffic dump plugin (plugins/experimental/traffic_dump/traffic_dump.cc):
 * the JSON entry formatters, the session sampling and file-naming rules, the
 * comma placed between transaction records, and the per-session bookkeeping of
 * asynchronous writes (`SsnData`) with the clean-up rule of the AIO handler.
 *
 * The host API calls (`TSAIOWrite`, `open`, the clock, header walking) are not
 * modelled; where their outcome matters it is a parameter.
 */
module TrafficDump {
  import opened Wrappers
  import opened JsonEscape

  // ---------------------------------------------------------------------------
  // Entry formatters
  // ---------------------------------------------------------------------------

  /**
   * Reference reader for one JSON string preceded by the text `lead`: the
   * decoded string and what follows its closing quote.
   */
  function ReadString(s: string, lead: string): Option<(string, string)>
  {
    if |s| > |lead| && s[..|lead|] == lead && s[|lead|] == '"' then DecodeBody(s[|lead| + 1..]) else None
  }

  lemma ReadStringOf(lead: string, n: string, rest: string)
    ensures ReadString(lead + ['"'] + Escape(n) + ['"'] + rest, lead) == Some((n, rest))
  {
    Regroup(lead + ['"'], Escape(n), ['"'], rest);
    QuotedAfter(lead, Escape(n) + ['"'] + rest);
    EscapeRoundTrip(n, rest);
  }

  lemma QuotedAfter(lead: string, x: string)
    ensures |lead + ['"'] + x| > |lead|
    ensures (lead + ['"'] + x)[..|lead|] == lead && (lead + ['"'] + x)[|lead|] == '"'
    ensures (lead + ['"'] + x)[|lead| + 1..] == x
  {
  }

  /**
   * Reference reader for an entry made of two JSON strings: the text `open`, a
   * string, the text `mid`, a string, and the text `close`. Gives the two
   * decoded strings, or None when the text is not of that shape.
   */
  function DecodePair(s: string, open: string, mid: string, close: string): Option<(string, string)>
  {
    match ReadString(s, open)
    case None => None
    case Some((n, rest)) =>
      match ReadString(rest, mid)
      case None => None
      case Some((v, tail)) => if tail == close then Some((n, v)) else None
  }

  /**
   * The text `open`, the JSON string of `n`, the text `mid`, the JSON string of
   * `v`, the text `close`: the shape shared by every entry formatter.
   */
  function Pair(open: string, mid: string, close: string, n: string, v: string): (r: string)
    ensures DecodePair(r, open, mid, close) == Some((n, v))
  {
    var tail := mid + ['"'] + Escape(v) + ['"'] + close;
    ReadStringOf(open, n, tail);
    ReadStringOf(mid, v, close);
    open + ['"'] + Escape(n) + ['"'] + tail
  }

  /** `json_entry(name, value)`: the member `"name": "value"`, with a space after the colon. */
  function JsonEntry(name: string, value: string): (r: string)
    ensures DecodePair(r, "", ": ", "") == Some((name, value))
  {
    Pair("", ": ", "", name, value)
  }

  /**
   * `json_entry(name, buf, size)`: the member `"name":"value"` without a space,
   * whose value is the first `size` bytes of `buf`; a null buffer gives `""`.
   */
  function JsonEntryBuf(name: string, buf: Option<string>, size: int): (r: string)
    requires buf.Some? ==> size <= |buf.value|
    ensures DecodePair(r, "", ":", "") == Some((name, BufText(buf, size)))
  {
    Pair("", ":", "", name, BufText(buf, size))
  }

  /** `json_entry_array(name, value)`: the array `["name", "value"]`. */
  function JsonEntryArray(name: string, value: string): (r: string)
    ensures DecodePair(r, "[", ", ", "]") == Some((name, value))
  {
    Pair("[", ", ", "]", name, value)
  }

  /** `json_entry_array(name, name_len, value, value_len)`: the same array built from two buffers. */
  function JsonEntryArrayBuf(name: Option<string>, nameLen: int, value: Option<string>, valueLen: int): (r: string)
    requires name.Some? ==> nameLen <= |name.value|
    requires value.Some? ==> valueLen <= |value.value|
    ensures DecodePair(r, "[", ", ", "]") == Some((BufText(name, nameLen), BufText(value, valueLen)))
  {
    JsonEntryArray(BufText(name, nameLen), BufText(value, valueLen))
  }

  // ---------------------------------------------------------------------------
  // Sampling and file naming
  // ---------------------------------------------------------------------------

  /** 2^64: an `int64_t` printed with `std::hex` shows its two's-complement bits. */
  const TwoTo64: nat := 0x1_0000_0000_0000_0000
  /** The range of the signed 64-bit session id. */
  const Int64Min: int := -0x8000_0000_0000_0000
  const Int64Max: int := 0x7fff_ffff_ffff_ffff

  lemma Pow16Of16()
    ensures Pow16(16) == TwoTo64
  {
    assert Pow16(4) == 0x1_0000;
    assert Pow16(8) == 0x1_0000 * Pow16(4);
    assert Pow16(12) == 0x1_0000 * Pow16(8);
    assert Pow16(16) == 0x1_0000 * Pow16(12);
  }

  /**
   * A session is logged when its id is a multiple of the sample pool size
   * (`id % sample_pool_size == 0`; truncating and Euclidean remainders agree on
   * being zero).
   */
  function Sampled(id: int, poolSize: int): (r: bool)
    requires poolSize != 0
    ensures r <==> id == poolSize * (id / poolSize)
  {
    id % poolSize == 0
  }

  function Abs(x: int): nat { if x < 0 then -x else x }

  lemma NatMulBound(p: nat, d: nat)
    ensures d == 0 || p * d >= p
  {
    if d > 0 { assert p * d == p * (d - 1) + p; }
  }

  lemma MulAbs(p: int, d: int)
    ensures Abs(p * d) == Abs(p) * Abs(d)
  {
  }

  /** A non-zero multiple of `p` is at least as far from zero as `p`. */
  lemma MulAbsBound(p: int, d: int)
    ensures d == 0 || Abs(p * d) >= Abs(p)
  {
    MulAbs(p, d);
    NatMulBound(Abs(p), Abs(d));
  }

  /** Every multiple of the pool size is sampled. */
  lemma MultiplesAreSampled(k: int, poolSize: int)
    requires poolSize != 0
    ensures Sampled(k * poolSize, poolSize)
  {
    var id := k * poolSize;
    var q, m := id / poolSize, id % poolSize;
    assert poolSize * (k - q) == m;
    MulAbsBound(poolSize, k - q);
  }

  /** The log file name of a session: its id as 16 zero-padded lower-case hex digits. */
  function SessionFileName(id: int): (r: string)
    ensures |r| == 16
    ensures forall k :: 0 <= k < 16 ==> IsLowerHexDigit(r[k]) && IsHexDigit(r[k])
    ensures HexValue(r) == id % TwoTo64
  {
    Pow16Of16();
    HexRoundTrip(id % TwoTo64, 16);
    HexDigits(id % TwoTo64, 16)
  }

  /**
   * Distinct session ids get distinct log file names over the whole range of
   * the signed 64-bit id (`int64_t`), whose hex image is its two's-complement
   * bit pattern.
   */
  lemma SessionFileNameInjective(a: int, b: int)
    requires Int64Min <= a <= Int64Max && Int64Min <= b <= Int64Max
    requires SessionFileName(a) == SessionFileName(b)
    ensures a == b
  {
    assert HexValue(SessionFileName(a)) == HexValue(SessionFileName(b));
    var d := a / TwoTo64 - b / TwoTo64;
    assert a - b == TwoTo64 * d;
    MulAbsBound(TwoTo64, d);
  }

  // ---------------------------------------------------------------------------
  // Transaction records and the commas between them
  // ---------------------------------------------------------------------------

  /** What the transaction handler writes for one record: a leading comma unless it is the session's first. */
  function TxnChunk(first: bool, rec: string): string
  {
    (if first then "" else ",") + rec
  }

  /** The records of a session, separated by commas. */
  function Join(recs: seq<string>): string
  {
    if recs == [] then ""
    else if |recs| == 1 then recs[0]
    else recs[0] + "," + Join(recs[1..])
  }

  /** The chunks the handler emits for `recs`, the first one marked `first`. */
  function Emitted(recs: seq<string>, first: bool): string
  {
    if recs == [] then "" else TxnChunk(first, recs[0]) + Emitted(recs[1..], false)
  }

  lemma {:induction false} EmittedAfterFirst(recs: seq<string>)
    requires recs != []
    ensures Emitted(recs, false) == "," + Join(recs)
  {
    if |recs| > 1 {
      EmittedAfterFirst(recs[1..]);
      CommaJoin(recs[0], Join(recs[1..]));
    } else {
      assert recs[1..] == [];
    }
  }

  lemma CommaJoin(rec: string, rest: string)
    ensures "," + rec + ("," + rest) == "," + (rec + "," + rest)
  {
  }

  /** Leading commas on every record except the first make a comma-separated list. */
  lemma {:induction false} EmittedIsJoin(recs: seq<string>)
    ensures Emitted(recs, true) == Join(recs)
  {
    if |recs| > 1 {
      EmittedAfterFirst(recs[1..]);
      assert Emitted(recs, true) == TxnChunk(true, recs[0]) + Emitted(recs[1..], false);
      assert TxnChunk(true, recs[0]) == recs[0];
      CommaBetween(recs[0], Join(recs[1..]));
    } else if |recs| == 1 {
      assert recs[1..] == [];
      assert TxnChunk(true, recs[0]) == recs[0];
    }
  }

  lemma CommaBetween(rec: string, rest: string)
    ensures rec + ("," + rest) == rec + "," + rest
  {
  }


  /** The fixed pieces of the text that opens a session's log. */
  const LogHead: string := "{\"meta\":{\"version\":\"1.0\"},\"sessions\":[{"
  const TimeKey: string := ",\"connection-time\":"
  const TxnsKey: string := ",\"transactions\":["
  const ProtocolKey: string := "protocol"

  /** The text written when a session's log file is opened. */
  function Beginning(protocol: string, connectionTime: string): string
  {
    LogHead + JsonEntry(ProtocolKey, protocol) + TimeKey + connectionTime + TxnsKey
  }

  /** The text written when a session closes. */
  const Closing: string := "]}]}"

  /** The client's protocol stack, comma separated. */
  function ProtocolList(stack: seq<string>): string
  {
    Join(stack)
  }

  // ---------------------------------------------------------------------------
  // Per-session state
  // ---------------------------------------------------------------------------

  datatype TsReturn = TsSuccess | TsError

  /** `SsnData`: the log file of one sampled session and its outstanding asynchronous writes. */
  class SsnData {
    var logFd: int
    var ssnClosed: bool
    var aioCount: int
    var writeOffset: int
    var first: bool
    /** Every byte handed to an accepted asynchronous write, in order. */
    ghost var issued: string

    ghost predicate Valid()
      reads this
    {
      writeOffset == |issued|
    }

    constructor ()
      ensures Valid()
      ensures logFd == -1 && !ssnClosed && aioCount == 0 && writeOffset == 0 && first && issued == ""
    {
      logFd, ssnClosed, aioCount, writeOffset, first := -1, false, 0, 0, true;
      issued := "";
    }

    /**
     * `write_to_disk(body)`: hands `body` to an asynchronous write at the current
     * offset. `accepted` says whether the copy buffer was allocated and
     * `TSAIOWrite` accepted the request; only then do the offset and the count
     * of outstanding writes move.
     */
    method WriteToDisk(body: string, accepted: bool) returns (r: TsReturn)
      requires Valid()
      modifies this`writeOffset, this`aioCount, this`issued
      ensures Valid()
      ensures r == if accepted then TsSuccess else TsError
      ensures accepted ==> writeOffset == old(writeOffset) + |body| && aioCount == old(aioCount) + 1
                           && issued == old(issued) + body
      ensures !accepted ==> writeOffset == old(writeOffset) && aioCount == old(aioCount) && issued == old(issued)
    {
      if accepted {
        writeOffset := writeOffset + |body|;
        aioCount := aioCount + 1;
        issued := issued + body;
        return TsSuccess;
      }
      return TsError;
    }

    /**
     * Opening a fresh session's log: the descriptor from `open` is kept; when
     * it is valid the beginning of the log is written.
     */
    method OpenLog(fd: int, beginning: string, accepted: bool)
      requires Valid() && logFd < 0 && issued == "" && aioCount == 0
      modifies this`logFd, this`writeOffset, this`aioCount, this`issued
      ensures Valid() && logFd == fd
      ensures fd >= 0 && accepted ==> issued == beginning && aioCount == 1
      ensures !(fd >= 0 && accepted) ==> issued == "" && aioCount == 0
    {
      logFd := fd;
      if logFd < 0 {
        return;
      }
      var _ := WriteToDisk(beginning, accepted);
    }
  }

  /**
   * The transaction-close branch of `session_txn_handler`: the record
   * `{"uuid":"…"` + `fields` + `}`, preceded by a comma unless it is the
   * session's first; the session stops being "first" whether or not the write
   * is accepted.
   */
  method TxnClose(ssn: SsnData, uuid: string, fields: string, accepted: bool) returns (r: TsReturn)
    requires ssn.Valid()
    modifies ssn`first, ssn`writeOffset, ssn`aioCount, ssn`issued
    ensures ssn.Valid() && !ssn.first
    ensures r == if accepted then TsSuccess else TsError
    ensures accepted ==> ssn.issued == old(ssn.issued) + TxnChunk(old(ssn.first), TxnRecord(uuid, fields))
                         && ssn.aioCount == old(ssn.aioCount) + 1
    ensures !accepted ==> ssn.issued == old(ssn.issued) && ssn.aioCount == old(ssn.aioCount)
  {
    ghost var wasFirst := ssn.first;
    var rec := TxnRecord(uuid, fields);
    var comma := "";
    if !ssn.first {
      comma := ",";
    }
    ssn.first := false;
    var txnInfo := comma + rec;
    assert txnInfo == TxnChunk(wasFirst, rec);
    r := ssn.WriteToDisk(txnInfo, accepted);
  }

  /**
   * One transaction record: `{`, the uuid member, the other members (start
   * time and the four header blocks, built from host data not modelled here), `}`.
   */
  function TxnRecord(uuid: string, fields: string): string
  {
    "{" + JsonEntryBuf("uuid", Some(uuid), |uuid|) + fields + "}"
  }

  datatype TxnEvent = TxnCloseEvent | OtherTxnEvent
  datatype Reenable = ContinueEvent | ErrorEvent

  /**
   * `session_txn_handler`: a session that was not sampled has no data and is
   * let through; a close event writes the record; any other event is refused.
   */
  method SessionTxnHandler(ssn: SsnData?, event: TxnEvent, uuid: string, fields: string, accepted: bool)
    returns (r: TsReturn, reenable: Reenable)
    requires ssn != null ==> ssn.Valid()
    modifies if ssn != null then {ssn} else {}
    ensures ssn != null ==> ssn.Valid()
    ensures ssn == null ==> r == TsSuccess && reenable == ContinueEvent
    ensures ssn != null && event == OtherTxnEvent ==> r == TsError && reenable == ErrorEvent && unchanged(ssn)
    ensures ssn != null && event == TxnCloseEvent ==> r == TsSuccess && reenable == ContinueEvent && !ssn.first
    ensures ssn != null && event == TxnCloseEvent && accepted ==>
              ssn.issued == old(ssn.issued) + TxnChunk(old(ssn.first), TxnRecord(uuid, fields))
              && ssn.aioCount == old(ssn.aioCount) + 1
    ensures ssn != null && event == TxnCloseEvent && !accepted ==>
              ssn.issued == old(ssn.issued) && ssn.aioCount == old(ssn.aioCount)
    ensures ssn != null ==> ssn.logFd == old(ssn.logFd) && ssn.ssnClosed == old(ssn.ssnClosed)
  {
    if ssn == null {
      return TsSuccess, ContinueEvent;
    }
    match event
    case TxnCloseEvent =>
      var _ := TxnClose(ssn, uuid, fields, accepted);
      return TsSuccess, ContinueEvent;
    case OtherTxnEvent =>
      return TsError, ErrorEvent;
  }

  /**
   * The session-close branch of `global_ssn_handler`: write the closing text,
   * then mark the session closed (even when that write was refused).
   */
  method SessionClose(ssn: SsnData?, accepted: bool)
    requires ssn != null ==> ssn.Valid()
    modifies if ssn != null then {ssn} else {}
    ensures ssn != null ==> ssn.Valid() && ssn.ssnClosed && ssn.first == old(ssn.first) && ssn.logFd == old(ssn.logFd)
    ensures ssn != null && accepted ==> ssn.issued == old(ssn.issued) + Closing && ssn.aioCount == old(ssn.aioCount) + 1
    ensures ssn != null && !accepted ==> ssn.issued == old(ssn.issued) && ssn.aioCount == old(ssn.aioCount)
  {
    if ssn != null {
      var _ := ssn.WriteToDisk(Closing, accepted);
      ssn.ssnClosed := true;
    }
  }

  /** Plugin-wide settings: the sample pool size (1000 unless changed). */
  class DumpPlugin {
    var samplePoolSize: int

    constructor ()
      ensures samplePoolSize == 1000
    {
      samplePoolSize := 1000;
    }

    /**
     * The lifecycle-message branch of `global_ssn_handler`: a message tagged
     * exactly `traffic_dump.sample` sets the pool size to the number its data
     * parses to (`parsed`; the `strtol` call is not modelled).
     */
    method OnLifecycleMessage(tag: string, parsed: int)
      modifies this
      ensures samplePoolSize == if tag == "traffic_dump.sample" then parsed else old(samplePoolSize)
    {
      if |tag| == 19 && tag == "traffic_dump.sample" {
        samplePoolSize := parsed;
      }
    }

    /**
     * The session-start branch of `global_ssn_handler`. An unsampled session
     * gets no data. A sampled one gets fresh data; when its log file opens
     * (`fd`, the result of `open`, is not negative) the beginning of the log is
     * written, and the file name is the session id in hex. Gives the data and
     * the file name used.
     */
    method SessionStart(id: int, protocols: seq<string>, connectionTime: string, fd: int, accepted: bool)
      returns (ssn: SsnData?, fileName: string)
      requires samplePoolSize != 0
      ensures Sampled(id, samplePoolSize) <==> ssn != null
      ensures ssn != null ==> fresh(ssn) && ssn.Valid() && ssn.first && !ssn.ssnClosed
      ensures ssn != null ==> fileName == SessionFileName(id)
      ensures ssn != null ==> ssn.logFd == fd
      ensures ssn != null && fd >= 0 && accepted ==>
                ssn.issued == Beginning(ProtocolList(protocols), connectionTime) && ssn.aioCount == 1
      ensures ssn != null && !(fd >= 0 && accepted) ==> ssn.issued == "" && ssn.aioCount == 0
    {
      fileName := "";
      if !Sampled(id, samplePoolSize) {
        return null, fileName;
      }
      ssn := new SsnData();
      fileName := SessionFileName(id);
      ssn.OpenLog(fd, Beginning(ProtocolList(protocols), connectionTime), accepted);
    }
  }

  // ---------------------------------------------------------------------------
  // Completion of asynchronous writes
  // ---------------------------------------------------------------------------

  /** The AIO continuation; `data` is the session it belongs to, or null once cleaned up. */
  class AioCont {
    var data: SsnData?

    constructor (ssn: SsnData?)
      ensures data == ssn
    {
      data := ssn;
    }
  }

  datatype AioEvent = AioDone | OtherAioEvent

  /**
   * `session_aio_handler`: on completion of a write (`bufPresent`), one
   * outstanding write fewer; the session is cleaned up (the continuation loses
   * its data, the log file is closed) exactly when that leaves no outstanding
   * write and the session is already closed.
   */
  method SessionAioHandler(cont: AioCont, event: AioEvent, bufPresent: bool) returns (r: TsReturn)
    modifies cont, cont.data
    ensures event == OtherAioEvent ==> r == TsError && cont.data == old(cont.data)
    ensures event == AioDone && old(cont.data) == null ==> r == TsError && cont.data == null
    ensures old(cont.data) != null ==>
              && old(cont.data).ssnClosed == old(cont.data.ssnClosed) && old(cont.data).issued == old(cont.data.issued)
              && old(cont.data).logFd == old(cont.data.logFd) && old(cont.data).writeOffset == old(cont.data.writeOffset)
              && old(cont.data).first == old(cont.data.first)
              && (old(cont.data.Valid()) ==> old(cont.data).Valid())
    ensures event == AioDone && old(cont.data) != null ==>
              && r == TsSuccess
              && old(cont.data).aioCount == (if bufPresent then old(cont.data.aioCount) - 1 else old(cont.data.aioCount))
              && (cont.data == null <==> bufPresent && old(cont.data.aioCount) == 1 && old(cont.data.ssnClosed))
              && (cont.data != null ==> cont.data == old(cont.data))
    ensures event == OtherAioEvent && old(cont.data) != null ==> old(cont.data).aioCount == old(cont.data.aioCount)
  {
    match event
    case OtherAioEvent =>
      return TsError;
    case AioDone =>
      var ssn := cont.data;
      if ssn == null {
        return TsError;
      }
      if bufPresent {
        ssn.aioCount := ssn.aioCount - 1;
        if ssn.aioCount == 0 && ssn.ssnClosed {
          cont.data := null;
          return TsSuccess;
        }
      }
      return TsSuccess;
  }
}
