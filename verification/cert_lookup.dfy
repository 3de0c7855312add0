/**
 * Certificate contexts and the table that finds one for a connection, by
 * server name or by address, in iocore/net/P_SSLCertLookup.h.
 *
 * Only the declarations are modelled: how a wildcard entry is recognised and
 * which names or addresses it covers stays abstract (`MatchRule`), and the
 * contracts of the two `find`s follow the priorities their doc comments state.
 */
module CertLookup {
  import opened Wrappers

  type byte = x: int | 0 <= x < 256

  /** An `SSL_CTX` handle; two handles are equal exactly when they are the same object. */
  datatype SslCtx = SslCtx(handle: nat)

  /** A `shared_ssl_user_config` handle. */
  datatype UserConfig = UserConfig(handle: nat)

  /** `SSLCertContextOption`: no special handling, or tunnel the connection. */
  datatype CertContextOption = OptNone | OptTunnel

  // ---------------------------------------------------------------------------
  // Session ticket keys
  // ---------------------------------------------------------------------------

  /** `ssl_ticket_key_t`: a key name, an HMAC secret and an AES key, 16 bytes each. */
  datatype TicketKey = TicketKey(keyName: seq<byte>, hmacSecret: seq<byte>, aesKey: seq<byte>)
  {
    predicate WellFormed()
    {
      |keyName| == 16 && |hmacSecret| == 16 && |aesKey| == 16
    }
  }

  /** `ssl_ticket_key_block`: `num_keys` followed by that many keys. */
  datatype TicketKeyBlock = TicketKeyBlock(numKeys: nat, keys: seq<TicketKey>)
  {
    predicate WellFormed()
    {
      numKeys == |keys| && forall i :: 0 <= i < |keys| ==> keys[i].WellFormed()
    }
  }

  const KeySize: nat := 48

  /** The 48 bytes of one key as the struct lays them out. */
  function KeyBytes(k: TicketKey): (r: seq<byte>)
    requires k.WellFormed()
    ensures |r| == KeySize
    ensures r[..16] == k.keyName && r[16..32] == k.hmacSecret && r[32..] == k.aesKey
  {
    k.keyName + k.hmacSecret + k.aesKey
  }

  /** Reads one key back from its 48 bytes; any other length is not a key. */
  function ParseKey(b: seq<byte>): (r: Option<TicketKey>)
    ensures r.Some? <==> |b| == KeySize
    ensures r.Some? ==> r.value.WellFormed()
  {
    if |b| == KeySize then Some(TicketKey(b[..16], b[16..32], b[32..])) else None
  }

  lemma KeyRoundTrip(k: TicketKey)
    requires k.WellFormed()
    ensures ParseKey(KeyBytes(k)) == Some(k)
  {
    var b := KeyBytes(k);
    assert b[..16] == k.keyName && b[16..32] == k.hmacSecret && b[32..] == k.aesKey;
  }

  lemma ParseKeyRoundTrip(b: seq<byte>)
    requires |b| == KeySize
    ensures KeyBytes(ParseKey(b).value) == b
  {
    assert b[..16] + b[16..32] + b[32..] == b;
  }

  /** The `keys[]` array of a block: its keys' bytes back to back. */
  function KeysBytes(keys: seq<TicketKey>): (r: seq<byte>)
    requires forall i :: 0 <= i < |keys| ==> keys[i].WellFormed()
    ensures |r| == KeySize * |keys|
  {
    if keys == [] then [] else KeyBytes(keys[0]) + KeysBytes(keys[1..])
  }

  /** Reads `n` keys from the bytes of a `keys[]` array of exactly that size. */
  function ParseKeys(n: nat, b: seq<byte>): (r: Option<seq<TicketKey>>)
    ensures r.Some? <==> |b| == KeySize * n
    ensures r.Some? ==> |r.value| == n && forall i :: 0 <= i < n ==> r.value[i].WellFormed()
  {
    if n == 0 then (if b == [] then Some([]) else None)
    else if |b| < KeySize then None
    else match ParseKeys(n - 1, b[KeySize..])
      case None => None
      case Some(rest) => Some([ParseKey(b[..KeySize]).value] + rest)
  }

  lemma {:induction false} KeysRoundTrip(keys: seq<TicketKey>)
    requires forall i :: 0 <= i < |keys| ==> keys[i].WellFormed()
    ensures ParseKeys(|keys|, KeysBytes(keys)) == Some(keys)
  {
    if keys != [] {
      var b := KeysBytes(keys);
      assert b[..KeySize] == KeyBytes(keys[0]) && b[KeySize..] == KeysBytes(keys[1..]);
      KeyRoundTrip(keys[0]);
      KeysRoundTrip(keys[1..]);
      assert [keys[0]] + keys[1..] == keys;
    }
  }

  /** A block read from `n` keys' worth of bytes is well formed and holds `n` keys. */
  function ParseBlock(n: nat, b: seq<byte>): (r: Option<TicketKeyBlock>)
    ensures r.Some? <==> |b| == KeySize * n
    ensures r.Some? ==> r.value.WellFormed() && r.value.numKeys == n
  {
    match ParseKeys(n, b)
    case None => None
    case Some(keys) => Some(TicketKeyBlock(n, keys))
  }

  lemma BlockRoundTrip(kb: TicketKeyBlock)
    requires kb.WellFormed()
    ensures ParseBlock(kb.numKeys, KeysBytes(kb.keys)) == Some(kb)
  {
    KeysRoundTrip(kb.keys);
  }

  // ---------------------------------------------------------------------------
  // Certificate contexts
  // ---------------------------------------------------------------------------

  /**
   * `SSLCertContext`: the (mutex guarded) `SSL_CTX`, the handling option, the
   * user configuration and the ticket keys for the entry. A null pointer is
   * `None`.
   */
  class SSLCertContext {
    var ctx: Option<SslCtx>
    var opt: CertContextOption
    var userconfig: Option<UserConfig>
    var keyblock: Option<TicketKeyBlock>

    /** The default constructor: nothing set, no special handling. */
    constructor ()
      ensures ctx == None && opt == OptNone && userconfig == None && keyblock == None
    {
      ctx, opt, userconfig, keyblock := None, OptNone, None, None;
    }

    /** Takes ownership of a raw `SSL_CTX`. */
    constructor FromCtx(c: Option<SslCtx>)
      ensures ctx == c && opt == OptNone && userconfig == None && keyblock == None
    {
      ctx, opt, userconfig, keyblock := c, OptNone, None, None;
    }

    constructor WithOption(sc: Option<SslCtx>, o: CertContextOption)
      ensures ctx == sc && opt == o && userconfig == None && keyblock == None
    {
      ctx, opt, userconfig, keyblock := sc, o, None, None;
    }

    constructor WithConfig(sc: Option<SslCtx>, o: CertContextOption, u: Option<UserConfig>)
      ensures ctx == sc && opt == o && userconfig == u && keyblock == None
    {
      ctx, opt, userconfig, keyblock := sc, o, u, None;
    }

    constructor WithKeys(sc: Option<SslCtx>, o: CertContextOption, u: Option<UserConfig>, kb: Option<TicketKeyBlock>)
      ensures ctx == sc && opt == o && userconfig == u && keyblock == kb
    {
      ctx, opt, userconfig, keyblock := sc, o, u, kb;
    }

    /** The copy constructor: a new context with the same four fields. */
    constructor Copy(other: SSLCertContext)
      ensures ctx == other.ctx && opt == other.opt && userconfig == other.userconfig && keyblock == other.keyblock
    {
      ctx, opt, userconfig, keyblock := other.ctx, other.opt, other.userconfig, other.keyblock;
    }

    /** `operator=`: takes over the four fields of `other`. */
    method Assign(other: SSLCertContext)
      modifies this
      ensures ctx == old(other.ctx) && opt == old(other.opt)
      ensures userconfig == old(other.userconfig) && keyblock == old(other.keyblock)
    {
      ctx, opt, userconfig, keyblock := other.ctx, other.opt, other.userconfig, other.keyblock;
    }

    /** `getCtx`: the current handle. */
    function GetCtx(): Option<SslCtx>
      reads this`ctx
    {
      ctx
    }

    /** `setCtx`: swaps the handle and nothing else. */
    method SetCtx(sc: Option<SslCtx>)
      modifies this`ctx
      ensures GetCtx() == sc
      ensures opt == old(opt) && userconfig == old(userconfig) && keyblock == old(keyblock)
    {
      ctx := sc;
    }

    /** `release`: drops the handle. */
    method Release()
      modifies this`ctx
      ensures GetCtx() == None
      ensures opt == old(opt) && userconfig == old(userconfig) && keyblock == old(keyblock)
    {
      ctx := None;
    }
  }

  // ---------------------------------------------------------------------------
  // Exact and wildcard indices
  // ---------------------------------------------------------------------------

  /**
   * How keys (names or addresses) are matched: which keys are wildcard
   * entries, and which keys a wildcard entry covers.
   */
  datatype MatchRule<!K> = MatchRule(isWildcard: K -> bool, covers: (K, K) -> bool)

  /**
   * One index of the context store: exact keys mapped to a context's
   * position, and wildcard entries in the order they were inserted.
   */
  datatype Index<K> = Index(exact: map<K, nat>, wild: seq<(K, nat)>)

  function EmptyIndex<K>(): Index<K>
  {
    Index(map[], [])
  }

  /** The keys of the wildcard entries. */
  predicate HasWild<K>(ix: Index<K>, k: K)
  {
    exists j :: 0 <= j < |ix.wild| && ix.wild[j].0 == k
  }

  /**
   * Every position refers to one of `n` contexts, exact keys are not
   * wildcards, wildcard keys are, and no wildcard key is indexed twice.
   */
  ghost predicate IndexValid<K>(ix: Index<K>, rule: MatchRule<K>, n: nat)
  {
    && (forall k :: k in ix.exact ==> ix.exact[k] < n && !rule.isWildcard(k))
    && (forall j :: 0 <= j < |ix.wild| ==> ix.wild[j].1 < n && rule.isWildcard(ix.wild[j].0))
    && (forall i, j :: 0 <= i < j < |ix.wild| ==> ix.wild[i].0 != ix.wild[j].0)
  }

  /** Whether inserting `k` would clash with a key already indexed. */
  predicate Taken<K>(ix: Index<K>, rule: MatchRule<K>, k: K)
  {
    if rule.isWildcard(k) then HasWild(ix, k) else k in ix.exact
  }

  /** The index after `k` is recorded for the context at position `pos`. */
  function Add<K>(ix: Index<K>, rule: MatchRule<K>, k: K, pos: nat): Index<K>
  {
    if rule.isWildcard(k) then ix.(wild := ix.wild + [(k, pos)]) else ix.(exact := ix.exact[k := pos])
  }

  /**
   * After `Add`, the keys taken are those taken before and `k`; earlier exact
   * entries keep their positions and earlier wildcard entries their order.
   */
  lemma AddTakes<K>(ix: Index<K>, rule: MatchRule<K>, k: K, pos: nat)
    ensures forall k' :: Taken(Add(ix, rule, k, pos), rule, k') <==> Taken(ix, rule, k') || k' == k
    ensures forall k' :: k' in ix.exact && k' != k ==> k' in Add(ix, rule, k, pos).exact && Add(ix, rule, k, pos).exact[k'] == ix.exact[k']
    ensures |ix.wild| <= |Add(ix, rule, k, pos).wild| && Add(ix, rule, k, pos).wild[..|ix.wild|] == ix.wild
  {
    var r := Add(ix, rule, k, pos);
    forall k' | rule.isWildcard(k')
      ensures HasWild(r, k') <==> HasWild(ix, k') || (rule.isWildcard(k) && k' == k)
    {
      if rule.isWildcard(k) {
        if HasWild(r, k') && k' != k {
          var j :| 0 <= j < |r.wild| && r.wild[j].0 == k';
          assert j < |ix.wild| && ix.wild[j] == r.wild[j];
        }
        if HasWild(ix, k') {
          var j :| 0 <= j < |ix.wild| && ix.wild[j].0 == k';
          assert r.wild[j] == ix.wild[j];
        }
        assert r.wild[|ix.wild|].0 == k;
      }
    }
  }

  lemma AddValid<K>(ix: Index<K>, rule: MatchRule<K>, k: K, n: nat)
    requires IndexValid(ix, rule, n) && !Taken(ix, rule, k)
    ensures IndexValid(Add(ix, rule, k, n), rule, n + 1)
  {
    var r := Add(ix, rule, k, n);
    if rule.isWildcard(k) {
      forall i, j | 0 <= i < j < |r.wild|
        ensures r.wild[i].0 != r.wild[j].0
      {
        if j == |ix.wild| {
          assert r.wild[i] == ix.wild[i];
        }
      }
    }
  }

  /** The position in `wild` of the first entry covering `k`. */
  function FirstCover<K>(wild: seq<(K, nat)>, covers: (K, K) -> bool, k: K): (r: Option<nat>)
    ensures r.Some? ==> r.value < |wild| && covers(wild[r.value].0, k)
    ensures r.Some? ==> forall j :: 0 <= j < r.value ==> !covers(wild[j].0, k)
    ensures r.None? <==> forall j :: 0 <= j < |wild| ==> !covers(wild[j].0, k)
  {
    if wild == [] then None
    else if covers(wild[0].0, k) then Some(0)
    else match FirstCover(wild[1..], covers, k)
      case None => None
      case Some(p) => Some(p + 1)
  }

  /** Some wildcard entry covers `k`. */
  predicate Covered<K>(ix: Index<K>, rule: MatchRule<K>, k: K)
  {
    exists j :: 0 <= j < |ix.wild| && rule.covers(ix.wild[j].0, k)
  }

  // ---------------------------------------------------------------------------
  // The lookup table
  // ---------------------------------------------------------------------------

  /**
   * `SSLCertLookup`: the list of contexts (each exactly once), the name and
   * address indices into it, the last-resort default `SSL_CTX` and the
   * validity flag.
   */
  class SSLCertLookup {
    var contexts: seq<SSLCertContext>
    var names: Index<string>
    var addresses: Index<IpEndpoint>
    var ssl_default: Option<SslCtx>
    var is_valid: bool
    const nameRule: MatchRule<string>
    const addressRule: MatchRule<IpEndpoint>

    ghost predicate Valid()
      reads this
    {
      && (forall i, j :: 0 <= i < j < |contexts| ==> contexts[i] != contexts[j])
      && IndexValid(names, nameRule, |contexts|)
      && IndexValid(addresses, addressRule, |contexts|)
    }

    constructor (nameRule: MatchRule<string>, addressRule: MatchRule<IpEndpoint>)
      ensures Valid()
      ensures contexts == [] && names == EmptyIndex() && addresses == EmptyIndex()
      ensures ssl_default == None && is_valid
      ensures this.nameRule == nameRule && this.addressRule == addressRule
    {
      contexts, names, addresses := [], EmptyIndex(), EmptyIndex();
      ssl_default, is_valid := None, true;
      this.nameRule, this.addressRule := nameRule, addressRule;
    }

    /** `count`: how many contexts the table holds. */
    function Count(): nat
      reads this
    {
      |contexts|
    }

    /** `get(i)`: the i-th context; distinct positions hold distinct contexts. */
    function Get(i: nat): (r: SSLCertContext)
      requires Valid() && i < Count()
      reads this
      ensures r in contexts
      ensures forall j :: 0 <= j < |contexts| && j != i ==> contexts[j] != r
    {
      contexts[i]
    }

    /** `defaultContext`: the last-resort `SSL_CTX`, whatever the store holds. */
    function DefaultContext(): Option<SslCtx>
      reads this`ssl_default
    {
      ssl_default
    }

    /**
     * `find(name)`: an exact entry for the name wins; otherwise a wildcard
     * entry covering the name; otherwise nothing.
     */
    function FindName(name: string): (r: Option<SSLCertContext>)
      requires Valid()
      reads this
      ensures name in names.exact ==> r == Some(contexts[names.exact[name]])
      ensures name !in names.exact && Covered(names, nameRule, name) ==>
                exists j :: 0 <= j < |names.wild| && nameRule.covers(names.wild[j].0, name)
                            && r == Some(contexts[names.wild[j].1])
      ensures r.None? <==> name !in names.exact && !Covered(names, nameRule, name)
    {
      if name in names.exact then Some(contexts[names.exact[name]])
      else match FirstCover(names.wild, nameRule.covers, name)
        case Some(p) => Some(contexts[names.wild[p].1])
        case None => None
    }

    /**
     * `find(address)`, given the destination and (when known) the source
     * endpoint of the connection: an exact entry beats a wildcard, and within
     * each kind the destination beats the source.
     */
    function FindAddress(dst: IpEndpoint, src: Option<IpEndpoint>): (r: Option<SSLCertContext>)
      requires Valid()
      reads this
      ensures dst in addresses.exact ==> r == Some(contexts[addresses.exact[dst]])
      ensures dst !in addresses.exact && src.Some? && src.value in addresses.exact ==>
                r == Some(contexts[addresses.exact[src.value]])
      ensures ExactMiss(dst, src) && Covered(addresses, addressRule, dst) ==>
                exists j :: 0 <= j < |addresses.wild| && addressRule.covers(addresses.wild[j].0, dst)
                            && r == Some(contexts[addresses.wild[j].1])
      ensures ExactMiss(dst, src) && !Covered(addresses, addressRule, dst) && src.Some?
              && Covered(addresses, addressRule, src.value) ==>
                exists j :: 0 <= j < |addresses.wild| && addressRule.covers(addresses.wild[j].0, src.value)
                            && r == Some(contexts[addresses.wild[j].1])
      ensures r.None? <==>
                (ExactMiss(dst, src) && !Covered(addresses, addressRule, dst)
                 && (src.None? || !Covered(addresses, addressRule, src.value)))
    {
      if dst in addresses.exact then Some(contexts[addresses.exact[dst]])
      else if src.Some? && src.value in addresses.exact then Some(contexts[addresses.exact[src.value]])
      else match FirstCover(addresses.wild, addressRule.covers, dst)
        case Some(p) => Some(contexts[addresses.wild[p].1])
        case None =>
          if src.None? then None
          else match FirstCover(addresses.wild, addressRule.covers, src.value)
            case Some(p) => Some(contexts[addresses.wild[p].1])
            case None => None
    }

    /** Neither endpoint has an exact entry. */
    predicate ExactMiss(dst: IpEndpoint, src: Option<IpEndpoint>)
      reads this
    {
      dst !in addresses.exact && (src.None? || src.value !in addresses.exact)
    }

    /**
     * `insert(name, cc)`: stores a copy of `cc` at the end of the list and
     * indexes it under `name`, giving its position; a name already indexed is
     * refused with -1 and the table is left as it was.
     */
    method InsertName(name: string, cc: SSLCertContext) returns (idx: int)
      requires Valid()
      modifies this`contexts, this`names
      ensures Valid()
      ensures idx == -1 <==> Taken(old(names), nameRule, name)
      ensures idx == -1 ==> contexts == old(contexts) && names == old(names)
      ensures idx != -1 ==> && idx == old(|contexts|)
                            && |contexts| == idx + 1 && contexts[..idx] == old(contexts)
                            && fresh(contexts[idx])
                            && contexts[idx].ctx == cc.ctx && contexts[idx].opt == cc.opt
                            && contexts[idx].userconfig == cc.userconfig && contexts[idx].keyblock == cc.keyblock
                            && names == Add(old(names), nameRule, name, idx)
      ensures idx != -1 && !nameRule.isWildcard(name) ==> FindName(name) == Some(contexts[idx])
      ensures DefaultContext() == old(DefaultContext())
    {
      if Taken(names, nameRule, name) {
        return -1;
      }
      var copy := new SSLCertContext.Copy(cc);
      idx := |contexts|;
      AddValid(names, nameRule, name, idx);
      contexts := contexts + [copy];
      names := Add(names, nameRule, name, idx);
      assert contexts[..idx] == old(contexts);
    }

    /**
     * `insert(address, cc)`: as `InsertName`, for an endpoint in the address
     * index.
     */
    method InsertAddress(address: IpEndpoint, cc: SSLCertContext) returns (idx: int)
      requires Valid()
      modifies this`contexts, this`addresses
      ensures Valid()
      ensures idx == -1 <==> Taken(old(addresses), addressRule, address)
      ensures idx == -1 ==> contexts == old(contexts) && addresses == old(addresses)
      ensures idx != -1 ==> && idx == old(|contexts|)
                            && |contexts| == idx + 1 && contexts[..idx] == old(contexts)
                            && fresh(contexts[idx])
                            && contexts[idx].ctx == cc.ctx && contexts[idx].opt == cc.opt
                            && contexts[idx].userconfig == cc.userconfig && contexts[idx].keyblock == cc.keyblock
                            && addresses == Add(old(addresses), addressRule, address, idx)
      ensures idx != -1 && !addressRule.isWildcard(address) ==> FindAddress(address, None) == Some(contexts[idx])
      ensures DefaultContext() == old(DefaultContext())
    {
      if Taken(addresses, addressRule, address) {
        return -1;
      }
      var copy := new SSLCertContext.Copy(cc);
      idx := |contexts|;
      AddValid(addresses, addressRule, address, idx);
      contexts := contexts + [copy];
      addresses := Add(addresses, addressRule, address, idx);
      assert contexts[..idx] == old(contexts);
    }

    /** Whatever `find(name)` returns is one of the contexts `get` enumerates. */
    lemma FoundNameIsListed(name: string)
      requires Valid()
      ensures FindName(name).Some? ==> exists i :: 0 <= i < Count() && Get(i) == FindName(name).value
    {
      if name in names.exact {
        assert Get(names.exact[name]) == FindName(name).value;
      } else {
        var p := FirstCover(names.wild, nameRule.covers, name);
        if p.Some? {
          assert Get(names.wild[p.value].1) == FindName(name).value;
        }
      }
    }

    /** An exact name entry hides every wildcard entry that covers the same name. */
    lemma ExactNameHidesWildcard(name: string, j: nat)
      requires Valid()
      requires name in names.exact && j < |names.wild| && nameRule.covers(names.wild[j].0, name)
      ensures FindName(name) == Some(contexts[names.exact[name]])
      ensures names.wild[j].1 != names.exact[name] ==> FindName(name) != Some(contexts[names.wild[j].1])
    {
    }
  }

  /** `IpEndpoint`: an address family, the address bytes and the port. */
  datatype IpEndpoint = IpEndpoint(family: AddressFamily, addr: seq<byte>, port: nat)

  datatype AddressFamily = Inet | Inet6
}
