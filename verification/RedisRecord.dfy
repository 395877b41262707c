/** internal/extension/state_store.go: keys, associated data and sealed envelopes of the durable store. */
module RedisRecord {
  import opened Base
  import opened Numerals
  import opened Abi
  import opened Policy
  import opened Authorization
  import opened Machine

  const ENVELOPE_VERSION := "v1"
  const NONCE_SIZE := 12

  datatype Envelope = Envelope(version: string, nonce: string, ciphertext: string)

  /** The libraries the store builds on. */
  datatype Primitives = Primitives(
    keccak: Keccak,
    gobEncode: RuleState -> seq<byte>, gobDecode: seq<byte> -> Option<RuleState>,
    base64Encode: seq<byte> -> string, base64Decode: string -> Option<seq<byte>>,
    jsonEncode: Envelope -> string, jsonDecode: string -> Option<Envelope>,
    seal: (seq<byte>, seq<byte>, string) -> seq<byte>,
    unseal: (seq<byte>, seq<byte>, string) -> Option<seq<byte>>)

  /** Lossless encodings, and an authenticated cipher whose output is never empty. */
  ghost predicate Lawful(c: Primitives) {
    && (forall s :: c.gobDecode(c.gobEncode(s)) == Some(s))
    && (forall b :: c.base64Decode(c.base64Encode(b)) == Some(b))
    && (forall b :: c.base64Encode(b) == "" ==> b == [])
    && (forall e :: c.jsonDecode(c.jsonEncode(e)) == Some(e))
    && (forall e :: c.jsonEncode(e) != "")
    && (forall n, p, a :: c.unseal(n, c.seal(n, p, a), a) == Some(p) && c.seal(n, p, a) != [])
  }

  /** Ideal authenticity: what was sealed under one associated datum opens under no other. */
  ghost predicate Authentic(c: Primitives) {
    forall n, p, a, n', a' :: c.unseal(n', c.seal(n, p, a), a').Some? ==> a == a'
  }

  /** One chain and one extension: the namespace of a store. */
  datatype Deployment = Deployment(chainId: uint64, extensionId: uint64)

  // ---- hexadecimal ----

  function HexDigit(n: nat): char
    requires n < 16
  {
    if n < 10 then '0' + n as char else 'a' + (n - 10) as char
  }

  function HexPair(b: byte): string {
    [HexDigit(b / 16), HexDigit(b % 16)]
  }

  function HexBytes(bs: seq<byte>): (s: string)
    ensures |s| == 2 * |bs|
  {
    if bs == [] then "" else HexPair(bs[0]) + HexBytes(bs[1..])
  }

  /** common.Hash.Hex. */
  function Hex(r: Hash): (s: string)
    ensures |s| == 66
  {
    "0x" + HexBytes(WordBytes(r))
  }

  lemma {:induction false} HexBytesInjective(a: seq<byte>, b: seq<byte>)
    requires HexBytes(a) == HexBytes(b)
    ensures a == b
  {
    if a == [] {
    } else {
      assert |b| == |a|;
      var s := HexBytes(a);
      assert s[0] == HexPair(a[0])[0] == HexPair(b[0])[0] && s[1] == HexPair(a[0])[1] == HexPair(b[0])[1];
      assert s[2..] == HexBytes(a[1..]) == HexBytes(b[1..]);
      HexBytesInjective(a[1..], b[1..]);
      assert a == [a[0]] + a[1..] && b == [b[0]] + b[1..];
    }
  }

  lemma HexInjective(r: Hash, r': Hash)
    requires Hex(r) == Hex(r')
    ensures r == r'
  {
    assert Hex(r)[2..] == HexBytes(WordBytes(r)) && Hex(r')[2..] == HexBytes(WordBytes(r'));
    HexBytesInjective(WordBytes(r), WordBytes(r'));
    WordRoundTrip(r);
    WordRoundTrip(r');
  }

  function HexValue(c: char): nat {
    if '0' <= c <= '9' then (c - '0') as nat else if 'a' <= c <= 'f' then (c - 'a') as nat + 10 else 16
  }

  /** A hexadecimal numeral, most significant digit first. */
  function HexNumber(s: string): nat {
    if s == "" then 0 else HexNumber(s[..|s| - 1]) * 16 + HexValue(s[|s| - 1])
  }

  lemma {:induction false} HexAppend(bs: seq<byte>, b: byte)
    ensures HexBytes(bs + [b]) == HexBytes(bs) + HexPair(b)
  {
    if bs == [] {
      assert [b][1..] == [];
    } else {
      HexAppend(bs[1..], b);
      assert (bs + [b])[1..] == bs[1..] + [b];
    }
  }

  lemma {:induction false} HexPairValue(s: string, b: byte)
    ensures HexNumber(s + HexPair(b)) == HexNumber(s) * 256 + b
  {
    var pair := HexPair(b);
    assert (s + pair)[..|s| + 1] == s + [pair[0]] && (s + [pair[0]])[..|s|] == s;
    assert HexValue(pair[0]) == b / 16 && HexValue(pair[1]) == b % 16;
  }

  lemma {:induction false} HexOfBytes(bs: seq<byte>)
    ensures HexNumber(HexBytes(bs)) == Value(bs)
    ensures forall i :: 0 <= i < |HexBytes(bs)| ==> HexValue(HexBytes(bs)[i]) < 16
  {
    if bs == [] {
    } else {
      var init, b := bs[..|bs| - 1], bs[|bs| - 1];
      HexOfBytes(init);
      HexAppend(init, b);
      HexPairValue(HexBytes(init), b);
      assert bs == init + [b];
    }
  }

  /** A hash is spelled 0x and 64 lower-case digits of its value. */
  lemma HexSpelled(r: Hash)
    ensures Hex(r)[..2] == "0x" && HexNumber(Hex(r)[2..]) == r
    ensures forall i :: 2 <= i < 66 ==> HexValue(Hex(r)[i]) < 16
  {
    assert Hex(r)[2..] == HexBytes(WordBytes(r));
    HexOfBytes(WordBytes(r));
    WordRange();
    ValueOfBigEndian(r, 32);
  }

  // ---- keys and associated data ----

  /** Two numbers and a hash, with one separator between them. */
  function Path(d: Deployment, r: Hash, separator: char, suffix: string): string {
    Decimal(d.chainId) + [separator] + (Decimal(d.extensionId) + [separator] + (Hex(r) + suffix))
  }

  function Key(d: Deployment, r: Hash): string {
    if r == 0 then "" else "averlock:" + Path(d, r, ':', ":state")
  }

  function Aad(d: Deployment, r: Hash): string {
    "averlock|" + Path(d, r, '|', "|" + ENVELOPE_VERSION)
  }

  lemma Flatten(head: string, a: string, separator: string, b: string, c: string, suffix: string)
    ensures head + (a + separator + (b + separator + (c + suffix))) == head + a + separator + b + separator + c + suffix
  {}

  /** Keys and associated data, spelled out. */
  lemma NamesSpelled(d: Deployment, r: Hash)
    ensures Key(d, 0) == ""
    ensures r != 0 ==>
              Key(d, r) == "averlock:" + Decimal(d.chainId) + ":" + Decimal(d.extensionId) + ":" + Hex(r) + ":state"
    ensures Aad(d, r) == "averlock|" + Decimal(d.chainId) + "|" + Decimal(d.extensionId) + "|" + Hex(r) + "|v1"
  {
    Flatten("averlock:", Decimal(d.chainId), [':'], Decimal(d.extensionId), Hex(r), ":state");
    Flatten("averlock|", Decimal(d.chainId), ['|'], Decimal(d.extensionId), Hex(r), "|v1");
    assert ":" == [':'] && "|" == ['|'] && "|" + ENVELOPE_VERSION == "|v1";
  }

  lemma {:induction false} FieldsSplit(a: string, b: string, x: string, y: string, separator: char)
    requires separator !in a && separator !in b
    requires a + [separator] + x == b + [separator] + y
    ensures a == b && x == y
  {
    var s, t := a + [separator] + x, b + [separator] + y;
    if a == [] || b == [] {
      assert s[0] == t[0];
      assert x == s[|a| + 1..] && y == t[|b| + 1..];
    } else {
      assert a[0] == s[0] == t[0] == b[0];
      assert s[1..] == a[1..] + [separator] + x && t[1..] == b[1..] + [separator] + y;
      FieldsSplit(a[1..], b[1..], x, y, separator);
      assert a == [a[0]] + a[1..] && b == [b[0]] + b[1..];
    }
  }

  lemma {:induction false} DecimalInjective(m: nat, n: nat)
    requires Decimal(m) == Decimal(n)
    ensures m == n
  {
    ParseDecimal(m);
    ParseDecimal(n);
  }

  lemma PathInjective(d: Deployment, r: Hash, d': Deployment, r': Hash, separator: char, suffix: string)
    requires !IsDigit(separator) && Path(d, r, separator, suffix) == Path(d', r', separator, suffix)
    ensures d == d' && r == r'
  {
    var tail := (d: Deployment, r: Hash) => Decimal(d.extensionId) + [separator] + (Hex(r) + suffix);
    FieldsSplit(Decimal(d.chainId), Decimal(d'.chainId), tail(d, r), tail(d', r'), separator);
    FieldsSplit(Decimal(d.extensionId), Decimal(d'.extensionId), Hex(r) + suffix, Hex(r') + suffix, separator);
    assert (Hex(r) + suffix)[..66] == Hex(r) && (Hex(r') + suffix)[..66] == Hex(r');
    HexInjective(r, r');
    DecimalInjective(d.chainId, d'.chainId);
    DecimalInjective(d.extensionId, d'.extensionId);
  }

  /** Chain, extension and rule are each recovered from a key, and from the associated data. */
  lemma NamesInjective(d: Deployment, r: Hash, d': Deployment, r': Hash)
    ensures r != 0 && r' != 0 && Key(d, r) == Key(d', r') ==> d == d' && r == r'
    ensures Aad(d, r) == Aad(d', r') ==> d == d' && r == r'
  {
    assert Aad(d, r)[9..] == Path(d, r, '|', "|" + ENVELOPE_VERSION);
    assert Aad(d', r')[9..] == Path(d', r', '|', "|" + ENVELOPE_VERSION);
    if Aad(d, r) == Aad(d', r') { PathInjective(d, r, d', r', '|', "|" + ENVELOPE_VERSION); }
    if r != 0 && r' != 0 && Key(d, r) == Key(d', r') {
      assert Key(d, r)[9..] == Path(d, r, ':', ":state") && Key(d', r')[9..] == Path(d', r', ':', ":state");
      PathInjective(d, r, d', r', ':', ":state");
    }
  }

  // ---- records ----

  /** What Save puts under the rule's key. */
  function Record(c: Primitives, d: Deployment, r: Hash, s: RuleState, nonce: seq<byte>): string {
    var sealed := c.seal(nonce, c.gobEncode(s), Aad(d, r));
    c.jsonEncode(Envelope(ENVELOPE_VERSION, c.base64Encode(nonce), c.base64Encode(sealed)))
  }

  function Unwrap(c: Primitives, d: Deployment, r: Hash, text: string): Option<RuleState> {
    var e := c.jsonDecode(text);
    if e.None? || e.value.version != ENVELOPE_VERSION || e.value.nonce == "" || e.value.ciphertext == "" then None
    else
      var n, ciphertext := c.base64Decode(e.value.nonce), c.base64Decode(e.value.ciphertext);
      if n.None? || |n.value| != NONCE_SIZE || ciphertext.None? then None
      else
        var plain := c.unseal(n.value, ciphertext.value, Aad(d, r));
        if plain.None? then None else c.gobDecode(plain.value)
  }

  /** Load, given the text the server returned for the rule's key ("" when there is none). */
  function Interpret(c: Primitives, d: Deployment, r: Hash, text: string): LoadResult<RuleState> {
    if text == "" then Missing
    else
      match Unwrap(c, d, r, text)
      case None => LoadFailed
      case Some(s) => if Bound(c.keccak, r, s) then Loaded(s) else LoadFailed
  }

  function Lookup(db: map<string, string>, k: string): string {
    if k in db then db[k] else ""
  }

  function LoadRecord(c: Primitives, d: Deployment, db: map<string, string>, r: Hash): LoadResult<RuleState> {
    if r == 0 then LoadFailed else Interpret(c, d, r, Lookup(db, Key(d, r)))
  }

  function SaveRecord(c: Primitives, d: Deployment, db: map<string, string>, r: Hash, s: RuleState, nonce: seq<byte>)
    : map<string, string>
  {
    if r == 0 || s.policy.ruleId != r then db else db[Key(d, r) := Record(c, d, r, s, nonce)]
  }

  /** Whatever bytes the server holds, a loaded state carries its own rule and its own policy's commitment. */
  lemma LoadedIsBound(c: Primitives, d: Deployment, db: map<string, string>, r: Hash)
    ensures LoadRecord(c, d, db, r).Loaded? ==> r != 0 && Bound(c.keccak, r, LoadRecord(c, d, db, r).state)
  {}

  /** The envelope opens to state s under this rule's name. */
  predicate Opens(c: Primitives, d: Deployment, r: Hash, e: Envelope, s: RuleState) {
    && e.version == "v1" && e.nonce != "" && e.ciphertext != ""
    && var n, sealed := c.base64Decode(e.nonce), c.base64Decode(e.ciphertext);
       && n.Some? && |n.value| == 12 && sealed.Some?
       && c.unseal(n.value, sealed.value, Aad(d, r)).Some?
       && c.gobDecode(c.unseal(n.value, sealed.value, Aad(d, r)).value) == Some(s)
  }

  /**
   * Whatever bytes the server holds, a rule loads exactly when its record is a version 1 envelope that opens
   * under the rule's own name to a bound state; a missing record is missing; anything else is refused.
   */
  lemma LoadedIff(c: Primitives, d: Deployment, db: map<string, string>, r: Hash, s: RuleState)
    ensures LoadRecord(c, d, db, r) == Loaded(s) <==>
            && r != 0 && Lookup(db, Key(d, r)) != "" && c.jsonDecode(Lookup(db, Key(d, r))).Some?
            && Opens(c, d, r, c.jsonDecode(Lookup(db, Key(d, r))).value, s) && Bound(c.keccak, r, s)
    ensures LoadRecord(c, d, db, r) == Missing <==> r != 0 && Lookup(db, Key(d, r)) == ""
  {}

  lemma RecordUnwraps(c: Primitives, d: Deployment, r: Hash, s: RuleState, nonce: seq<byte>)
    requires Lawful(c) && |nonce| == NONCE_SIZE
    ensures Unwrap(c, d, r, Record(c, d, r, s, nonce)) == Some(s) && Record(c, d, r, s, nonce) != ""
  {
    var sealed := c.seal(nonce, c.gobEncode(s), Aad(d, r));
    assert c.base64Encode(nonce) != "" && c.base64Encode(sealed) != "";
    assert c.unseal(nonce, sealed, Aad(d, r)) == Some(c.gobEncode(s));
  }

  /** A saved state loads back equal exactly when its commitment is its policy's. */
  lemma SavedLoadsBack(c: Primitives, d: Deployment, db: map<string, string>, r: Hash, s: RuleState, nonce: seq<byte>)
    requires Lawful(c) && |nonce| == NONCE_SIZE && r != 0 && s.policy.ruleId == r
    ensures LoadRecord(c, d, SaveRecord(c, d, db, r, s, nonce), r) ==
            if s.commitment == Commitment(c.keccak, s.policy) then Loaded(s) else LoadFailed
  {
    RecordUnwraps(c, d, r, s, nonce);
  }

  /** Saving one rule changes nothing that any other rule, or any other deployment, loads. */
  lemma SaveIsolated(c: Primitives, d: Deployment, db: map<string, string>, r: Hash, s: RuleState, nonce: seq<byte>,
                     d': Deployment, r': Hash)
    requires d != d' || r != r'
    ensures LoadRecord(c, d', SaveRecord(c, d, db, r, s, nonce), r') == LoadRecord(c, d', db, r')
  {
    NamesInjective(d, r, d', r');
  }

  lemma ForeignRecordSealed(c: Primitives, d: Deployment, r: Hash, s: RuleState, nonce: seq<byte>, d': Deployment,
                            r': Hash)
    requires Lawful(c) && Authentic(c) && |nonce| == NONCE_SIZE && (d != d' || r != r')
    ensures Unwrap(c, d', r', Record(c, d, r, s, nonce)).None? && Record(c, d, r, s, nonce) != ""
  {
    NamesInjective(d, r, d', r');
    RecordUnwraps(c, d, r, s, nonce);
    assert c.unseal(nonce, c.seal(nonce, c.gobEncode(s), Aad(d, r)), Aad(d', r')).None?;
  }

  /** A record copied under the key of another rule or another deployment is refused there. */
  lemma RelocatedRecordRefused(c: Primitives, d: Deployment, r: Hash, s: RuleState, nonce: seq<byte>,
                               d': Deployment, r': Hash, db: map<string, string>)
    requires Lawful(c) && Authentic(c) && |nonce| == NONCE_SIZE && r' != 0
    requires d != d' || r != r'
    ensures LoadRecord(c, d', db[Key(d', r') := Record(c, d, r, s, nonce)], r') == LoadFailed
  {
    ForeignRecordSealed(c, d, r, s, nonce, d', r');
  }
}
