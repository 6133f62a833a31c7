/** The field layout of signLegacyTx and the v value of ecdsaSign in
    rewards/payout.go. Keccak and secp256k1 are not part of this model: r, s and
    the recovery byte are inputs. */
module LegacyTx {
  import opened Words
  import opened Wrappers
  import opened Rlp

  function ToUint64(i: Int64): Uint64 {
    i % TWO64
  }

  /** The conversion keeps the value modulo 2^64, all of it from zero up, and never
      takes two chains for one. */
  lemma ToUint64Keeps(i: Int64, j: Int64)
    ensures (ToUint64(i) - i) % TWO64 == 0
    ensures i >= 0 ==> ToUint64(i) == i
    ensures ToUint64(i) == ToUint64(j) <==> i == j
  {
    assert i % TWO64 == if i < 0 then i + TWO64 else i;
    assert j % TWO64 == if j < 0 then j + TWO64 else j;
  }

  /** The arguments of signLegacyTx, with `to` already decoded from hex. */
  datatype Tx = Tx(
    nonce: Uint64,
    gasPrice: Option<int>,
    gasLimit: Uint64,
    to: seq<Byte>,
    value: Option<int>,
    data: seq<Byte>)

  /** The six leading items as the code builds them: `to` and `data` go in raw. */
  function BodyItems(tx: Tx): seq<seq<Byte>> {
    [EncodeUint(tx.nonce), EncodeBigInt(tx.gasPrice), EncodeUint(tx.gasLimit),
     tx.to, EncodeBigInt(tx.value), tx.data]
  }

  /** The list that is hashed: EIP-155 appends the chain id and two zeros. */
  function UnsignedItems(tx: Tx, chainID: Int64): seq<seq<Byte>> {
    BodyItems(tx) + [EncodeUint(ToUint64(chainID)), EncodeUint(0), EncodeUint(0)]
  }

  /** The list that is sent. */
  function SignedItems(tx: Tx, v: Int64, r: nat, s: nat): seq<seq<Byte>> {
    BodyItems(tx) + [EncodeBigInt(Some(v)), EncodeBigInt(Some(r)), EncodeBigInt(Some(s))]
  }

  /** The nine fields that EIP-155 means, the last three as numbers. */
  function Fields(tx: Tx, a: nat, b: nat, c: nat): Tree {
    Node([
      Leaf(BigEndian(tx.nonce)), Leaf(BigEndian(Magnitude(tx.gasPrice))), Leaf(BigEndian(tx.gasLimit)),
      Leaf(tx.to), Leaf(BigEndian(Magnitude(tx.value))), Leaf(tx.data),
      Leaf(BigEndian(a)), Leaf(BigEndian(b)), Leaf(BigEndian(c))])
  }

  function IntItem(n: nat): seq<Byte> {
    EncodeBytes(BigEndian(n))
  }

  /** Both lists of the code in one form: nine items, of which six are integers. */
  function RawItems(tx: Tx, a: nat, b: nat, c: nat): seq<seq<Byte>> {
    [IntItem(tx.nonce), IntItem(Magnitude(tx.gasPrice)), IntItem(tx.gasLimit), tx.to,
     IntItem(Magnitude(tx.value)), tx.data, IntItem(a), IntItem(b), IntItem(c)]
  }

  function FieldItems(tx: Tx, a: nat, b: nat, c: nat): seq<seq<Byte>> {
    [IntItem(tx.nonce), IntItem(Magnitude(tx.gasPrice)), IntItem(tx.gasLimit), EncodeBytes(tx.to),
     IntItem(Magnitude(tx.value)), EncodeBytes(tx.data), IntItem(a), IntItem(b), IntItem(c)]
  }

  lemma ItemsOfTheCode(tx: Tx, chainID: Int64, v: Int64, r: nat, s: nat)
    ensures UnsignedItems(tx, chainID) == RawItems(tx, ToUint64(chainID), 0, 0)
    ensures SignedItems(tx, v, r, s) == RawItems(tx, Magnitude(Some(v)), r, s)
  {
    IntegerEncodings(tx.nonce);
    IntegerEncodings(tx.gasLimit);
    IntegerEncodings(ToUint64(chainID));
    IntegerEncodings(0);
    BigIntEncoding(tx.gasPrice);
    BigIntEncoding(tx.value);
    BigIntEncoding(Some(v));
    BigIntEncoding(Some(r));
    BigIntEncoding(Some(s));
  }

  lemma ConcatThree(items: seq<seq<Byte>>, a: seq<Byte>, b: seq<Byte>, c: seq<Byte>)
    ensures Concat(items + [a, b, c]) == Concat(items) + a + b + c
  {
    ConcatLast(items, a);
    ConcatLast(items + [a], b);
    ConcatLast(items + [a] + [b], c);
    assert items + [a, b, c] == items + [a] + [b] + [c];
  }

  lemma ConcatNine(x: seq<seq<Byte>>)
    requires |x| == 9
    ensures Concat(x) == x[0] + x[1] + x[2] + x[3] + x[4] + x[5] + x[6] + x[7] + x[8]
  {
    var three, six := [x[0], x[1], x[2]], [x[0], x[1], x[2], x[3], x[4], x[5]];
    ConcatThree([], x[0], x[1], x[2]);
    ConcatThree(three, x[3], x[4], x[5]);
    ConcatThree(six, x[6], x[7], x[8]);
    assert [] + three == three && three + [x[3], x[4], x[5]] == six && six + [x[6], x[7], x[8]] == x;
    assert [] + x[0] == x[0];
  }

  lemma EncodeLeaves(ts: seq<Tree>, bs: seq<seq<Byte>>, items: seq<seq<Byte>>)
    requires |ts| == |bs| == |items|
    requires forall i :: 0 <= i < |ts| ==> ts[i] == Leaf(bs[i]) && items[i] == EncodeBytes(bs[i])
    ensures EncodeEach(ts) == items
  {
    forall i | 0 <= i < |ts|
      ensures EncodeEach(ts)[i] == items[i]
    {
      EncodeEachAt(ts, i);
    }
  }

  lemma EncodeFields(tx: Tx, a: nat, b: nat, c: nat)
    ensures Encode(Fields(tx, a, b, c)) == EncodeListSpec(FieldItems(tx, a, b, c))
  {
    var bs := [BigEndian(tx.nonce), BigEndian(Magnitude(tx.gasPrice)), BigEndian(tx.gasLimit), tx.to,
               BigEndian(Magnitude(tx.value)), tx.data, BigEndian(a), BigEndian(b), BigEndian(c)];
    EncodeLeaves(Fields(tx, a, b, c).children, bs, FieldItems(tx, a, b, c));
  }

  lemma {:induction false} EncodeEachAt(ts: seq<Tree>, i: nat)
    requires i < |ts|
    ensures EncodeEach(ts)[i] == Encode(ts[i])
  {
    if i == 0 {
    } else {
      EncodeEachAt(ts[1..], i - 1);
    }
  }

  /** A string never prints shorter than itself, and prints as itself exactly
      when it is one byte below 0x80. */
  lemma EncodingGrows(b: seq<Byte>)
    ensures |EncodeBytes(b)| >= |b|
    ensures |EncodeBytes(b)| == |b| <==> SelfEncoding(b)
  {
  }

  lemma SameListSamePayload(x: seq<seq<Byte>>, y: seq<seq<Byte>>)
    requires |EncodeListSpec(x)| <= MAX_INT && EncodeListSpec(x) == EncodeListSpec(y)
    ensures Concat(x) == Concat(y)
  {
    SplitPrefixed(true, Concat(x), []);
    SplitPrefixed(true, Concat(y), []);
    assert EncodeListSpec(x) + [] == LengthPrefix(|Concat(x)|, 0xc0) + Concat(x) + [];
  }

  /** Main result on the layout. The list the code hashes or sends reads back as
      the nine intended fields exactly when `to` and `data` are each a single
      byte below 0x80; for every other call the raw bytes are not the RLP of the
      fields. */
  lemma RawLayoutReadsBack(tx: Tx, a: nat, b: nat, c: nat)
    requires |EncodeListSpec(RawItems(tx, a, b, c))| <= MAX_INT
    ensures Decode(EncodeListSpec(RawItems(tx, a, b, c))) == Some((Fields(tx, a, b, c), []))
            <==> SelfEncoding(tx.to) && SelfEncoding(tx.data)
  {
    var raw := RawItems(tx, a, b, c);
    var meant := FieldItems(tx, a, b, c);
    var list := EncodeListSpec(raw);
    DecodeIffEncode(list, Fields(tx, a, b, c), []);
    EncodeFields(tx, a, b, c);
    assert EncodeListSpec(meant) + [] == EncodeListSpec(meant);
    if list == EncodeListSpec(meant) {
      SameListSamePayload(raw, meant);
      ConcatNine(raw);
      ConcatNine(meant);
      EncodingGrows(tx.to);
      EncodingGrows(tx.data);
    }
  }

  /** Both lists of signLegacyTx, for the 20-byte recipient it is called with:
      neither reads back as the transaction's fields. */
  lemma SignLegacyTxNeverReadsBack(tx: Tx, chainID: Int64, v: Int64, r: nat, s: nat)
    requires |tx.to| == 20
    requires |EncodeListSpec(UnsignedItems(tx, chainID))| <= MAX_INT
    requires |EncodeListSpec(SignedItems(tx, v, r, s))| <= MAX_INT
    ensures Decode(EncodeListSpec(UnsignedItems(tx, chainID))) != Some((Fields(tx, ToUint64(chainID), 0, 0), []))
    ensures Decode(EncodeListSpec(SignedItems(tx, v, r, s))) != Some((Fields(tx, Magnitude(Some(v)), r, s), []))
  {
    ItemsOfTheCode(tx, chainID, v, r, s);
    RawLayoutReadsBack(tx, ToUint64(chainID), 0, 0);
    RawLayoutReadsBack(tx, Magnitude(Some(v)), r, s);
  }

  /** With `to` and `data` passed through EncodeBytes the nine-field list is
      uniquely decodable. */
  lemma EncodedLayoutReadsBack(tx: Tx, a: nat, b: nat, c: nat, rest: seq<Byte>)
    requires |EncodeListSpec(FieldItems(tx, a, b, c))| <= MAX_INT
    ensures Decode(EncodeListSpec(FieldItems(tx, a, b, c)) + rest) == Some((Fields(tx, a, b, c), rest))
  {
    EncodeFields(tx, a, b, c);
    DecodeEncode(Fields(tx, a, b, c), rest);
  }

  // ---------------------------------------------------------------------
  // The raw layout still commits to the fields once the widths are fixed
  // ---------------------------------------------------------------------

  lemma PeelInt(n: nat, r: seq<Byte>, m: nat, q: seq<Byte>)
    requires Fits(n) && Fits(m)
    requires IntItem(n) + r == IntItem(m) + q
    ensures n == m && r == q
  {
    SplitBytes(BigEndian(n), r);
    SplitBytes(BigEndian(m), q);
    BigEndianRoundTrip(n);
    BigEndianRoundTrip(m);
  }

  lemma PeelRaw(x: seq<Byte>, r: seq<Byte>, y: seq<Byte>, q: seq<Byte>)
    requires |x| == |y| && x + r == y + q
    ensures x == y && r == q
  {
    assert x == (x + r)[..|x|] && r == (x + r)[|x|..];
    assert y == (y + q)[..|y|] && q == (y + q)[|y|..];
  }

  ghost predicate IntegersFit(tx: Tx) {
    Fits(Magnitude(tx.gasPrice)) && Fits(Magnitude(tx.value))
  }

  function Tail(tx: Tx, a: nat, b: nat, c: nat): seq<Byte> {
    IntItem(Magnitude(tx.value)) + (tx.data + (IntItem(a) + (IntItem(b) + (IntItem(c) + []))))
  }

  lemma ConcatFrom(x: seq<seq<Byte>>, i: nat)
    requires i < |x|
    ensures Concat(x[i..]) == x[i] + Concat(x[i + 1..])
  {
    ConcatFront(x[i], x[i + 1..]);
    assert x[i..] == [x[i]] + x[i + 1..];
  }

  lemma ConcatNineFromTheRight(x: seq<seq<Byte>>)
    requires |x| == 9
    ensures Concat(x) == x[0] + (x[1] + (x[2] + (x[3] + (x[4] + (x[5] + (x[6] + (x[7] + (x[8] + []))))))))
  {
    ConcatFrom(x, 0); ConcatFrom(x, 1); ConcatFrom(x, 2);
    ConcatFrom(x, 3); ConcatFrom(x, 4); ConcatFrom(x, 5);
    ConcatFrom(x, 6); ConcatFrom(x, 7); ConcatFrom(x, 8);
    assert x[0..] == x && x[9..] == [];
  }

  lemma RawPayload(tx: Tx, a: nat, b: nat, c: nat)
    ensures Concat(RawItems(tx, a, b, c))
            == IntItem(tx.nonce)
               + (IntItem(Magnitude(tx.gasPrice)) + (IntItem(tx.gasLimit) + (tx.to + Tail(tx, a, b, c))))
  {
    ConcatNineFromTheRight(RawItems(tx, a, b, c));
  }

  /** Two calls whose recipients have the same width and whose calldata have the
      same width (20 and 68 bytes in submitERC20Payout) hash the same list only
      if they agree on every field up to the sign of an integer. */
  lemma RawLayoutCommits(t: Tx, a: nat, b: nat, c: nat, u: Tx, d: nat, e: nat, f: nat)
    requires |EncodeListSpec(RawItems(t, a, b, c))| <= MAX_INT
    requires |t.to| == |u.to| && |t.data| == |u.data|
    requires IntegersFit(t) && IntegersFit(u)
    requires Fits(a) && Fits(b) && Fits(c) && Fits(d) && Fits(e) && Fits(f)
    requires EncodeListSpec(RawItems(t, a, b, c)) == EncodeListSpec(RawItems(u, d, e, f))
    ensures Fields(t, a, b, c) == Fields(u, d, e, f)
    ensures t.nonce == u.nonce && t.gasLimit == u.gasLimit && (a, b, c) == (d, e, f)
    ensures Magnitude(t.gasPrice) == Magnitude(u.gasPrice) && Magnitude(t.value) == Magnitude(u.value)
  {
    SameListSamePayload(RawItems(t, a, b, c), RawItems(u, d, e, f));
    RawPayload(t, a, b, c);
    RawPayload(u, d, e, f);
    Uint64Fits(t.nonce); Uint64Fits(u.nonce); Uint64Fits(t.gasLimit); Uint64Fits(u.gasLimit);
    PeelInt(t.nonce, IntItem(Magnitude(t.gasPrice)) + (IntItem(t.gasLimit) + (t.to + Tail(t, a, b, c))),
            u.nonce, IntItem(Magnitude(u.gasPrice)) + (IntItem(u.gasLimit) + (u.to + Tail(u, d, e, f))));
    PeelInt(Magnitude(t.gasPrice), IntItem(t.gasLimit) + (t.to + Tail(t, a, b, c)),
            Magnitude(u.gasPrice), IntItem(u.gasLimit) + (u.to + Tail(u, d, e, f)));
    PeelInt(t.gasLimit, t.to + Tail(t, a, b, c), u.gasLimit, u.to + Tail(u, d, e, f));
    PeelRaw(t.to, Tail(t, a, b, c), u.to, Tail(u, d, e, f));
    PeelInt(Magnitude(t.value), t.data + (IntItem(a) + (IntItem(b) + (IntItem(c) + []))),
            Magnitude(u.value), u.data + (IntItem(d) + (IntItem(e) + (IntItem(f) + []))));
    PeelRaw(t.data, IntItem(a) + (IntItem(b) + (IntItem(c) + [])),
            u.data, IntItem(d) + (IntItem(e) + (IntItem(f) + [])));
    PeelInt(a, IntItem(b) + (IntItem(c) + []), d, IntItem(e) + (IntItem(f) + []));
    PeelInt(b, IntItem(c) + [], e, IntItem(f) + []);
    PeelInt(c, [], f, []);
  }

  /** In particular the hashed list tells the chains apart. */
  lemma HashedListNamesTheChain(t: Tx, c: Int64, u: Tx, d: Int64)
    requires |EncodeListSpec(UnsignedItems(t, c))| <= MAX_INT
    requires |t.to| == |u.to| && |t.data| == |u.data| && IntegersFit(t) && IntegersFit(u)
    requires EncodeListSpec(UnsignedItems(t, c)) == EncodeListSpec(UnsignedItems(u, d))
    ensures c == d
  {
    ItemsOfTheCode(t, c, 0, 0, 0);
    ItemsOfTheCode(u, d, 0, 0, 0);
    Uint64Fits(ToUint64(c));
    Uint64Fits(ToUint64(d));
    Uint64Fits(0);
    RawLayoutCommits(t, ToUint64(c), 0, 0, u, ToUint64(d), 0, 0);
    ToUint64Keeps(c, d);
  }

  // ---------------------------------------------------------------------
  // Replay protection
  // ---------------------------------------------------------------------

  /** byte subtraction, then int64(...): sig[0] - 27 modulo 256. */
  function RecoveryBit(sig0: Byte): Byte {
    (sig0 - 27) % 0x100
  }

  /** chainID*2 + 35 + recoveryBit in 64-bit arithmetic. */
  function SigV(chainID: Int64, sig0: Byte): Int64 {
    Wrap64(Wrap64(Wrap64(chainID * 2) + 35) + RecoveryBit(sig0))
  }

  /** What a verifier reads from the printed v (EIP-155). */
  function ChainOf(v: nat): int { (v - 35) / 2 }
  function ParityOf(v: nat): int { (v - 35) % 2 }

  lemma WrapOnce(x: int, y: int)
    ensures Wrap64(Wrap64(x) + y) == Wrap64(x + y)
  {
    var k := (x - Wrap64(x)) / TWO64;
    assert Wrap64(x) == x - k * TWO64;
    var q, m := (x + y) / TWO64, (x + y) % TWO64;
    assert Wrap64(x) + y == (q - k) * TWO64 + m;
    assert (Wrap64(x) + y) % TWO64 == m;
  }

  lemma SigVIsOneWrap(chainID: Int64, sig0: Byte)
    ensures SigV(chainID, sig0) == Wrap64(chainID * 2 + 35 + RecoveryBit(sig0))
  {
    WrapOnce(chainID * 2, 35);
    WrapOnce(chainID * 2 + 35, RecoveryBit(sig0));
  }

  /** Within one turn, wrapping adds or subtracts 2^64 at most once. */
  lemma WrapNearby(i: int)
    requires -TWO64 <= i < TWO64 + TWO63
    ensures Wrap64(i) == if i < -TWO63 then i + TWO64 else if i < TWO63 then i else i - TWO64
  {
    assert i % TWO64 == if i < 0 then i + TWO64 else if i < TWO64 then i else i - TWO64;
  }

  lemma ReadsIff(v: nat, chain: int, bit: nat)
    ensures ChainOf(v) == chain && ParityOf(v) == bit <==> bit < 2 && v == chain * 2 + 35 + bit
  {
  }

  /** Main result on v: the chain and the parity can be read back from the
      printed v exactly when the recovery byte is 27 or 28 and the sum is from
      0 to 2^63 (the bound itself included: -2^63 prints as 2^63). */
  lemma SigVReadsBack(chainID: Int64, sig0: Byte)
    ensures var v := Magnitude(Some(SigV(chainID, sig0)));
            ChainOf(v) == chainID && ParityOf(v) == RecoveryBit(sig0)
            <==> sig0 in {27, 28} && 0 <= chainID * 2 + 35 + RecoveryBit(sig0) <= TWO63
  {
    SigVIsOneWrap(chainID, sig0);
    var sum := chainID * 2 + 35 + RecoveryBit(sig0);
    WrapNearby(sum);
    ReadsIff(Magnitude(Some(SigV(chainID, sig0))), chainID, RecoveryBit(sig0));
    assert RecoveryBit(sig0) < 2 <==> sig0 in {27, 28};
  }
}
