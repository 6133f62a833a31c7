/** Recursive Length Prefix encoding as rewards/payout.go prints it, and the
    decoder that Appendix B of the Ethereum Yellow Paper prescribes for it. */
module Rlp {
  import opened Words
  import opened Wrappers

  type Byte = b: int | 0 <= b < 0x100

  /** A Go slice is never longer than the largest 64-bit int. */
  const MAX_INT: int := MAX_INT64

  // ---------------------------------------------------------------------
  // Big-endian naturals
  // ---------------------------------------------------------------------

  /** big.Int.Bytes(): the shortest big-endian digits, none for zero. */
  function BigEndian(n: nat): (bs: seq<Byte>) {
    if n == 0 then [] else BigEndian(n / 0x100) + [n % 0x100]
  }

  /** big.Int.SetBytes(): leading zeros are allowed. */
  function FromBigEndian(bs: seq<Byte>): (n: nat) {
    if bs == [] then 0 else 0x100 * FromBigEndian(bs[..|bs| - 1]) + bs[|bs| - 1]
  }

  function Pow256(k: nat): (p: nat)
    ensures p >= 1
  {
    if k == 0 then 1 else 0x100 * Pow256(k - 1)
  }

  function Zeros(k: nat): (z: seq<Byte>)
    ensures |z| == k && forall i :: 0 <= i < k ==> z[i] == 0
  {
    seq(k, i => 0)
  }

  ghost predicate Minimal(bs: seq<Byte>) {
    bs != [] ==> bs[0] != 0
  }

  lemma {:induction false} BigEndianRoundTrip(n: nat)
    ensures FromBigEndian(BigEndian(n)) == n
    ensures Minimal(BigEndian(n))
    ensures n > 0 ==> BigEndian(n) != []
  {
    if n == 0 {
    } else {
      BigEndianRoundTrip(n / 0x100);
      assert BigEndian(n)[..|BigEndian(n)| - 1] == BigEndian(n / 0x100);
    }
  }

  lemma {:induction false} FromBigEndianRoundTrip(bs: seq<Byte>)
    requires Minimal(bs)
    ensures BigEndian(FromBigEndian(bs)) == bs
    ensures bs != [] ==> FromBigEndian(bs) > 0
  {
    if bs == [] {
    } else {
      var front := bs[..|bs| - 1];
      FromBigEndianRoundTrip(front);
      assert bs == front + [bs[|bs| - 1]];
      assert FromBigEndian(bs) / 0x100 == FromBigEndian(front);
      assert FromBigEndian(bs) % 0x100 == bs[|bs| - 1];
    }
  }

  /** k digits are enough exactly for the numbers below 256^k. */
  lemma {:induction false} BigEndianWidth(n: nat, k: nat)
    ensures |BigEndian(n)| <= k <==> n < Pow256(k)
  {
    if n == 0 || k == 0 {
    } else {
      BigEndianWidth(n / 0x100, k - 1);
    }
  }

  lemma {:induction false} FromBigEndianBound(bs: seq<Byte>)
    ensures FromBigEndian(bs) < Pow256(|bs|)
  {
    if bs == [] {
    } else {
      FromBigEndianBound(bs[..|bs| - 1]);
    }
  }

  /** Leading zeros do not change the number. */
  lemma {:induction false} LeadingZeros(k: nat, bs: seq<Byte>)
    ensures FromBigEndian(Zeros(k) + bs) == FromBigEndian(bs)
  {
    var zeros := Zeros(k);
    if bs != [] {
      var front := bs[..|bs| - 1];
      LeadingZeros(k, front);
      assert (zeros + bs)[..|zeros + bs| - 1] == zeros + front;
    } else if k > 0 {
      LeadingZeros(k - 1, []);
      assert (zeros + bs)[..k - 1] == Zeros(k - 1) + [];
    } else {
      assert zeros + bs == [];
    }
  }

  lemma Pow256Eight()
    ensures Pow256(8) == MAX_UINT64 + 1
  {
    assert Pow256(4) == 0x1_0000_0000;
    assert Pow256(6) == 0x1_0000_0000_0000;
  }

  // ---------------------------------------------------------------------
  // The printer
  // ---------------------------------------------------------------------

  /** byte(x) of Go: the low eight bits. */
  function ToByte(x: nat): Byte {
    x % 0x100
  }

  function LengthPrefix(length: nat, offset: nat): (p: seq<Byte>)
    ensures |p| >= 1
  {
    if length < 56 then
      [ToByte(offset + length)]
    else
      var lengthBytes := BigEndian(length);
      [ToByte(offset + 55 + |lengthBytes|)] + lengthBytes
  }

  function EncodeBytes(b: seq<Byte>): (e: seq<Byte>) {
    if SelfEncoding(b) then b else LengthPrefix(|b|, 0x80) + b
  }

  /** The only strings that are their own encoding. */
  predicate SelfEncoding(b: seq<Byte>) {
    |b| == 1 && b[0] < 0x80
  }

  function Concat(items: seq<seq<Byte>>): (payload: seq<Byte>) {
    if items == [] then [] else Concat(items[..|items| - 1]) + items[|items| - 1]
  }

  function EncodeListSpec(items: seq<seq<Byte>>): (e: seq<Byte>) {
    LengthPrefix(|Concat(items)|, 0xc0) + Concat(items)
  }

  method EncodeList(items: seq<seq<Byte>>) returns (e: seq<Byte>)
    ensures e == EncodeListSpec(items)
  {
    var payload: seq<Byte> := [];
    for i := 0 to |items|
      invariant payload == Concat(items[..i])
    {
      payload := payload + items[i];
      assert items[..i + 1][..i] == items[..i];
    }
    assert items[..|items|] == items;
    e := LengthPrefix(|payload|, 0xc0) + payload;
  }

  function EncodeUint(n: nat): (e: seq<Byte>) {
    if n == 0 then [0x80] else EncodeBytes(BigEndian(n))
  }

  function Magnitude(n: Option<int>): nat {
    match n
    case None => 0
    case Some(v) => if v < 0 then -v else v
  }

  /** A nil big.Int is None; Bytes() drops the sign. */
  function EncodeBigInt(n: Option<int>): (e: seq<Byte>) {
    if n.None? || n.value == 0 then [0x80] else EncodeBytes(BigEndian(Magnitude(n)))
  }

  // ---------------------------------------------------------------------
  // The decoder of the standard
  // ---------------------------------------------------------------------

  datatype Split = Split(isList: bool, payload: seq<Byte>, rest: seq<Byte>)

  /** Takes `length` bytes after a header of `header` bytes. */
  function Take(isList: bool, bs: seq<Byte>, header: nat, length: nat): Option<Split>
    requires header <= |bs|
  {
    if header + length <= |bs| then
      Some(Split(isList, bs[header..header + length], bs[header + length..]))
    else
      None
  }

  /** The long form: `width` big-endian length bytes follow the first byte. They
      must have no leading zero and name a length that needs the long form. */
  function TakeLong(isList: bool, bs: seq<Byte>, width: nat): Option<Split> {
    if 0 < width < |bs| && bs[1] != 0 && FromBigEndian(bs[1..1 + width]) >= 56 then
      Take(isList, bs, 1 + width, FromBigEndian(bs[1..1 + width]))
    else
      None
  }

  /** Splits the first item off a byte string. */
  function SplitFirst(bs: seq<Byte>): (r: Option<Split>)
    ensures r.Some? ==> |r.value.rest| < |bs| && |r.value.payload| <= |bs|
    ensures r.Some? && r.value.isList ==> |r.value.payload| < |bs|
  {
    if bs == [] then None
    else if bs[0] < 0x80 then Some(Split(false, bs[..1], bs[1..]))
    else if bs[0] < 0xb8 then
      var s := Take(false, bs, 1, bs[0] - 0x80);
      if s.Some? && SelfEncoding(s.value.payload) then None else s
    else if bs[0] < 0xc0 then TakeLong(false, bs, bs[0] - 0xb7)
    else if bs[0] < 0xf8 then Take(true, bs, 1, bs[0] - 0xc0)
    else TakeLong(true, bs, bs[0] - 0xf7)
  }

  /** What RLP serialises: a byte string or a list of such things. */
  datatype Tree = Leaf(bytes: seq<Byte>) | Node(children: seq<Tree>)

  function Decode(bs: seq<Byte>): (r: Option<(Tree, seq<Byte>)>)
    ensures r.Some? ==> |r.value.1| < |bs|
    decreases |bs|, 0
  {
    match SplitFirst(bs)
    case None => None
    case Some(Split(false, payload, rest)) => Some((Leaf(payload), rest))
    case Some(Split(true, payload, rest)) =>
      match DecodeAll(payload)
      case None => None
      case Some(children) => Some((Node(children), rest))
  }

  function DecodeAll(payload: seq<Byte>): (r: Option<seq<Tree>>)
    decreases |payload|, 1
  {
    if payload == [] then Some([])
    else
      match Decode(payload)
      case None => None
      case Some((first, rest)) =>
        match DecodeAll(rest)
        case None => None
        case Some(others) => Some([first] + others)
  }

  /** The whole tree printed with the functions of payout.go. */
  function Encode(t: Tree): (e: seq<Byte>) {
    match t
    case Leaf(b) => EncodeBytes(b)
    case Node(ts) => EncodeListSpec(EncodeEach(ts))
  }

  function EncodeEach(ts: seq<Tree>): (es: seq<seq<Byte>>)
    ensures |es| == |ts|
  {
    if ts == [] then [] else [Encode(ts[0])] + EncodeEach(ts[1..])
  }

  // ---------------------------------------------------------------------
  // One item: printing and splitting are inverse
  // ---------------------------------------------------------------------

  lemma LengthWidth(length: nat)
    requires 56 <= length <= MAX_INT
    ensures 1 <= |BigEndian(length)| <= 8
    ensures BigEndian(length)[0] != 0 && FromBigEndian(BigEndian(length)) == length
  {
    BigEndianRoundTrip(length);
    BigEndianWidth(length, 8);
    Pow256Eight();
  }

  lemma TakeExact(isList: bool, header: seq<Byte>, b: seq<Byte>, r: seq<Byte>)
    ensures Take(isList, header + b + r, |header|, |b|) == Some(Split(isList, b, r))
  {
  }

  lemma TakeLongExact(isList: bool, base: nat, b: seq<Byte>, r: seq<Byte>)
    requires 56 <= |b| <= MAX_INT && base <= 0xf7
    ensures var w := BigEndian(|b|);
            1 <= |w| <= 8 &&
            TakeLong(isList, [ToByte(base + |w|)] + w + b + r, |w|) == Some(Split(isList, b, r))
  {
    LengthWidth(|b|);
    var w := BigEndian(|b|);
    var header := [ToByte(base + |w|)] + w;
    assert (header + b + r)[1..1 + |w|] == w;
    TakeExact(isList, header, b, r);
  }

  lemma SplitShort(isList: bool, payload: seq<Byte>, r: seq<Byte>)
    requires |payload| < 56
    requires !isList ==> !SelfEncoding(payload)
    ensures var offset := if isList then 0xc0 else 0x80;
            SplitFirst([offset + |payload|] + payload + r) == Some(Split(isList, payload, r))
  {
  }

  lemma SplitLong(isList: bool, payload: seq<Byte>, r: seq<Byte>)
    requires 56 <= |payload| <= MAX_INT
    ensures var base := if isList then 0xf7 else 0xb7;
            var w := BigEndian(|payload|);
            SplitFirst([ToByte(base + |w|)] + w + payload + r) == Some(Split(isList, payload, r))
  {
    var base := if isList then 0xf7 else 0xb7;
    TakeLongExact(isList, base, payload, r);
    var w := BigEndian(|payload|);
    var all: seq<Byte> := [ToByte(base + |w|)] + w + payload + r;
    assert all[0] == base + |w|;
  }

  /** A length prefix, its payload and anything after it split as printed. */
  lemma SplitPrefixed(isList: bool, payload: seq<Byte>, r: seq<Byte>)
    requires |payload| <= MAX_INT
    requires !isList ==> !SelfEncoding(payload)
    ensures SplitFirst(LengthPrefix(|payload|, if isList then 0xc0 else 0x80) + payload + r)
            == Some(Split(isList, payload, r))
  {
    if |payload| < 56 {
      SplitShort(isList, payload, r);
    } else {
      SplitLong(isList, payload, r);
    }
  }

  lemma SplitBytes(b: seq<Byte>, r: seq<Byte>)
    requires |b| <= MAX_INT
    ensures SplitFirst(EncodeBytes(b) + r) == Some(Split(false, b, r))
  {
    if SelfEncoding(b) {
      assert (b + r)[..1] == b && (b + r)[1..] == r;
    } else {
      SplitPrefixed(false, b, r);
    }
  }

  lemma TakeLongCanonical(isList: bool, base: nat, bs: seq<Byte>, width: nat)
    requires bs != [] && bs[0] == base + width && width <= 8 && 55 <= base <= 0xf7
    requires TakeLong(isList, bs, width).Some?
    ensures var s := TakeLong(isList, bs, width).value;
            |s.payload| >= 56 && bs == LengthPrefix(|s.payload|, base - 55) + s.payload + s.rest
  {
    var w := bs[1..1 + width];
    FromBigEndianRoundTrip(w);
    var s := TakeLong(isList, bs, width).value;
    assert BigEndian(|s.payload|) == w && LengthPrefix(|s.payload|, base - 55) == [bs[0]] + w;
    assert bs == [bs[0]] + w + s.payload + s.rest;
  }

  /** Whatever splits off was printed by the encoder: the form is canonical. */
  lemma SplitCanonical(bs: seq<Byte>)
    requires SplitFirst(bs).Some?
    ensures var s := SplitFirst(bs).value;
            bs == (if s.isList then LengthPrefix(|s.payload|, 0xc0) + s.payload
                   else EncodeBytes(s.payload)) + s.rest
  {
    var s := SplitFirst(bs).value;
    if bs[0] < 0x80 {
      assert bs == s.payload + s.rest;
    } else if bs[0] < 0xb8 || 0xc0 <= bs[0] < 0xf8 {
      assert bs == [bs[0]] + s.payload + s.rest;
    } else if bs[0] < 0xc0 {
      TakeLongCanonical(false, 0xb7, bs, bs[0] - 0xb7);
    } else {
      TakeLongCanonical(true, 0xf7, bs, bs[0] - 0xf7);
    }
  }

  // ---------------------------------------------------------------------
  // Whole trees
  // ---------------------------------------------------------------------

  lemma {:induction false} ConcatFront(first: seq<Byte>, others: seq<seq<Byte>>)
    ensures Concat([first] + others) == first + Concat(others)
  {
    if others == [] {
      assert [first][..0] == [];
      assert Concat([first]) == Concat([]) + first;
      assert [first] + others == [first];
    } else {
      ConcatFront(first, others[..|others| - 1]);
      ConcatLast([first] + others[..|others| - 1], others[|others| - 1]);
      assert [first] + others == [first] + others[..|others| - 1] + [others[|others| - 1]];
    }
  }

  lemma ConcatLast(items: seq<seq<Byte>>, last: seq<Byte>)
    ensures Concat(items + [last]) == Concat(items) + last
  {
  }

  lemma EncodeNonEmpty(t: Tree)
    ensures Encode(t) != []
  {
  }

  /** Decoding undoes printing, for every tree that fits in a Go slice and
      whatever bytes follow it. */
  lemma {:induction false} DecodeEncode(t: Tree, r: seq<Byte>)
    requires |Encode(t)| <= MAX_INT
    ensures Decode(Encode(t) + r) == Some((t, r))
    decreases t, 0
  {
    match t
    case Leaf(b) =>
      SplitBytes(b, r);
    case Node(ts) =>
      var payload := Concat(EncodeEach(ts));
      SplitPrefixed(true, payload, r);
      assert Encode(t) + r == LengthPrefix(|payload|, 0xc0) + payload + r;
      DecodeEncodeEach(ts);
  }

  lemma {:induction false} DecodeEncodeEach(ts: seq<Tree>)
    requires |Concat(EncodeEach(ts))| <= MAX_INT
    ensures DecodeAll(Concat(EncodeEach(ts))) == Some(ts)
    decreases ts, 1
  {
    if ts == [] {
    } else {
      var others := EncodeEach(ts[1..]);
      ConcatFront(Encode(ts[0]), others);
      EncodeNonEmpty(ts[0]);
      DecodeEncode(ts[0], Concat(others));
      DecodeEncodeEach(ts[1..]);
      assert [ts[0]] + ts[1..] == ts;
    }
  }

  /** The decoder accepts nothing but what the printer prints. */
  lemma {:induction false} DecodeCanonical(bs: seq<Byte>)
    requires Decode(bs).Some?
    ensures bs == Encode(Decode(bs).value.0) + Decode(bs).value.1
    decreases |bs|, 0
  {
    SplitCanonical(bs);
    var s := SplitFirst(bs).value;
    if s.isList {
      DecodeAllCanonical(s.payload);
    }
  }

  lemma {:induction false} DecodeAllCanonical(payload: seq<Byte>)
    requires DecodeAll(payload).Some?
    ensures payload == Concat(EncodeEach(DecodeAll(payload).value))
    decreases |payload|, 1
  {
    if payload == [] {
    } else {
      DecodeCanonical(payload);
      var (first, rest) := Decode(payload).value;
      DecodeAllCanonical(rest);
      var others := DecodeAll(rest).value;
      assert ([first] + others)[1..] == others;
      ConcatFront(Encode(first), EncodeEach(others));
    }
  }

  /** Main result: reading t and then `rest` is the same as having printed t in
      front of `rest`. */
  lemma DecodeIffEncode(bs: seq<Byte>, t: Tree, rest: seq<Byte>)
    requires |bs| <= MAX_INT
    ensures Decode(bs) == Some((t, rest)) <==> bs == Encode(t) + rest
  {
    if Decode(bs) == Some((t, rest)) {
      DecodeCanonical(bs);
    }
    if bs == Encode(t) + rest {
      DecodeEncode(t, rest);
    }
  }

  /** No encoding is a proper prefix of another, and no two trees share one. */
  lemma PrefixFree(t: Tree, r: seq<Byte>, u: Tree, q: seq<Byte>)
    requires |Encode(t)| <= MAX_INT && |Encode(u)| <= MAX_INT
    requires Encode(t) + r == Encode(u) + q
    ensures t == u && r == q
  {
    DecodeEncode(t, r);
    DecodeEncode(u, q);
  }

  /** EncodeList takes items that are already encoded: if each of them is the
      encoding of some tree, the list decodes back to those trees. */
  lemma ListRoundTrip(items: seq<seq<Byte>>, ts: seq<Tree>, r: seq<Byte>)
    requires |EncodeListSpec(items)| <= MAX_INT
    requires items == EncodeEach(ts)
    ensures Decode(EncodeListSpec(items) + r) == Some((Node(ts), r))
  {
    DecodeEncode(Node(ts), r);
  }

  // ---------------------------------------------------------------------
  // Integers
  // ---------------------------------------------------------------------

  /** Both integer printers print the minimal big-endian bytes as a string; zero
      needs no special case in the meaning, only in the code. */
  lemma IntegerEncodings(n: nat)
    ensures EncodeUint(n) == EncodeBytes(BigEndian(n)) == EncodeBigInt(Some(n))
  {
  }

  lemma BigIntEncoding(n: Option<int>)
    ensures EncodeBigInt(n) == EncodeBytes(BigEndian(Magnitude(n))) == Encode(Leaf(BigEndian(Magnitude(n))))
  {
  }

  /** nil prints like 0, and a negative number like its absolute value. */
  lemma BigIntSign(n: nat, negative: int)
    requires negative == 0 - n
    ensures EncodeBigInt(None) == EncodeUint(0)
    ensures EncodeBigInt(Some(negative)) == EncodeUint(n)
  {
    IntegerEncodings(n);
  }

  /** A slice of bytes; big.Int values never need more than MAX_INT of them. */
  ghost predicate Fits(n: nat) {
    |BigEndian(n)| <= MAX_INT
  }

  lemma Uint64Fits(n: nat)
    requires n <= MAX_UINT64
    ensures Fits(n)
  {
    BigEndianWidth(n, 8);
    Pow256Eight();
  }

  /** Exactly the magnitude is printed: nil reads as zero and signs are lost. */
  lemma EncodeBigIntInjective(a: Option<int>, b: Option<int>)
    requires Fits(Magnitude(a)) && Fits(Magnitude(b))
    ensures EncodeBigInt(a) == EncodeBigInt(b) <==> Magnitude(a) == Magnitude(b)
  {
    BigIntEncoding(a);
    BigIntEncoding(b);
    if EncodeBigInt(a) == EncodeBigInt(b) {
      SplitBytes(BigEndian(Magnitude(a)), []);
      SplitBytes(BigEndian(Magnitude(b)), []);
      BigEndianRoundTrip(Magnitude(a));
      BigEndianRoundTrip(Magnitude(b));
    }
  }

  lemma EncodeUintInjective(a: nat, b: nat)
    requires a <= MAX_UINT64 && b <= MAX_UINT64
    ensures EncodeUint(a) == EncodeUint(b) <==> a == b
  {
    IntegerEncodings(a);
    IntegerEncodings(b);
    Uint64Fits(a);
    Uint64Fits(b);
    EncodeBigIntInjective(Some(a), Some(b));
  }
}
