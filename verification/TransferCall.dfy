/** encodeTransferCall of rewards/payout.go: the 68 bytes of calldata for
    transfer(address,uint256), and the reader the ABI layout prescribes. */
module TransferCall {
  import opened Wrappers
  import opened Rlp

  const SELECTOR: seq<Byte> := [0xa9, 0x05, 0x9c, 0xbb]

  // ---------------------------------------------------------------------
  // Hex addresses
  // ---------------------------------------------------------------------

  /** strings.ToLower as far as hex digits and the 0x prefix can tell. */
  function LowerChar(c: char): char {
    if 'A' <= c <= 'Z' then ((c as int) + 32) as char else c
  }

  function ToLower(s: string): (r: string)
    ensures |r| == |s|
  {
    seq(|s|, i requires 0 <= i < |s| => LowerChar(s[i]))
  }

  function TrimPrefix(s: string, prefix: string): string {
    if prefix <= s then s[|prefix|..] else s
  }

  function HexValue(c: char): (v: Option<Byte>)
    ensures v.Some? ==> v.value < 16
  {
    if '0' <= c <= '9' then Some((c as int) - ('0' as int))
    else if 'a' <= c <= 'f' then Some((c as int) - ('a' as int) + 10)
    else if 'A' <= c <= 'F' then Some((c as int) - ('A' as int) + 10)
    else None
  }

  /** hex.DecodeString with its error dropped: the bytes before the first bad
      digit or before a lone last one. */
  function HexDecode(s: string): (bs: seq<Byte>) {
    if |s| < 2 || HexValue(s[0]).None? || HexValue(s[1]).None? then []
    else
      var hi, lo := HexValue(s[0]).value, HexValue(s[1]).value;
      [hi * 16 + lo] + HexDecode(s[2..])
  }

  function AddressBytes(toAddress: string): seq<Byte> {
    HexDecode(TrimPrefix(ToLower(toAddress), "0x"))
  }

  function HexDigit(d: int): char
    requires 0 <= d < 16
  {
    if d < 10 then ((d + ('0' as int)) as char) else ((d - 10 + ('a' as int)) as char)
  }

  function HexOf(bs: seq<Byte>): string {
    if bs == [] then "" else [HexDigit(bs[0] / 16), HexDigit(bs[0] % 16)] + HexOf(bs[1..])
  }

  lemma {:induction false} HexRoundTrip(bs: seq<Byte>)
    ensures HexDecode(HexOf(bs)) == bs
    ensures ToLower(HexOf(bs)) == HexOf(bs)
    ensures !("0x" <= HexOf(bs))
  {
    if bs == [] {
    } else {
      HexRoundTrip(bs[1..]);
      var pair := [HexDigit(bs[0] / 16), HexDigit(bs[0] % 16)];
      assert HexOf(bs)[2..] == HexOf(bs[1..]);
      assert ToLower(HexOf(bs)) == ToLower(pair) + ToLower(HexOf(bs[1..]));
      assert ToLower(pair) == pair;
    }
  }

  /** Folding the case changes no hex value and makes no other character a digit. */
  lemma LowerKeepsValue(c: char)
    ensures HexValue(LowerChar(c)) == HexValue(c)
    ensures LowerChar(c) == 'x' <==> c in {'x', 'X'}
    ensures LowerChar(c) == '0' <==> c == '0'
  {
  }

  lemma {:induction false} LowerKeepsBytes(s: string)
    ensures HexDecode(ToLower(s)) == HexDecode(s)
    decreases |s|
  {
    if |s| < 2 {
    } else {
      LowerKeepsValue(s[0]);
      LowerKeepsValue(s[1]);
      LowerKeepsBytes(s[2..]);
      assert ToLower(s)[2..] == ToLower(s[2..]);
    }
  }

  /** The string without a leading 0x or 0X. */
  function Digits(toAddress: string): string {
    if |toAddress| >= 2 && toAddress[0] == '0' && toAddress[1] in {'x', 'X'} then toAddress[2..] else toAddress
  }

  /** The address bytes are the hex value of the string as written. */
  lemma AddressAsWritten(toAddress: string)
    ensures AddressBytes(toAddress) == HexDecode(Digits(toAddress))
  {
    var low := ToLower(toAddress);
    if |toAddress| >= 2 {
      LowerKeepsValue(toAddress[0]);
      LowerKeepsValue(toAddress[1]);
      assert "0x" <= low <==> low[0] == '0' && low[1] == 'x';
      assert low[2..] == ToLower(toAddress[2..]);
    }
    LowerKeepsBytes(Digits(toAddress));
  }

  /** The same hex digit, in either case. */
  predicate SameDigit(c: char, d: char) {
    c == d || (c, d) in {('A', 'a'), ('B', 'b'), ('C', 'c'), ('D', 'd'), ('E', 'e'), ('F', 'f')}
  }

  predicate SameDigits(s: string, t: string) {
    |s| == |t| && forall i :: 0 <= i < |s| ==> SameDigit(s[i], t[i])
  }

  lemma SameDigitsSplit(s: string, c: char, d: char, t: string)
    requires |s| >= 2
    ensures SameDigits(s, [c, d] + t) <==> SameDigit(s[0], c) && SameDigit(s[1], d) && SameDigits(s[2..], t)
  {
    var u := [c, d] + t;
    if SameDigit(s[0], c) && SameDigit(s[1], d) && SameDigits(s[2..], t) {
      assert forall i :: 2 <= i < |s| ==> s[i] == s[2..][i - 2] && u[i] == t[i - 2];
    }
    if SameDigits(s, u) {
      assert u[0] == c && u[1] == d;
      assert forall i :: 0 <= i < |s| - 2 ==> s[2..][i] == s[i + 2] && t[i] == u[i + 2];
    }
  }

  lemma PairIff(c: char, d: char, b: Byte)
    ensures SameDigit(c, HexDigit(b / 16)) && SameDigit(d, HexDigit(b % 16))
            <==> HexValue(c).Some? && HexValue(d).Some? && HexValue(c).value * 16 + HexValue(d).value == b
  {
    SameDigitIff(c, b / 16);
    SameDigitIff(d, b % 16);
  }

  /** The spellings of a byte string are all strings of the right length with its
      value. */
  lemma {:induction false} SameDigitsIff(s: string, a: seq<Byte>)
    ensures SameDigits(s, HexOf(a)) <==> |s| == 2 * |a| && HexDecode(s) == a
    decreases |a|
  {
    if a == [] || |s| < 2 {
    } else {
      SameDigitsIff(s[2..], a[1..]);
      SameDigitsSplit(s, HexDigit(a[0] / 16), HexDigit(a[0] % 16), HexOf(a[1..]));
      PairIff(s[0], s[1], a[0]);
      assert a == [a[0]] + a[1..];
    }
  }

  lemma SameDigitIff(c: char, d: Byte)
    requires d < 16
    ensures SameDigit(c, HexDigit(d)) <==> HexValue(c) == Some(d)
  {
  }

  /** Every casing of the hex digits of an address, each letter on its own, with or
      without 0x or 0X, names that address; and of the strings of that length no
      other does. */
  lemma AddressRoundTrip(a: seq<Byte>, s: string)
    ensures SameDigits(Digits(s), HexOf(a)) <==> |Digits(s)| == 2 * |a| && AddressBytes(s) == a
  {
    AddressAsWritten(s);
    SameDigitsIff(Digits(s), a);
  }

  // ---------------------------------------------------------------------
  // The buffer
  // ---------------------------------------------------------------------

  /** copy(buf[start:end], src) of Go: as many bytes as fit. */
  function Overlay(buf: seq<Byte>, start: nat, end: nat, src: seq<Byte>): (r: seq<Byte>)
    requires start <= end <= |buf|
    ensures |r| == |buf|
  {
    var n := if |src| < end - start then |src| else end - start;
    buf[..start] + src[..n] + buf[start + n..]
  }

  method Copy(buf: array<Byte>, start: nat, end: nat, src: seq<Byte>)
    requires start <= end <= buf.Length
    modifies buf
    ensures buf[..] == Overlay(old(buf[..]), start, end, src)
  {
    var n := if |src| < end - start then |src| else end - start;
    forall i | 0 <= i < n {
      buf[start + i] := src[i];
    }
  }

  /** None is the run-time panic of a slice expression that starts below zero. */
  function Calldata(address: seq<Byte>, amountBytes: seq<Byte>): (r: Option<seq<Byte>>)
    ensures r.Some? ==> |r.value| == 68
  {
    var start := 4 + 32 + (32 - |amountBytes|);
    if start < 0 then None
    else
      var buf := Overlay(Zeros(68), 0, 4, SELECTOR);
      Some(Overlay(Overlay(buf, 16, 36, address), start, 68, amountBytes))
  }

  method EncodeTransferCall(toAddress: string, amount: int) returns (r: Option<seq<Byte>>)
    ensures r == Calldata(AddressBytes(toAddress), BigEndian(Magnitude(Some(amount))))
  {
    var addrBytes := AddressBytes(toAddress);
    var buf := new Byte[68](i => 0);
    assert buf[..] == Zeros(68);
    Copy(buf, 0, 4, SELECTOR);
    Copy(buf, 4 + 12, 4 + 32, addrBytes);
    var amountBytes := BigEndian(Magnitude(Some(amount)));
    var start := 4 + 32 + (32 - |amountBytes|);
    if start < 0 {
      return None;
    }
    Copy(buf, start, 68, amountBytes);
    return Some(buf[..]);
  }

  /** The ABI reader: selector, a left-padded 20-byte address, a uint256. */
  function ReadTransferCall(d: seq<Byte>): Option<(seq<Byte>, nat)> {
    if |d| == 68 && d[..4] == SELECTOR && d[4..16] == Zeros(12) then
      Some((d[16..36], FromBigEndian(d[36..])))
    else
      None
  }

  /** The layout the ABI asks for, both arguments right-aligned in 32 bytes. */
  lemma CalldataLayout(address: seq<Byte>, amountBytes: seq<Byte>)
    requires |address| == 20 && |amountBytes| <= 32
    ensures Calldata(address, amountBytes)
            == Some([0xa9, 0x05, 0x9c, 0xbb] + Zeros(12) + address + (Zeros(32 - |amountBytes|) + amountBytes))
  {
    var buf := Overlay(Zeros(68), 0, 4, SELECTOR);
    assert buf == SELECTOR + Zeros(64);
    var head := SELECTOR + Zeros(12) + address;
    var withAddress := Overlay(buf, 16, 36, address);
    assert withAddress == head + Zeros(32);
    var d := Overlay(withAddress, 68 - |amountBytes|, 68, amountBytes);
    assert d == withAddress[..68 - |amountBytes|] + amountBytes;
    assert withAddress[..68 - |amountBytes|] == head + Zeros(32 - |amountBytes|);
    assert d == head + (Zeros(32 - |amountBytes|) + amountBytes);
    assert Calldata(address, amountBytes) == Some(d);
  }

  lemma LayoutReads(address: seq<Byte>, word: seq<Byte>)
    requires |address| == 20 && |word| == 32
    ensures ReadTransferCall(SELECTOR + Zeros(12) + address + word)
            == Some((address, FromBigEndian(word)))
  {
  }

  /** Main result: the calldata reads back as the address and the amount exactly
      when the address string decodes to 20 bytes and the amount is a uint256. */
  lemma TransferCallReadsBack(address: seq<Byte>, amount: int)
    ensures (var r := Calldata(address, BigEndian(Magnitude(Some(amount))));
             r.Some? && ReadTransferCall(r.value) == Some((address, amount)))
            <==> |address| == 20 && 0 <= amount < Pow256(32)
  {
    var digits := BigEndian(Magnitude(Some(amount)));
    var r := Calldata(address, digits);
    if |address| == 20 && 0 <= amount < Pow256(32) {
      BigEndianWidth(amount, 32);
      CalldataLayout(address, digits);
      LayoutReads(address, Zeros(32 - |digits|) + digits);
      LeadingZeros(32 - |digits|, digits);
      BigEndianRoundTrip(amount);
    } else if r.Some? && ReadTransferCall(r.value) == Some((address, amount)) {
      FromBigEndianBound(r.value[36..]);
    }
  }

  /** The run-time panic: amounts of more than 68 bytes. */
  lemma CalldataPanicsIff(address: seq<Byte>, amount: int)
    ensures Calldata(address, BigEndian(Magnitude(Some(amount)))).None? <==> Magnitude(Some(amount)) >= Pow256(68)
  {
    BigEndianWidth(Magnitude(Some(amount)), 68);
  }

  /** From 33 bytes on the amount overwrites the end of the address word, and from
      65 bytes on the selector: only the bytes ahead of it are left. */
  lemma LongAmountOverwrites(address: seq<Byte>, amountBytes: seq<Byte>)
    requires |address| == 20 && 32 < |amountBytes| <= 68
    ensures var left := 68 - |amountBytes|;
            Calldata(address, amountBytes) == Some((SELECTOR + Zeros(12) + address)[..left] + amountBytes)
  {
    var buf := Overlay(Zeros(68), 0, 4, SELECTOR);
    assert buf == SELECTOR + Zeros(64);
    var head := SELECTOR + Zeros(12) + address;
    var withAddress := Overlay(buf, 16, 36, address);
    assert withAddress == head + Zeros(32);
    var left := 68 - |amountBytes|;
    assert withAddress[..left] == head[..left];
    var d := Overlay(withAddress, left, 68, amountBytes);
    assert d == withAddress[..left] + amountBytes;
    assert Calldata(address, amountBytes) == Some(d);
  }

  /** A source one byte too short for its slot leaves the last byte as it was. */
  lemma OverlayShort(buf: seq<Byte>, start: nat, end: nat, src: seq<Byte>)
    requires start + |src| + 1 == end <= |buf| && buf[end - 1] == 0
    ensures Overlay(buf, start, end, src) == Overlay(buf, start, end, src + [0])
  {
  }

  /** An address one byte short is shifted, not padded: the last byte of the
      address word is zero. */
  lemma ShortAddressIsShifted(address: seq<Byte>, amount: nat)
    requires |address| == 19 && amount < Pow256(32)
    ensures var r := Calldata(address, BigEndian(amount));
            r.Some? && ReadTransferCall(r.value) == Some((address + [0], amount))
  {
    var digits := BigEndian(amount);
    BigEndianWidth(amount, 32);
    TransferCallReadsBack(address + [0], amount);
    var buf := Overlay(Zeros(68), 0, 4, SELECTOR);
    assert buf[35] == 0;
    OverlayShort(buf, 16, 36, address);
  }

  // ---------------------------------------------------------------------
  // The dropped error of the hex decoder
  // ---------------------------------------------------------------------

  predicate IsHex(c: char) {
    HexValue(c).Some?
  }

  /** hex.DecodeString with its error, which is None. */
  function StrictHex(s: string): (bs: Option<seq<Byte>>) {
    if s == "" then Some([])
    else if |s| == 1 || !IsHex(s[0]) || !IsHex(s[1]) then None
    else
      match StrictHex(s[2..])
      case None => None
      case Some(rest) => Some([HexValue(s[0]).value * 16 + HexValue(s[1]).value] + rest)
  }

  predicate AllHex(s: string) {
    forall i :: 0 <= i < |s| ==> IsHex(s[i])
  }

  lemma AllHexSplit(s: string)
    requires |s| >= 2
    ensures AllHex(s) <==> IsHex(s[0]) && IsHex(s[1]) && AllHex(s[2..])
  {
    if IsHex(s[0]) && IsHex(s[1]) && AllHex(s[2..]) {
      forall i | 2 <= i < |s|
        ensures IsHex(s[i])
      {
        assert s[i] == s[2..][i - 2];
      }
    }
  }

  /** The decoder errs exactly on odd lengths and other characters... */
  lemma {:induction false} StrictHexIff(s: string)
    ensures StrictHex(s).Some? <==> |s| % 2 == 0 && AllHex(s)
  {
    if |s| < 2 {
    } else {
      StrictHexIff(s[2..]);
      AllHexSplit(s);
      assert |s| % 2 == |s[2..]| % 2;
    }
  }

  /** ...and without an error it has read two digits for each byte. */
  lemma {:induction false} StrictHexValue(s: string)
    requires StrictHex(s).Some?
    ensures StrictHex(s).value == HexDecode(s) && |s| == 2 * |HexDecode(s)|
  {
    if s == "" {
    } else {
      StrictHexValue(s[2..]);
    }
  }

  /** What comes back in spite of the error: n bytes from 2n digits, up to the
      first pair that is not two digits. */
  lemma {:induction false} HexDecodeLength(s: string, n: nat)
    ensures |HexDecode(s)| == n
            <==> && 2 * n <= |s| && AllHex(s[..2 * n])
                 && (|s| < 2 * n + 2 || !IsHex(s[2 * n]) || !IsHex(s[2 * n + 1]))
  {
    if n == 0 {
    } else {
      if 2 * n <= |s| {
        AllHexSplit(s[..2 * n]);
        assert s[..2 * n][2..] == s[2..][..2 * n - 2];
      }
      if |s| >= 2 {
        HexDecodeLength(s[2..], n - 1);
      }
    }
  }

  /** The calldata of an address string reads back as some 20-byte address, the
      one that the decoder salvaged, and the amount. */
  predicate Sends(toAddress: string, amount: int) {
    var r := Calldata(AddressBytes(toAddress), BigEndian(Magnitude(Some(amount))));
    r.Some? && ReadTransferCall(r.value) == Some((AddressBytes(toAddress), amount))
  }

  /** Main result on address strings: for a uint256 amount the calldata reads back
      exactly for strings of 40 digits, followed by nothing, by one character, or
      by a pair that is not two digits. */
  lemma SendsIff(toAddress: string, amount: int)
    ensures var d := Digits(toAddress);
            Sends(toAddress, amount)
            <==> && 0 <= amount < Pow256(32) && |d| >= 40 && AllHex(d[..40])
                 && (|d| < 42 || !IsHex(d[40]) || !IsHex(d[41]))
  {
    AddressAsWritten(toAddress);
    TransferCallReadsBack(AddressBytes(toAddress), amount);
    HexDecodeLength(Digits(toAddress), 20);
  }

  lemma StrictTwentyIff(d: string)
    ensures StrictHex(d) == Some(HexDecode(d)) && |HexDecode(d)| == 20 <==> |d| == 40 && AllHex(d)
  {
    StrictHexIff(d);
    if StrictHex(d).Some? {
      StrictHexValue(d);
    }
  }

  /** It reads back as the address that the string names, the one the decoder gives
      without an error, exactly when the 40 digits are all there is. */
  lemma SendsNamedAddressIff(toAddress: string, amount: int)
    requires 0 <= amount < Pow256(32)
    ensures var d := Digits(toAddress);
            Sends(toAddress, amount) && StrictHex(d) == Some(AddressBytes(toAddress))
            <==> |d| == 40 && AllHex(d)
  {
    AddressAsWritten(toAddress);
    TransferCallReadsBack(AddressBytes(toAddress), amount);
    StrictTwentyIff(Digits(toAddress));
  }
}
