/** The byte and text forms that server and device exchange. */
module WireCodec {
  import opened Optional

  newtype byte = x: int | 0 <= x < 256

  const TWO_63: int := 0x8000_0000_0000_0000
  const TWO_64: int := 0x1_0000_0000_0000_0000

  // ---------------------------------------------------------------- the signed message

  function Pow256(k: nat): (p: int)
    ensures p >= 1
  {
    if k == 0 then 1 else 256 * Pow256(k - 1)
  }

  /** The last byte of v >> (8 * k), for an unsigned v. */
  function ShiftedByte(v: nat, k: nat): byte { (v / Pow256(k) % 256) as byte }

  /** The number that bytes spell, most significant first. */
  function Spelled(bs: seq<byte>): nat {
    if bs == [] then 0 else 256 * Spelled(bs[..|bs| - 1]) + bs[|bs| - 1] as int
  }

  /** The k lowest bytes of a number, most significant first. */
  function BigEndian(v: nat, k: nat): (bs: seq<byte>)
    ensures |bs| == k
  {
    if k == 0 then [] else BigEndian(v / 256, k - 1) + [(v % 256) as byte]
  }

  /** binary.BigEndian.PutUint64. */
  function Uint64(v: nat): seq<byte> { BigEndian(v, 8) }

  /** signedMessage of internal/artifact/service.go: the sequence as an uint64, then the hash. */
  function SignedMessage(sequence: int, sum: seq<byte>): seq<byte> {
    Uint64(sequence % TWO_64) + sum
  }

  /** The same bytes as the device fills them in, by shifts, before it checks the signature. */
  method DeviceMessage(sequence: nat, digest: array<byte>) returns (msg: array<byte>)
    requires sequence < TWO_64 && digest.Length == 32
    ensures fresh(msg) && msg[..] == SignedMessage(sequence, digest[..])
  {
    msg := new byte[40];
    for i := 0 to 8
      invariant forall k :: 0 <= k < i ==> msg[k] == ShiftedByte(sequence, 7 - k)
    {
      msg[i] := ShiftedByte(sequence, 7 - i);
    }
    for i := 0 to digest.Length
      invariant forall k :: 0 <= k < 8 ==> msg[k] == ShiftedByte(sequence, 7 - k)
      invariant forall k :: 0 <= k < i ==> msg[8 + k] == digest[k]
    {
      msg[8 + i] := digest[i];
    }
    MessageFilled(sequence, digest[..], msg[..]);
  }

  lemma MulAssoc(a: int, b: int, c: int)
    ensures a * (b * c) == (a * b) * c
  {
  }

  lemma MulAdd(a: int, b: int, c: int)
    ensures a * (b + c) == a * b + a * c
  {
  }

  /** A remainder of a remainder stays below the product. */
  lemma Remainders(a: int, b: int, r: int, s: int)
    requires a >= 1 && 0 <= r < b && 0 <= s < a
    ensures 0 <= a * r + s < a * b
  {
    MulMonotone(a, r, b - 1);
    MulMonotone(a, 0, r);
    MulAdd(a, b, -1);
  }

  lemma MulMonotone(a: int, x: int, y: int)
    requires a >= 0 && x <= y
    ensures a * x <= a * y
  {
  }

  lemma DivDiv(v: nat, a: int, b: int)
    requires a >= 1 && b >= 1
    ensures a * b >= 1 && v / a / b == v / (a * b)
  {
    var w := v / a;
    var q, r, s := w / b, w % b, v % a;
    MulMonotone(a, 1, b);
    MulAdd(a, b * q, r);
    MulAssoc(a, b, q);
    Remainders(a, b, r, s);
    QuotientUnique(v, a * b, q, a * r + s);
  }

  lemma AtLeast(d: int, k: int)
    requires d >= 1 && k >= 1
    ensures d * k >= d
  {
  }

  lemma SmallMultiple(d: int, k: int)
    requires d >= 1 && -d < d * k < d
    ensures k == 0
  {
    if k >= 1 { AtLeast(d, k); }
    if k <= -1 { AtLeast(d, -k); }
  }

  lemma QuotientUnique(v: nat, d: int, q: int, r: int)
    requires d >= 1 && v == d * q + r && 0 <= r < d
    ensures q == v / d
  {
    var p := v / d;
    assert d * q - d * p == v % d - r;
    assert d * (q - p) == d * q - d * p;
    SmallMultiple(d, q - p);
  }

  lemma ModSplit(v: nat, p: int)
    requires p >= 1
    ensures 256 * p >= 1 && v % (256 * p) == 256 * (v / 256 % p) + v % 256
  {
    var w := v / 256;
    DivDiv(v, 256, p);
    assert w == p * (w / p) + w % p;
    assert v == (256 * p) * (w / p) + v % (256 * p);
    assert (256 * p) * (w / p) == 256 * (p * (w / p));
  }

  /** The k lowest bytes spell the number modulo 256^k. */
  lemma {:induction false} BigEndianSpells(v: nat, k: nat)
    ensures Spelled(BigEndian(v, k)) == v % Pow256(k)
  {
    if k > 0 {
      BigEndianSpells(v / 256, k - 1);
      ModSplit(v, Pow256(k - 1));
      assert BigEndian(v, k)[..k - 1] == BigEndian(v / 256, k - 1);
    }
  }

  /** They are the bytes the device gets by shifting. */
  lemma {:induction false} BigEndianShifts(v: nat, k: nat, i: nat)
    requires i < k
    ensures BigEndian(v, k)[i] == ShiftedByte(v, k - 1 - i)
  {
    if i < k - 1 {
      BigEndianShifts(v / 256, k - 1, i);
      DivDiv(v, 256, Pow256(k - 2 - i));
      assert Pow256(k - 1 - i) == 256 * Pow256(k - 2 - i);
    }
  }

  lemma ShiftsAreUint64(v: nat, bs: seq<byte>)
    requires |bs| == 8 && forall i :: 0 <= i < 8 ==> bs[i] == ShiftedByte(v, 7 - i)
    ensures bs == Uint64(v)
  {
    forall i | 0 <= i < 8 ensures bs[i] == Uint64(v)[i] { BigEndianShifts(v, 8, i); }
  }

  lemma MessageFilled(sequence: nat, sum: seq<byte>, msg: seq<byte>)
    requires sequence < TWO_64 && |msg| == 8 + |sum|
    requires forall k :: 0 <= k < 8 ==> msg[k] == ShiftedByte(sequence, 7 - k)
    requires forall k :: 0 <= k < |sum| ==> msg[8 + k] == sum[k]
    ensures msg == SignedMessage(sequence, sum)
  {
    var head := msg[..8];
    assert msg == head + sum;
    assert forall k :: 0 <= k < 8 ==> head[k] == msg[k];
    ShiftsAreUint64(sequence, head);
  }

  /** No two texts of bytes of one length spell the same number. */
  lemma {:induction false} SpelledInjective(a: seq<byte>, b: seq<byte>)
    requires |a| == |b| && Spelled(a) == Spelled(b)
    ensures a == b
  {
    if a != [] {
      var n := |a| - 1;
      assert a[n] == b[n] && Spelled(a[..n]) == Spelled(b[..n]);
      SpelledInjective(a[..n], b[..n]);
      assert a == a[..n] + [a[n]] && b == b[..n] + [b[n]];
    }
  }

  lemma EightBytes()
    ensures Pow256(8) == TWO_64
  {
    assert Pow256(2) == 0x1_0000 && Pow256(4) == 0x1_0000_0000 && Pow256(6) == 0x1_0000_0000_0000;
  }

  lemma Spells(v: nat)
    requires v < TWO_64
    ensures Spelled(Uint64(v)) == v
  {
    BigEndianSpells(v, 8);
    EightBytes();
  }

  /** The eight bytes of an uint64 are those, and no others, that spell it. */
  lemma Uint64Spells(v: nat, bs: seq<byte>)
    requires v < TWO_64 && |bs| == 8
    ensures Spelled(bs) == v <==> bs == Uint64(v)
  {
    Spells(v);
    if Spelled(bs) == v { SpelledInjective(bs, Uint64(v)); }
  }

  lemma PartsEqual<T>(a: seq<T>, b: seq<T>, x: seq<T>, y: seq<T>)
    requires |a| == |b| && a + x == b + y
    ensures a == b && x == y
  {
    assert (a + x)[..|a|] == a && (b + y)[..|b|] == b;
    assert (a + x)[|a|..] == x && (b + y)[|b|..] == y;
  }

  /** The conversion of an int64 to an uint64. */
  lemma AsUnsigned(s: int)
    requires -TWO_63 <= s < TWO_63
    ensures s % TWO_64 == if s < 0 then s + TWO_64 else s
  {
  }

  lemma Uint64Injective(v: nat, w: nat)
    requires v < TWO_64 && w < TWO_64 && Uint64(v) == Uint64(w)
    ensures v == w
  {
    Uint64Spells(v, Uint64(v));
    Uint64Spells(w, Uint64(w));
  }

  /** The message determines the sequence and the hash, for every int64 sequence. */
  lemma MessageInjective(s: int, t: int, sum: seq<byte>, tum: seq<byte>)
    requires -TWO_63 <= s < TWO_63 && -TWO_63 <= t < TWO_63
    requires SignedMessage(s, sum) == SignedMessage(t, tum)
    ensures s == t && sum == tum
  {
    var v, w := s % TWO_64, t % TWO_64;
    PartsEqual(Uint64(v), Uint64(w), sum, tum);
    Uint64Injective(v, w);
    AsUnsigned(s);
    AsUnsigned(t);
  }

  // ---------------------------------------------------------------- hexadecimal (section 8 of RFC 4648)

  const HEX := "0123456789abcdef"

  function HexByte(b: byte): string { [HEX[b as int / 16], HEX[b as int % 16]] }

  function HexEncode(bs: seq<byte>): (s: string)
    ensures |s| == 2 * |bs|
  {
    if bs == [] then "" else HexEncode(bs[..|bs| - 1]) + HexByte(bs[|bs| - 1])
  }

  /** The value of a hexadecimal digit of either case, or -1. */
  function HexValue(c: char): int {
    if '0' <= c <= '9' then c as int - '0' as int
    else if 'a' <= c <= 'f' then c as int - 'a' as int + 10
    else if 'A' <= c <= 'F' then c as int - 'A' as int + 10
    else -1
  }

  predicate Space(c: char) {
    c == ' ' || '\t' <= c <= '\r'
  }

  /** strtol(pair, &end, 16) on two characters, if it consumes both; the result is cut to a byte. */
  function PairValue(a: char, b: char): Option<byte> {
    if HexValue(b) < 0 then None
    else if HexValue(a) >= 0 then Some((16 * HexValue(a) + HexValue(b)) as byte)
    else if Space(a) || a == '+' then Some(HexValue(b) as byte)
    else if a == '-' then Some(((256 - HexValue(b)) % 256) as byte)
    else None
  }

  /** The bytes a string decodes to under hex_to_bytes, if every pair is accepted. */
  function HexDecode(s: string): Option<seq<byte>> {
    if s == "" then Some([])
    else if |s| == 1 then None
    else match (HexDecode(s[..|s| - 2]), PairValue(s[|s| - 2], s[|s| - 1]))
      case (Some(bs), Some(b)) => Some(bs + [b])
      case _ => None
  }

  lemma {:induction false} DecodeLength(s: string)
    ensures HexDecode(s).Some? ==> 2 * |HexDecode(s).value| == |s|
  {
    if |s| >= 2 { DecodeLength(s[..|s| - 2]); }
  }

  /** A bad pair anywhere makes the whole string undecodable. */
  lemma {:induction false} DecodePrefix(s: string, k: nat)
    requires 2 * k <= |s| && HexDecode(s).Some?
    ensures HexDecode(s[..2 * k]).Some?
  {
    DecodeLength(s);
    if 2 * k < |s| {
      var t := s[..|s| - 2];
      DecodePrefix(t, k);
      assert t[..2 * k] == s[..2 * k];
    } else {
      assert s[..2 * k] == s;
    }
  }

  /** hex_to_bytes. */
  method HexToBytes(hex: string, out: array<byte>) returns (ok: bool)
    modifies out
    ensures ok == (|hex| == 2 * out.Length && HexDecode(hex).Some?)
    ensures ok ==> HexDecode(hex) == Some(out[..])
  {
    if |hex| != out.Length * 2 {
      return false;
    }
    for i := 0 to out.Length
      invariant HexDecode(hex[..2 * i]) == Some(out[..i])
    {
      var v := PairValue(hex[2 * i], hex[2 * i + 1]);
      var upto := hex[..2 * (i + 1)];
      assert upto[..|upto| - 2] == hex[..2 * i];
      if v.None? {
        if HexDecode(hex).Some? { DecodePrefix(hex, i + 1); }
        return false;
      }
      out[i] := v.value;
      assert out[..i + 1] == out[..i] + [v.value];
    }
    assert hex[..2 * out.Length] == hex && out[..out.Length] == out[..];
    return true;
  }

  lemma DecodeLast(s: string, a: char, b: char)
    ensures HexDecode(s + [a, b]) == match (HexDecode(s), PairValue(a, b))
                                     case (Some(bs), Some(v)) => Some(bs + [v])
                                     case _ => None
  {
    var t := s + [a, b];
    assert t[..|t| - 2] == s;
  }

  lemma ByteRoundTrip(s: string, bs: seq<byte>, b: byte)
    requires HexDecode(s) == Some(bs)
    ensures HexDecode(s + HexByte(b)) == Some(bs + [b])
  {
    DigitPair(b);
    var x, y := HexByte(b)[0], HexByte(b)[1];
    assert HexByte(b) == [x, y];
    DecodeLast(s, x, y);
  }

  lemma EncodeLast(bs: seq<byte>, b: byte)
    ensures HexEncode(bs + [b]) == HexEncode(bs) + HexByte(b)
  {
    assert (bs + [b])[..|bs + [b]| - 1] == bs;
  }

  lemma DecodesMore(s: string, t: string, bs: seq<byte>, b: byte)
    requires HexDecode(s) == Some(bs) && HexEncode(bs) == s && t == s + HexByte(b)
    ensures HexDecode(t) == Some(bs + [b]) && HexEncode(bs + [b]) == t
  {
    ByteRoundTrip(s, bs, b);
    EncodeLast(bs, b);
  }

  lemma {:induction false} SomeTextRoundTrips(bs: seq<byte>) returns (s: string)
    ensures s == HexEncode(bs) && HexDecode(s) == Some(bs)
  {
    if bs == [] {
      s := "";
    } else {
      var init, last := bs[..|bs| - 1], bs[|bs| - 1];
      var t := SomeTextRoundTrips(init);
      s := t + HexByte(last);
      DecodesMore(t, s, init, last);
      assert init + [last] == bs;
    }
  }

  /** What the server encodes, the device decodes. */
  lemma {:induction false} HexRoundTrip(bs: seq<byte>)
    ensures HexDecode(HexEncode(bs)) == Some(bs)
  {
    var s := SomeTextRoundTrips(bs);
  }

  lemma DigitPair(b: byte)
    ensures PairValue(HexByte(b)[0], HexByte(b)[1]) == Some(b)
  {
    assert forall d :: 0 <= d < 16 ==> HexValue(HEX[d]) == d;
  }

  predicate AllHex(s: string) { forall i :: 0 <= i < |s| ==> HexValue(s[i]) >= 0 }

  function Lower(c: char): char {
    if 'A' <= c <= 'Z' then (c as int - 'A' as int + 'a' as int) as char else c
  }

  function Lowered(s: string): (r: string)
    ensures |r| == |s|
  {
    seq(|s|, i requires 0 <= i < |s| => Lower(s[i]))
  }

  /**
   The device accepts more than hexadecimal text, because strtol skips white space
   and takes a sign. The decoded bytes encode back to the text, up to case, exactly
   if the text is hexadecimal throughout.
   */
  lemma {:induction false} DecodeFaithful(s: string)
    requires HexDecode(s).Some?
    ensures HexEncode(HexDecode(s).value) == Lowered(s) <==> AllHex(s)
  {
    if s != "" {
      var init, a, b := s[..|s| - 2], s[|s| - 2], s[|s| - 1];
      assert s == init + [a, b];
      DecodeFaithful(init);
      OnePairFaithful(init, a, b);
    }
  }

  /** Such a text is a space and a digit: it decodes to one byte, which is encoded as another text. */
  lemma SpaceIsDecoded()
    ensures HexDecode(" 5") == Some([5]) && HexEncode([5]) == "05" != Lowered(" 5")
  {
    DecodeLast("", ' ', '5');
    assert "" + [' ', '5'] == " 5";
    EncodeLast([], 5);
    assert [] + [5 as byte] == [5] && "" + HexByte(5) == "05";
    assert Lowered(" 5")[0] == ' ';
  }

  /** A sign is taken too, and a minus is negation on bytes; a text that is no number at all is refused. */
  lemma SignsAreDecoded()
    ensures HexDecode("-5") == Some([251]) && HexDecode("+5") == Some([5]) && HexDecode("0x") == None
  {
    DecodeLast("", '-', '5');
    DecodeLast("", '+', '5');
    assert "" + ['-', '5'] == "-5" && "" + ['+', '5'] == "+5";
    assert "0x"[..0] == "" && "0x"[0] == '0' && "0x"[1] == 'x';
    assert PairValue('-', '5') == Some(251) && PairValue('+', '5') == Some(5) && HexDecode("") == Some([]);
    assert [] + [251 as byte] == [251] && [] + [5 as byte] == [5];
  }

  lemma OnePairFaithful(s: string, a: char, b: char)
    requires HexDecode(s).Some? && PairValue(a, b).Some?
    requires HexEncode(HexDecode(s).value) == Lowered(s) <==> AllHex(s)
    ensures HexDecode(s + [a, b]).Some?
    ensures HexEncode(HexDecode(s + [a, b]).value) == Lowered(s + [a, b]) <==> AllHex(s + [a, b])
  {
    var bs, v := HexDecode(s).value, PairValue(a, b).value;
    DecodeLast(s, a, b);
    EncodeLast(bs, v);
    DecodeLength(s);
    PairFaithful(a, b);
    LoweredPair(s, a, b);
    SplitEqual(HexEncode(bs), Lowered(s), HexByte(v), [Lower(a), Lower(b)]);
  }

  lemma LoweredPair(s: string, a: char, b: char)
    requires PairValue(a, b).Some?
    ensures Lowered(s + [a, b]) == Lowered(s) + [Lower(a), Lower(b)]
    ensures AllHex(s + [a, b]) <==> AllHex(s) && HexValue(a) >= 0
  {
    var t := s + [a, b];
    assert t[|s|] == a && t[|s| + 1] == b;
    assert forall i :: 0 <= i < |s| ==> t[i] == s[i];
  }

  lemma SplitEqual(a: string, b: string, x: string, y: string)
    requires |a| == |b|
    ensures a + x == b + y <==> a == b && x == y
  {
    if a + x == b + y { PartsEqual(a, b, x, y); }
  }

  lemma PairFaithful(a: char, b: char)
    requires PairValue(a, b).Some?
    ensures HexByte(PairValue(a, b).value) == [Lower(a), Lower(b)] <==> HexValue(a) >= 0
  {
    var v := PairValue(a, b).value as int;
    assert forall d :: 0 <= d < 16 ==> HexValue(HEX[d]) == d && Lower(HEX[d]) == HEX[d];
    assert forall d :: 0 <= d < 16 ==> HEX[d] in HEX;
    if HexValue(a) >= 0 {
      assert v / 16 == HexValue(a) && v % 16 == HexValue(b);
      DigitText(a);
      DigitText(b);
    } else {
      assert HexValue(Lower(a)) < 0;
      assert HexValue(HEX[v / 16]) >= 0;
      assert [HEX[v / 16], HEX[v % 16]][0] != [Lower(a), Lower(b)][0];
    }
  }

  lemma DigitText(c: char)
    requires HexValue(c) >= 0
    ensures HEX[HexValue(c)] == Lower(c)
  {
  }

  // ---------------------------------------------------------------- decimal

  const DECIMAL := "0123456789"

  /** %llu, and the ",string" option of a Go integer that is not negative. */
  function Decimal(n: nat): string {
    if n < 10 then [DECIMAL[n]] else Decimal(n / 10) + [DECIMAL[n % 10]]
  }

  predicate Digits(s: string) { forall i :: 0 <= i < |s| ==> '0' <= s[i] <= '9' }

  function Value(s: string): nat
    requires Digits(s)
  {
    if s == "" then 0 else 10 * Value(s[..|s| - 1]) + (s[|s| - 1] as int - '0' as int)
  }

  lemma {:induction false} ValueOfDecimal(n: nat)
    ensures Digits(Decimal(n)) && Decimal(n) != "" && Value(Decimal(n)) == n
    ensures n > 0 ==> Decimal(n)[0] != '0'
  {
    if n >= 10 {
      ValueOfDecimal(n / 10);
      assert Decimal(n)[..|Decimal(n)| - 1] == Decimal(n / 10);
    } else {
      assert Decimal(n)[..0] == "";
    }
  }

  /** Digits without a leading zero are the decimal form of their value. */
  lemma {:induction false} DecimalOfValue(s: string)
    requires Digits(s) && s != "" && s[0] != '0'
    ensures Value(s) > 0 && Decimal(Value(s)) == s
  {
    var init, d := s[..|s| - 1], s[|s| - 1] as int - '0' as int;
    assert DECIMAL[d] == s[|s| - 1];
    if init == "" {
      assert s == [s[0]] && Value(init) == 0;
    } else {
      DecimalOfValue(init);
      assert Value(s) / 10 == Value(init) && Value(s) % 10 == d;
      assert s == init + [s[|s| - 1]];
    }
  }

  /** The text after leading white space. */
  function Unspaced(s: string): string {
    if s != "" && Space(s[0]) then Unspaced(s[1..]) else s
  }

  predicate Signed(s: string) { s != "" && (s[0] == '+' || s[0] == '-') }

  /** The sequence handle_cmd_ota reads with strtoull, if it does not drop the command. */
  function DeviceSequence(text: string): Option<nat> {
    var s := Unspaced(text);
    var digits := if Signed(s) then s[1..] else s;
    if digits == "" || !Digits(digits) || Value(digits) >= TWO_64 then None
    else if s[0] == '-' then Some((TWO_64 - Value(digits)) % TWO_64)
    else Some(Value(digits))
  }

  function TrimQuotesLeft(s: string): string { if s != "" && s[0] == '"' then TrimQuotesLeft(s[1..]) else s }

  function TrimQuotesRight(s: string): string {
    if s != "" && s[|s| - 1] == '"' then TrimQuotesRight(s[..|s| - 1]) else s
  }

  /** strconv.ParseInt(s, 10, 64). */
  function ParseInt64(s: string): Option<int> {
    var digits := if Signed(s) then s[1..] else s;
    if digits == "" || !Digits(digits) then None
    else if s[0] == '-' then (if Value(digits) > TWO_63 then None else var v: int := Value(digits); Some(-v))
    else if Value(digits) >= TWO_63 then None else var v: int := Value(digits); Some(v)
  }

  /** parseSequence. */
  function ServerSequence(raw: string): (n: int)
    ensures 0 <= n < TWO_63
  {
    if raw == "" then 0
    else match ParseInt64(TrimQuotesRight(TrimQuotesLeft(raw)))
      case Some(n) => if n < 0 then 0 else n
      case None => 0
  }

  /** A JSON string of a text that needs no escapes. */
  function Quoted(s: string): string { "\"" + s + "\"" }

  lemma Unquoted(s: string)
    requires s != "" && s[0] != '"' && s[|s| - 1] != '"'
    ensures TrimQuotesRight(TrimQuotesLeft(Quoted(s))) == s
  {
    assert Quoted(s)[1..] == s + "\"";
    assert TrimQuotesLeft(s + "\"") == s + "\"";
    assert (s + "\"")[..|s + "\""| - 1] == s;
  }

  /** The device reads every sequence the server prints, the whole unsigned range of it. */
  lemma CommandSequenceSurvives(n: nat)
    ensures DeviceSequence(Decimal(n)) == if n < TWO_64 then Some(n) else None
  {
    ValueOfDecimal(n);
    var s := Decimal(n);
    assert '0' <= s[0] <= '9';
    assert Unspaced(s) == s && !Signed(s);
  }

  /** The server reads every sequence a device prints, up to 2^63 - 1; anything larger reads as untagged. */
  lemma ReportSequenceSurvives(n: nat)
    ensures ServerSequence(Quoted(Decimal(n))) == if n < TWO_63 then n else 0
  {
    ValueOfDecimal(n);
    var s := Decimal(n);
    assert '0' <= s[0] <= '9' && '0' <= s[|s| - 1] <= '9';
    Unquoted(s);
    assert !Signed(s);
  }

  /** The text after leading zeros. */
  function Unzeroed(s: string): string { if s != "" && s[0] == '0' then Unzeroed(s[1..]) else s }

  lemma {:induction false} LeadingZero(s: string)
    requires Digits(s)
    ensures Digits("0" + s) && Value("0" + s) == Value(s)
  {
    var t := "0" + s;
    if s == "" {
      assert t[..0] == "";
    } else {
      var init := s[..|s| - 1];
      LeadingZero(init);
      assert t[..|t| - 1] == "0" + init && t[|t| - 1] == s[|s| - 1];
    }
  }

  /** Leading zeros do not count. */
  lemma {:induction false} UnzeroedValue(s: string)
    requires Digits(s)
    ensures Digits(Unzeroed(s)) && Value(Unzeroed(s)) == Value(s)
    ensures Unzeroed(s) != "" ==> Unzeroed(s)[0] != '0'
  {
    if s != "" && s[0] == '0' {
      UnzeroedValue(s[1..]);
      LeadingZero(s[1..]);
      assert s == "0" + s[1..];
    }
  }

  lemma {:induction false} UnzeroedDigits(s: string)
    ensures Digits(Unzeroed(s)) ==> Digits(s)
  {
    if s != "" && s[0] == '0' {
      UnzeroedDigits(s[1..]);
      assert forall i :: 0 < i < |s| ==> s[i] == s[1..][i - 1];
    }
  }

  /** Digits have the value n exactly if they are, leading zeros aside, what is printed for n. */
  lemma DigitsOf(s: string, n: nat)
    requires n > 0
    ensures Digits(s) && Value(s) == n <==> Unzeroed(s) == Decimal(n)
  {
    ValueOfDecimal(n);
    if Unzeroed(s) == Decimal(n) { UnzeroedDigits(s); }
    if Digits(s) {
      UnzeroedValue(s);
      if Value(s) == n { DecimalOfValue(Unzeroed(s)); }
    }
  }

  /**
   A report is tagged n exactly if its sequence is, quotes, a plus sign and leading zeros
   aside, what is printed for n, and n is below 2^63.
   */
  lemma TaggedExactly(raw: string, n: int)
    requires n > 0
    ensures ServerSequence(raw) == n <==>
            var body := TrimQuotesRight(TrimQuotesLeft(raw));
            var digits := if body != "" && body[0] == '+' then body[1..] else body;
            n < TWO_63 && Unzeroed(digits) == Decimal(n)
  {
    var body := TrimQuotesRight(TrimQuotesLeft(raw));
    var digits := if body != "" && body[0] == '+' then body[1..] else body;
    DigitsOf(digits, n);
    if body != "" && body[0] == '-' { assert !Digits(body); }
    assert digits == "" ==> !(Digits(digits) && Value(digits) == n);
  }

  // ---------------------------------------------------------------- status words

  function TrimLeft(s: string): string { if s != "" && Space(s[0]) then TrimLeft(s[1..]) else s }

  function TrimRight(s: string): string { if s != "" && Space(s[|s| - 1]) then TrimRight(s[..|s| - 1]) else s }

  /** strings.ToLower(strings.TrimSpace(s)) on ASCII text. */
  function Normal(s: string): string { Lowered(TrimRight(TrimLeft(s))) }

  predicate Blank(s: string) { forall i :: 0 <= i < |s| ==> s[i] in {' ', '\t', '\n', '\r', 11 as char, 12 as char} }

  predicate Edged(s: string) { s == "" || (!Space(s[0]) && !Space(s[|s| - 1])) }

  lemma {:induction false} LeftTrimmed(before: string, s: string)
    requires Blank(before) && (s == "" || !Space(s[0]))
    ensures TrimLeft(before + s) == s
  {
    if before == "" {
      assert before + s == s;
    } else {
      assert (before + s)[1..] == before[1..] + s;
      LeftTrimmed(before[1..], s);
    }
  }

  lemma {:induction false} RightTrimmed(s: string, after: string)
    requires Blank(after) && (s == "" || !Space(s[|s| - 1]))
    ensures TrimRight(s + after) == s
  {
    if after == "" {
      assert s + after == s;
    } else {
      var n := |after| - 1;
      assert (s + after)[..|s + after| - 1] == s + after[..n] && (s + after)[|s + after| - 1] == after[n];
      RightTrimmed(s, after[..n]);
    }
  }

  /** The white space around a text goes, and nothing else does. */
  lemma NormalIsTrimmed(before: string, s: string, after: string)
    requires Blank(before) && Blank(after) && Edged(s)
    ensures Normal(before + s + after) == Lowered(s)
  {
    if s == "" {
      assert before + s + after == before + after;
      BlankTrimmed(before + after);
    } else {
      assert before + s + after == before + (s + after);
      LeftTrimmed(before, s + after);
      RightTrimmed(s, after);
    }
  }

  lemma BlankTrimmed(s: string)
    requires Blank(s)
    ensures TrimRight(TrimLeft(s)) == ""
  {
    assert s + "" == s;
    LeftTrimmed(s, "");
  }
}
