/** Resource identifiers: UUID version 7, whose text sorts in creation order. */
module Identifiers {
  import opened Bytes

  const TIMESTAMP_BYTES := 6
  const UUID_BYTES := 16

  function Power256(n: nat): (p: nat)
    ensures p > 0
  {
    if n == 0 then 1 else 256 * Power256(n - 1)
  }

  /** The low `n` bytes of a number, most significant first. */
  function BigEndian(value: nat, n: nat): (bytes: seq<Byte>)
    ensures |bytes| == n
  {
    if n == 0 then [] else BigEndian(value / 256, n - 1) + [value % 256]
  }

  /** Keeps the low nibble of byte 6 and sets version 7; keeps the low six bits of byte 8 and sets
      the RFC 9562 variant. */
  function Stamp(bytes: seq<Byte>): seq<Byte>
    requires |bytes| == UUID_BYTES
  {
    bytes[6 := bytes[6] % 16 + 0x70][8 := bytes[8] % 64 + 0x80]
  }

  function UuidBytes(timestamp: nat, random: seq<Byte>): (bytes: seq<Byte>)
    requires |random| == UUID_BYTES - TIMESTAMP_BYTES
    ensures |bytes| == UUID_BYTES
  {
    Stamp(BigEndian(timestamp, TIMESTAMP_BYTES) + random)
  }

  const DIGITS := "0123456789abcdef"

  function Hex(bytes: seq<Byte>): (hex: string)
    ensures |hex| == 2 * |bytes|
  {
    if bytes == [] then "" else [DIGITS[bytes[0] / 16], DIGITS[bytes[0] % 16]] + Hex(bytes[1..])
  }

  /** The canonical 8-4-4-4-12 form. */
  function FormatUuid(bytes: seq<Byte>): (text: string)
    requires |bytes| == UUID_BYTES
    ensures |text| == 36
  {
    var hex := Hex(bytes);
    hex[0..8] + "-" + hex[8..12] + "-" + hex[12..16] + "-" + hex[16..20] + "-" + hex[20..32]
  }

  function NewIdText(timestamp: nat, random: seq<Byte>): string
    requires |random| == UUID_BYTES - TIMESTAMP_BYTES
  {
    FormatUuid(UuidBytes(timestamp, random))
  }

  /** Fills a byte array from the timestamp, last timestamp byte first, then patches it. */
  method NewId(now: nat, random: seq<Byte>) returns (id: string)
    requires |random| == UUID_BYTES - TIMESTAMP_BYTES
    ensures id == NewIdText(now, random)
  {
    var bytes := new Byte[UUID_BYTES](i => 0);
    var timestamp := now;
    var index := TIMESTAMP_BYTES - 1;
    while index >= 0
      invariant -1 <= index < TIMESTAMP_BYTES
      invariant BigEndian(timestamp, index + 1) + bytes[index + 1..TIMESTAMP_BYTES] == BigEndian(now, TIMESTAMP_BYTES)
    {
      bytes[index] := timestamp % 256;
      timestamp := timestamp / 256;
      index := index - 1;
    }
    forall i | TIMESTAMP_BYTES <= i < UUID_BYTES { bytes[i] := random[i - TIMESTAMP_BYTES]; }
    assert bytes[..] == BigEndian(now, TIMESTAMP_BYTES) + random;
    bytes[6] := bytes[6] % 16 + 0x70;
    bytes[8] := bytes[8] % 64 + 0x80;
    id := FormatUuid(bytes[..]);
  }

  /** Code-unit order of strings of one length, as `ORDER BY id` uses it. */
  predicate LexLess<T(==)>(a: seq<T>, b: seq<T>, less: (T, T) -> bool) {
    exists k | 0 <= k < |a| && k < |b| :: a[..k] == b[..k] && less(a[k], b[k])
  }

  predicate TextLess(a: string, b: string) {
    LexLess(a, b, (x: char, y: char) => x < y)
  }

  lemma {:induction false} BigEndianFirstDifference(a: nat, b: nat, n: nat) returns (k: nat)
    requires a % Power256(n) < b % Power256(n)
    ensures k < n && BigEndian(a, n)[..k] == BigEndian(b, n)[..k] && BigEndian(a, n)[k] < BigEndian(b, n)[k]
  {
    if n == 0 { assert false; }
    ModStep(a, n);
    ModStep(b, n);
    var p := Power256(n - 1);
    if (a / 256) % p < (b / 256) % p {
      k := BigEndianFirstDifference(a / 256, b / 256, n - 1);
    } else {
      assert (a / 256) % p == (b / 256) % p;
      BigEndianSame(a / 256, b / 256, n - 1);
      k := n - 1;
    }
  }

  /** The low bytes: the last one, and the low bytes of what is left. */
  lemma ModStep(value: nat, n: nat)
    requires n > 0
    ensures value % Power256(n) == 256 * ((value / 256) % Power256(n - 1)) + value % 256
  {
    var p := Power256(n - 1);
    var q, r := value / 256, value % 256;
    var d, m := q / p, q % p;
    assert q == d * p + m;
    Regroup(value, q, r, d, p, m);
    Remainder(value, 256 * p, d, 256 * m + r);
  }

  lemma Regroup(value: nat, q: nat, r: nat, d: nat, p: nat, m: nat)
    requires value == 256 * q + r && q == d * p + m && r < 256 && m < p
    ensures value == (256 * p) * d + (256 * m + r) && 256 * m + r < 256 * p
  {
    assert 256 * (d * p + m) == 256 * (d * p) + 256 * m;
    assert 256 * (d * p) == (256 * p) * d;
  }

  lemma Remainder(value: nat, divisor: nat, quotient: nat, rest: nat)
    requires rest < divisor && value == divisor * quotient + rest
    ensures value % divisor == rest
  {
    var q := value / divisor;
    assert divisor * (quotient - q) == value % divisor - rest;
    MultipleBound(divisor, quotient - q);
  }

  lemma MultipleBound(d: int, k: int)
    requires d >= 0
    ensures k >= 1 ==> d * k >= d
    ensures k <= -1 ==> d * k <= -d
  {}

  lemma {:induction false} BigEndianSame(a: nat, b: nat, n: nat)
    requires a % Power256(n) == b % Power256(n)
    ensures BigEndian(a, n) == BigEndian(b, n)
  {
    if n > 0 {
      ModStep(a, n);
      ModStep(b, n);
      BigEndianSame(a / 256, b / 256, n - 1);
    }
  }

  /** Where hex digit `i` stands in the hyphenated text. */
  function DigitPosition(i: nat): nat
    requires i < 32
  {
    if i < 8 then i else if i < 12 then i + 1 else if i < 16 then i + 2 else if i < 20 then i + 3 else i + 4
  }

  lemma FormatSlices(bytes: seq<Byte>)
    requires |bytes| == UUID_BYTES
    ensures var hex, text := Hex(bytes), FormatUuid(bytes);
            && text[0..8] == hex[0..8] && text[9..13] == hex[8..12] && text[14..18] == hex[12..16]
            && text[19..23] == hex[16..20] && text[24..36] == hex[20..32]
            && text[8] == text[13] == text[18] == text[23] == '-'
  {
    var hex := Hex(bytes);
    var a := hex[0..8] + "-";
    var b := a + hex[8..12] + "-";
    var c := b + hex[12..16] + "-";
    var d := c + hex[16..20] + "-";
    assert a[0..8] == hex[0..8] && a[8] == '-';
    assert b[..9] == a && b[9..13] == hex[8..12] && b[13] == '-';
    assert c[..14] == b && c[14..18] == hex[12..16] && c[18] == '-';
    assert d[..19] == c && d[19..23] == hex[16..20] && d[23] == '-';
    var text := d + hex[20..32];
    assert text == FormatUuid(bytes);
    assert text[..24] == d && text[24..36] == hex[20..32];
    assert text[..24][..19][..14][..9] == a && text[..24][..19][..14] == b && text[..24][..19] == c;
    assert text[0..8] == a[0..8] && text[9..13] == b[9..13] && text[14..18] == c[14..18] && text[19..23] == d[19..23];
  }

  lemma FormattedDigit(bytes: seq<Byte>, i: nat)
    requires |bytes| == UUID_BYTES && i < 32
    ensures FormatUuid(bytes)[DigitPosition(i)] == Hex(bytes)[i]
  {
    FormatSlices(bytes);
    var hex, text := Hex(bytes), FormatUuid(bytes);
    if i < 8 { assert text[0..8][i] == hex[0..8][i]; }
    else if i < 12 { assert text[9..13][i - 8] == hex[8..12][i - 8]; }
    else if i < 16 { assert text[14..18][i - 12] == hex[12..16][i - 12]; }
    else if i < 20 { assert text[19..23][i - 16] == hex[16..20][i - 16]; }
    else { assert text[24..36][i - 20] == hex[20..32][i - 20]; }
  }

  /** Texts agree up to the position of the first hex digit in which they differ. */
  lemma FormattedPrefix(a: seq<Byte>, b: seq<Byte>, i: nat)
    requires |a| == |b| == UUID_BYTES && i < 12 && Hex(a)[..i] == Hex(b)[..i]
    ensures FormatUuid(a)[..DigitPosition(i)] == FormatUuid(b)[..DigitPosition(i)]
  {
    var x, y := FormatUuid(a), FormatUuid(b);
    FormatSlices(a);
    FormatSlices(b);
    forall j | 0 <= j < DigitPosition(i) ensures x[j] == y[j] {
      if j != 8 {
        var k := if j < 8 then j else j - 1;
        FormattedDigit(a, k);
        FormattedDigit(b, k);
        assert Hex(a)[..i][k] == Hex(b)[..i][k];
      }
    }
  }

  /** The value of the first bytes as written in the identifier. */
  function DigitValue(c: char): int {
    if '0' <= c <= '9' then c as int - '0' as int else c as int - 'a' as int + 10
  }

  function HexValue(hex: string): int {
    if hex == "" then 0 else 16 * HexValue(hex[..|hex| - 1]) + DigitValue(hex[|hex| - 1])
  }

  lemma DigitsOrdered(x: int, y: int)
    requires 0 <= x < 16 && 0 <= y < 16
    ensures x < y ==> DIGITS[x] < DIGITS[y]
    ensures DigitValue(DIGITS[x]) == x
  {}

  /** Two digits a byte, high nibble first. */
  lemma {:induction false} HexDigit(bytes: seq<Byte>, j: nat)
    requires j < 2 * |bytes|
    ensures Hex(bytes)[j] == DIGITS[if j % 2 == 0 then bytes[j / 2] / 16 else bytes[j / 2] % 16]
  {
    if j >= 2 {
      HexDigit(bytes[1..], j - 2);
      assert bytes[1..][(j - 2) / 2] == bytes[j / 2];
    }
  }

  /** Bytes that agree up to `k` and increase there have hex digits that do the same. */
  lemma HexFirstDifference(a: seq<Byte>, b: seq<Byte>, k: nat) returns (i: nat)
    requires k < |a| == |b| && a[..k] == b[..k] && a[k] < b[k]
    ensures i / 2 == k && Hex(a)[..i] == Hex(b)[..i] && Hex(a)[i] < Hex(b)[i]
  {
    hide Hex;
    var x, y := a[k], b[k];
    NibblesOrdered(x, y);
    i := if x / 16 < y / 16 then 2 * k else 2 * k + 1;
    HexPrefix(a, b, k);
    HexPair(a, k);
    HexPair(b, k);
    assert Hex(a)[..2 * k + 1] == Hex(a)[..2 * k] + [Hex(a)[2 * k]];
    assert Hex(b)[..2 * k + 1] == Hex(b)[..2 * k] + [Hex(b)[2 * k]];
  }

  lemma HexPair(bytes: seq<Byte>, k: nat)
    requires k < |bytes|
    ensures Hex(bytes)[2 * k] == DIGITS[bytes[k] / 16] && Hex(bytes)[2 * k + 1] == DIGITS[bytes[k] % 16]
  {
    hide Hex;
    HexDigit(bytes, 2 * k);
    HexDigit(bytes, 2 * k + 1);
  }

  lemma NibblesOrdered(x: Byte, y: Byte)
    requires x < y
    ensures DIGITS[x / 16] < DIGITS[y / 16] || (x / 16 == y / 16 && DIGITS[x % 16] < DIGITS[y % 16])
    ensures x / 16 <= y / 16
  {
    DigitsOrdered(x / 16, y / 16);
    DigitsOrdered(x % 16, y % 16);
  }

  lemma HexPrefix(a: seq<Byte>, b: seq<Byte>, k: nat)
    requires k <= |a| == |b| && a[..k] == b[..k]
    ensures Hex(a)[..2 * k] == Hex(b)[..2 * k]
  {
    forall j | 0 <= j < 2 * k ensures Hex(a)[j] == Hex(b)[j] {
      HexDigit(a, j);
      HexDigit(b, j);
      assert a[..k][j / 2] == b[..k][j / 2];
    }
  }

  /** A smaller timestamp gives a smaller identifier text, whatever the random bytes. Timestamps
      count modulo 2^48, so this orders every two instants below 2^48. */
  lemma IdsSortByTimestamp(t1: nat, r1: seq<Byte>, t2: nat, r2: seq<Byte>)
    requires |r1| == |r2| == UUID_BYTES - TIMESTAMP_BYTES
    requires t1 % Power256(TIMESTAMP_BYTES) < t2 % Power256(TIMESTAMP_BYTES)
    ensures TextLess(NewIdText(t1, r1), NewIdText(t2, r2))
  {
    var k := BigEndianFirstDifference(t1, t2, TIMESTAMP_BYTES);
    var a, b := UuidBytes(t1, r1), UuidBytes(t2, r2);
    assert a[..6] == BigEndian(t1, 6) && b[..6] == BigEndian(t2, 6);
    assert a[..6][..k] == a[..k] && b[..6][..k] == b[..k];
    assert a[k] == a[..6][k] && b[k] == b[..6][k];
    var i := HexFirstDifference(a, b, k);
    FormattedPrefix(a, b, i);
    FormattedDigit(a, i);
    FormattedDigit(b, i);
    assert FormatUuid(a)[DigitPosition(i)] < FormatUuid(b)[DigitPosition(i)];
  }

  lemma IdsSortByTimestampBelow48Bits(t1: nat, r1: seq<Byte>, t2: nat, r2: seq<Byte>)
    requires |r1| == |r2| == UUID_BYTES - TIMESTAMP_BYTES
    requires t1 < t2 < 0x1_0000_0000_0000
    ensures TextLess(NewIdText(t1, r1), NewIdText(t2, r2))
  {
    assert Power256(6) == 0x1_0000_0000_0000 by { assert Power256(3) == 0x100_0000; }
    IdsSortByTimestamp(t1, r1, t2, r2);
  }

  /** The first twelve hex digits of an identifier. */
  function TimestampDigits(id: string): string
    requires |id| == 36
  {
    id[0..8] + id[9..13]
  }

  lemma HexSnoc(bytes: seq<Byte>, last: Byte)
    ensures Hex(bytes + [last]) == Hex(bytes) + [DIGITS[last / 16], DIGITS[last % 16]]
  {
    var all := bytes + [last];
    var hex := Hex(all);
    var expected := Hex(bytes) + [DIGITS[last / 16], DIGITS[last % 16]];
    forall j | 0 <= j < |hex| ensures hex[j] == expected[j] {
      HexDigit(all, j);
      if j < |Hex(bytes)| { HexDigit(bytes, j); }
    }
  }

  lemma HexValueSnoc2(hex: string, x: char, y: char)
    ensures HexValue(hex + [x, y]) == 256 * HexValue(hex) + 16 * DigitValue(x) + DigitValue(y)
  {
    var all := hex + [x, y];
    assert all[..|all| - 1] == hex + [x];
    assert (hex + [x])[..|hex|] == hex;
  }

  lemma {:induction false} HexOfBigEndian(value: nat, n: nat)
    ensures HexValue(Hex(BigEndian(value, n))) == value % Power256(n)
  {
    if n > 0 {
      HexOfBigEndian(value / 256, n - 1);
      ModStep(value, n);
      var last: Byte := value % 256;
      HexSnoc(BigEndian(value / 256, n - 1), last);
      HexValueSnoc2(Hex(BigEndian(value / 256, n - 1)), DIGITS[last / 16], DIGITS[last % 16]);
      DigitsOrdered(last / 16, 0);
      DigitsOrdered(last % 16, 0);
    }
  }

  lemma DigitsOfTimestamp(timestamp: nat, random: seq<Byte>)
    requires |random| == UUID_BYTES - TIMESTAMP_BYTES
    ensures TimestampDigits(NewIdText(timestamp, random)) == Hex(BigEndian(timestamp, TIMESTAMP_BYTES))
  {
    hide Hex, FormatUuid;
    var bytes, first := UuidBytes(timestamp, random), BigEndian(timestamp, TIMESTAMP_BYTES);
    var digits := TimestampDigits(FormatUuid(bytes));
    forall j | 0 <= j < 12 ensures digits[j] == Hex(first)[j] {
      FormattedDigit(bytes, j);
      HexDigit(bytes, j);
      HexDigit(first, j);
    }
  }

  /** The byte that two hex digits of an identifier spell. */
  function ByteAt(id: string, k: nat): int
    requires |id| == 36 && k < UUID_BYTES
  {
    16 * DigitValue(id[DigitPosition(2 * k)]) + DigitValue(id[DigitPosition(2 * k + 1)])
  }

  lemma ByteRead(timestamp: nat, random: seq<Byte>, k: nat)
    requires |random| == UUID_BYTES - TIMESTAMP_BYTES && k < UUID_BYTES
    ensures ByteAt(NewIdText(timestamp, random), k) == UuidBytes(timestamp, random)[k]
  {
    hide Hex, FormatUuid, UuidBytes, DigitPosition;
    var bytes := UuidBytes(timestamp, random);
    FormattedDigit(bytes, 2 * k);
    FormattedDigit(bytes, 2 * k + 1);
    HexPair(bytes, k);
    DigitsOrdered(bytes[k] / 16, 0);
    DigitsOrdered(bytes[k] % 16, 0);
  }

  /** The random bytes can be read back: all of them, but for the four bits the version takes and the two the
      variant takes. */
  lemma IdKeepsRandom(timestamp: nat, random: seq<Byte>, j: nat)
    requires |random| == UUID_BYTES - TIMESTAMP_BYTES && j < |random|
    ensures ByteAt(NewIdText(timestamp, random), 6 + j)
            == if j == 0 then 0x70 + random[0] % 16 else if j == 2 then 0x80 + random[2] % 64 else random[j]
  {
    ByteRead(timestamp, random, 6 + j);
    assert (BigEndian(timestamp, TIMESTAMP_BYTES) + random)[6 + j] == random[j];
  }

  /** The timestamp can be read back, and version and variant are those of section 5.7 of RFC 9562. */
  lemma IdLayout(timestamp: nat, random: seq<Byte>)
    requires |random| == UUID_BYTES - TIMESTAMP_BYTES
    ensures var id := NewIdText(timestamp, random);
            && HexValue(TimestampDigits(id)) == timestamp % Power256(TIMESTAMP_BYTES)
            && id[14] == '7'
            && id[19] in ['8', '9', 'a', 'b']
            && id[8] == id[13] == id[18] == id[23] == '-'
  {
    hide Hex, FormatUuid, HexValue, Power256;
    var bytes := UuidBytes(timestamp, random);
    HexOfBigEndian(timestamp, TIMESTAMP_BYTES);
    DigitsOfTimestamp(timestamp, random);
    FormatSlices(bytes);
    FormattedDigit(bytes, 12);
    FormattedDigit(bytes, 16);
    HexDigit(bytes, 12);
    HexDigit(bytes, 16);
  }
}
