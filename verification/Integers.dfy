/** The integer encodings of encoding/binary: little-endian words and base-128 varints. */
module Integers {
  import opened ByteOrder

  const TWO32: int := 0x1_0000_0000
  const TWO63: int := 0x8000_0000_0000_0000
  const TWO64: int := 0x1_0000_0000_0000_0000

  function Pow256(k: nat): nat {
    if k == 0 then 1 else 256 * Pow256(k - 1)
  }

  /** The k low bytes of n, least significant first. */
  function LeBytes(n: nat, k: nat): (r: Bytes)
    ensures |r| == k
  {
    if k == 0 then [] else [n % 256] + LeBytes(n / 256, k - 1)
  }

  function FromLe(bs: Bytes): nat {
    if bs == [] then 0 else bs[0] + 256 * FromLe(bs[1..])
  }

  lemma {:induction false} LeRoundTrip(n: nat, k: nat)
    requires n < Pow256(k)
    ensures FromLe(LeBytes(n, k)) == n
  {
    if k > 0 { LeRoundTrip(n / 256, k - 1); }
  }

  /** Digits in a base, the first with the given place value and each next one worth a base more. */
  function Places(bs: Bytes, base: nat, place: nat): nat
    requires base > 0
  {
    if bs == [] then 0 else bs[0] % base * place + Places(bs[1..], base, place * base)
  }

  /** Little-endian: the first byte counts ones, the next 256s, and so on. */
  lemma {:induction false} FromLePlaces(bs: Bytes, place: nat)
    ensures Places(bs, 256, place) == place * FromLe(bs)
  {
    if bs != [] {
      FromLePlaces(bs[1..], place * 256);
      var x, rest := bs[0] % 256, FromLe(bs[1..]);
      assert x == bs[0];
      assert x * place + place * 256 * rest == place * (x + 256 * rest);
    }
  }

  lemma {:induction false} LeDecoded(bs: Bytes)
    ensures FromLe(bs) < Pow256(|bs|) && LeBytes(FromLe(bs), |bs|) == bs
  {
    if bs != [] {
      LeDecoded(bs[1..]);
      assert FromLe(bs) % 256 == bs[0] && FromLe(bs) / 256 == FromLe(bs[1..]);
    }
  }

  // ---- varints ----

  /** binary.PutUvarint: seven bits a byte, low bits first, the high bit saying "more". */
  function PutUvarint(n: nat): (r: Bytes)
    ensures |r| > 0
  {
    if n < 128 then [n] else [n % 128 + 128] + PutUvarint(n / 128)
  }

  lemma {:induction false} PlacesScaled(bs: Bytes, place: nat)
    ensures Places(bs, 128, place) == place * Places(bs, 128, 1)
  {
    if bs != [] {
      PlacesScaled(bs[1..], place * 128);
      PlacesScaled(bs[1..], 128);
      var x, rest := bs[0] % 128, Places(bs[1..], 128, 1);
      assert x * place + place * 128 * rest == place * (x * 1 + 128 * rest);
    }
  }

  lemma PlacesCons(b: byte, rest: Bytes)
    ensures Places([b] + rest, 128, 1) == b % 128 + 128 * Places(rest, 128, 1)
    ensures Places([], 128, 1) == 0
  {
    assert ([b] + rest)[1..] == rest;
    PlacesScaled(rest, 128);
  }

  /** The groups of a varint are the number's base-128 digits, low ones first. */
  lemma {:induction false} UvarintDigits(n: nat)
    ensures Places(PutUvarint(n), 128, 1) == n
    decreases n
  {
    if n < 128 {
      PlacesCons(n, []);
      assert [n] + [] == [n];
    } else {
      UvarintDigits(n / 128);
      PlacesCons(n % 128 + 128, PutUvarint(n / 128));
    }
  }

  /** Exactly the last byte of a varint is below 128, and it is not zero unless it is the only one. */
  lemma {:induction false} UvarintContinues(n: nat)
    ensures var b := PutUvarint(n);
      (forall i | 0 <= i < |b| - 1 :: b[i] >= 128) && b[|b| - 1] < 128 && (|b| > 1 ==> b[|b| - 1] > 0)
    decreases n
  {
    if n >= 128 {
      UvarintContinues(n / 128);
      var b, rest := PutUvarint(n), PutUvarint(n / 128);
      assert b == [n % 128 + 128] + rest;
      assert forall i | 0 < i < |b| :: b[i] == rest[i - 1];
    }
  }

  /** What binary.Uvarint returns: a value and the bytes used, too short a buffer, or 64-bit overflow. */
  datatype Decoded = Value(x: nat, used: nat) | Short | Overflow

  const MAX_VARINT_LEN64: nat := 10

  /** binary.Uvarint from byte i of the number on. */
  function UvarintFrom(buf: Bytes, i: nat): Decoded {
    if buf == [] then Short
    else if i == MAX_VARINT_LEN64 then Overflow
    else if buf[0] < 128 then
      if i == MAX_VARINT_LEN64 - 1 && buf[0] > 1 then Overflow else Value(buf[0], 1)
    else
      match UvarintFrom(buf[1..], i + 1)
      case Value(x, used) => Value(buf[0] - 128 + 128 * x, used + 1)
      case e => e
  }

  function Uvarint(buf: Bytes): Decoded {
    UvarintFrom(buf, 0)
  }

  /** Exclusive bound on what is left of a 64-bit number at byte i. */
  function Room(i: nat): nat
    requires i < MAX_VARINT_LEN64
    decreases MAX_VARINT_LEN64 - i
  {
    if i == MAX_VARINT_LEN64 - 1 then 2 else 128 * Room(i + 1)
  }

  lemma {:induction false} UvarintRoundTripFrom(n: nat, rest: Bytes, i: nat)
    requires i < MAX_VARINT_LEN64 && n < Room(i)
    ensures UvarintFrom(PutUvarint(n) + rest, i) == Value(n, |PutUvarint(n)|)
    decreases n
  {
    var buf := PutUvarint(n) + rest;
    if n >= 128 {
      assert buf[1..] == PutUvarint(n / 128) + rest;
      UvarintRoundTripFrom(n / 128, rest, i + 1);
    }
  }

  /** Every 64-bit number is read back, whatever follows it. */
  lemma UvarintRoundTrip(n: nat, rest: Bytes)
    requires n < TWO64
    ensures Uvarint(PutUvarint(n) + rest) == Value(n, |PutUvarint(n)|)
  {
    assert Room(0) == TWO64;
    UvarintRoundTripFrom(n, rest, 0);
  }

  /** A value read is that of the groups up to the first byte below 128, at most ten, and fits 64 bits. */
  lemma UvarintReads(buf: Bytes)
    requires Uvarint(buf).Value?
    ensures var d := Uvarint(buf);
      && 0 < d.used <= |buf| && d.used <= 10 && d.x < 0x1_0000_0000_0000_0000
      && Places(buf[..d.used], 128, 1) == d.x
      && (forall j | 0 <= j < d.used - 1 :: buf[j] >= 128) && buf[d.used - 1] < 128
  {
    assert Room(0) == TWO64;
    hide Places, Room, UvarintFrom;
    UvarintReadsFrom(buf, 0);
  }

  lemma {:induction false} UvarintReadsFrom(buf: Bytes, i: nat)
    requires i < MAX_VARINT_LEN64 && UvarintFrom(buf, i).Value?
    ensures var d := UvarintFrom(buf, i);
      && 0 < d.used <= |buf| && d.used + i <= MAX_VARINT_LEN64 && d.x < Room(i)
      && Places(buf[..d.used], 128, 1) == d.x
      && (forall j | 0 <= j < d.used - 1 :: buf[j] >= 128) && buf[d.used - 1] < 128
    decreases |buf|
  {
    hide Places, Room;
    RoomNext(i);
    var used := UvarintFrom(buf, i).used;
    if buf[0] < 128 {
      PlacesCons(buf[0], []);
      assert buf[..1] == [buf[0]] + [];
    } else {
      var rest := buf[1..];
      UvarintReadsFrom(rest, i + 1);
      PlacesCons(buf[0], rest[..used - 1]);
      assert buf[..used] == [buf[0]] + rest[..used - 1];
      assert forall j | 0 < j < |buf| :: buf[j] == rest[j - 1];
    }
  }

  lemma RoomNext(i: nat)
    requires i < MAX_VARINT_LEN64
    ensures if i == MAX_VARINT_LEN64 - 1 then Room(i) == 2 else Room(i) == 128 * Room(i + 1) && Room(i) >= 128
  {
    if i < MAX_VARINT_LEN64 - 1 { RoomPositive(i + 1); }
  }

  lemma {:induction false} RoomPositive(i: nat)
    requires i < MAX_VARINT_LEN64
    ensures Room(i) > 0
    decreases MAX_VARINT_LEN64 - i
  {
    if i < MAX_VARINT_LEN64 - 1 { RoomPositive(i + 1); }
  }

  /** Varints are uniquely decodable in front of any bytes. */
  lemma {:induction false} UvarintPrefixFree(m: nat, r: Bytes, n: nat, s: Bytes)
    requires PutUvarint(m) + r == PutUvarint(n) + s
    ensures m == n && r == s
    decreases m
  {
    var a, b := PutUvarint(m) + r, PutUvarint(n) + s;
    assert a[0] == b[0];
    if m >= 128 && n >= 128 {
      assert a[1..] == PutUvarint(m / 128) + r && b[1..] == PutUvarint(n / 128) + s;
      UvarintPrefixFree(m / 128, r, n / 128, s);
    } else {
      assert a[1..] == r && b[1..] == s;
    }
  }

  /** binary.PutVarint: ZigZag, then base 128. */
  function ZigZag(x: int): nat {
    if x >= 0 then 2 * x else -2 * x - 1
  }

  /** Non-negative numbers get the even codes and negative ones the odd, small magnitudes first. */
  lemma ZigZagMeans(x: int)
    ensures x >= 0 ==> ZigZag(x) == x + x
    ensures x < 0 ==> ZigZag(x) + 1 == -x - x
    ensures ZigZag(0) == 0 && ZigZag(-1) == 1 && ZigZag(1) == 2 && ZigZag(-2) == 3
    ensures ZigZag(0x7fff_ffff) == 0xffff_fffe && ZigZag(-0x8000_0000) == 0xffff_ffff
  {}

  lemma ZigZagInjective(x: int, y: int)
    requires ZigZag(x) == ZigZag(y)
    ensures x == y
  {}

  function UnZigZag(u: nat): int {
    if u % 2 == 0 then u / 2 else -(u / 2) - 1
  }

  predicate IsInt64(x: int) {
    -TWO63 <= x < TWO63
  }

  function PutVarint(x: int): Bytes {
    PutUvarint(ZigZag(x))
  }

  /** binary.Varint: the number, or None where Go reports n <= 0. */
  function Varint(buf: Bytes): Option<int> {
    match Uvarint(buf)
    case Value(u, _) => Some(UnZigZag(u))
    case _ => None
  }

  lemma VarintRoundTrip(x: int, rest: Bytes)
    requires IsInt64(x)
    ensures Varint(PutVarint(x) + rest) == Some(x)
  {
    UvarintRoundTrip(ZigZag(x), rest);
  }
}
