/** Guest addressing (allocateIPs of internal/network/network_linux.go). */
module Addressing {

  newtype byte = x: int | 0 <= x < 256
  newtype uint32 = x: int | 0 <= x < 0x1_0000_0000

  // ---------- From an ID to its slot ----------

  /** Value of a hexadecimal digit, or -1 for any other byte. */
  function DigitValue(c: byte): (d: int)
    ensures -1 <= d < 16
  {
    if '0' as int <= c as int <= '9' as int then c as int - '0' as int
    else if 'a' as int <= c as int <= 'f' as int then c as int - 'a' as int + 10
    else if 'A' as int <= c as int <= 'F' as int then c as int - 'A' as int + 10
    else -1
  }

  function Digits(c: byte): (digits: seq<nat>)
    ensures |digits| <= 1 && forall d :: d in digits ==> d < 16
  {
    if DigitValue(c) >= 0 then [DigitValue(c)] else []
  }

  /** The values of the hexadecimal digits among the bytes, in order. */
  function HexDigits(id: seq<byte>): seq<nat> {
    if id == [] then [] else HexDigits(id[..|id| - 1]) + Digits(id[|id| - 1])
  }

  /** A number moved up by a number of hexadecimal places. */
  function Shifted(x: nat, places: nat): nat {
    if places == 0 then x else 16 * Shifted(x, places - 1)
  }

  /** The number that the digits write, each at the place it stands, most significant first. */
  function Positional(digits: seq<nat>): nat {
    if digits == [] then 0 else Shifted(digits[0], |digits| - 1) + Positional(digits[1..])
  }

  /** The part of an ID that is read: all of it, or the last 8 bytes of a long one. */
  function Significant(id: seq<byte>): seq<byte> {
    if |id| > 12 then id[|id| - 8..] else id
  }

  function HexValue(id: seq<byte>): nat {
    Positional(HexDigits(Significant(id)))
  }

  function SlotOf(id: seq<byte>): nat {
    HexValue(id) % 0x1_0000_0000 % 65000
  }

  lemma {:induction false} ShiftedSum(x: nat, y: nat, places: nat)
    ensures Shifted(x + y, places) == Shifted(x, places) + Shifted(y, places)
  {
    if places > 0 {
      ShiftedSum(x, y, places - 1);
    }
  }

  lemma {:induction false} ShiftedTwice(x: nat, m: nat, n: nat)
    ensures Shifted(Shifted(x, m), n) == Shifted(x, m + n)
  {
    if n > 0 {
      ShiftedTwice(x, m, n - 1);
    }
  }

  lemma {:induction false} PositionalBoth(first: seq<nat>, second: seq<nat>)
    ensures Positional(first + second) == Shifted(Positional(first), |second|) + Positional(second)
  {
    if first == [] {
      assert first + second == second;
      ShiftedZero(|second|);
    } else {
      var m, n, rest := |first| - 1, |second|, first[1..];
      PositionalBoth(rest, second);
      ShiftedTwice(first[0], m, n);
      ShiftedSum(Shifted(first[0], m), Positional(rest), n);
      assert (first + second)[1..] == rest + second;
    }
  }

  lemma {:induction false} ShiftedZero(places: nat)
    ensures Shifted(0, places) == 0
  {
    if places > 0 {
      ShiftedZero(places - 1);
    }
  }

  /** In 32 bits only the last eight digits count: those before them are shifted out. */
  lemma LastEightDigitsCount(digits: seq<nat>)
    requires |digits| >= 8 && forall k :: 0 <= k < |digits| ==> digits[k] < 16
    ensures Positional(digits) % 0x1_0000_0000 == Positional(digits[|digits| - 8..])
  {
    var n := |digits| - 8;
    var high, low := Positional(digits[..n]), Positional(digits[n..]);
    assert Positional(digits) == Shifted(high, 8) + low by {
      assert digits == digits[..n] + digits[n..];
      PositionalBoth(digits[..n], digits[n..]);
    }
    assert low < Shifted(1, 8) by {
      PositionalBelow(digits[n..]);
    }
    EightPlaces(1);
    EightPlaces(high);
    LowWord(Positional(digits), high, low);
  }

  lemma LowWord(v: nat, high: nat, low: nat)
    requires v == high * 0x1_0000_0000 + low && low < 0x1_0000_0000
    ensures v % 0x1_0000_0000 == low
  {
  }

  lemma EightPlaces(x: nat)
    ensures Shifted(x, 8) == x * 0x1_0000_0000
  {
    FewPlaces(x);
    assert Shifted(x, 5) == x * 0x10_0000;
    assert Shifted(x, 6) == x * 0x100_0000;
    assert Shifted(x, 7) == x * 0x1000_0000;
  }

  lemma FewPlaces(x: nat)
    ensures Shifted(x, 1) == x * 0x10 && Shifted(x, 2) == x * 0x100
    ensures Shifted(x, 3) == x * 0x1000 && Shifted(x, 4) == x * 0x1_0000
  {
    assert Shifted(x, 1) == x * 0x10;
    assert Shifted(x, 2) == x * 0x100;
    assert Shifted(x, 3) == x * 0x1000;
  }

  lemma {:induction false} PositionalBelow(digits: seq<nat>)
    requires forall k :: 0 <= k < |digits| ==> digits[k] < 16
    ensures Positional(digits) < Shifted(1, |digits|)
  {
    if digits != [] {
      var n := |digits| - 1;
      PositionalBelow(digits[1..]);
      DigitBelow(digits[0], n);
    }
  }

  lemma {:induction false} DigitBelow(d: nat, places: nat)
    requires d < 16
    ensures Shifted(d, places) + Shifted(1, places) <= Shifted(1, places + 1)
  {
    if places > 0 {
      DigitBelow(d, places - 1);
    }
  }

  // ---------- From a slot to its addresses ----------

  datatype Address = Address(a: nat, b: nat, c: nat, d: nat) {
    predicate Valid() {
      a < 256 && b < 256 && c < 256 && d < 256
    }

    function Number(): nat {
      ((a * 256 + b) * 256 + c) * 256 + d
    }
  }

  /** 10.100.0.0, the network of the bridge. */
  const NETWORK := Address(10, 100, 0, 0)
  /** The bridge's own address. */
  const BRIDGE := Address(10, 100, 0, 1)

  datatype Pair = Pair(guest: Address, gateway: Address)

  function AddressesOf(slot: nat): Pair {
    var base := slot * 4 + 4;
    var third, fourth := base / 256 % 256, base % 256;
    Pair(Address(10, 100, third, fourth + 2), Address(10, 100, third, fourth + 1))
  }

  /** The block of four addresses that an address lies in, as the number of its first address. */
  function BlockOf(x: Address): nat {
    x.Number() / 4 * 4
  }

  /** Usable in a /30: neither the first address of the block, which names it, nor the last, its broadcast. */
  predicate UsableIn(x: Address, block: nat) {
    x.Valid() && BlockOf(x) == block && x.Number() != block && x.Number() != block + 3
  }

  /** Every slot gets block (slot + 1) mod 16384 of the network. */
  lemma BlockOfSlot(slot: nat)
    ensures
      var p := AddressesOf(slot);
      var block := NETWORK.Number() + (slot + 1) % 16384 * 4;
      && p.guest.Valid() && p.guest.Number() == block + 2
      && p.gateway.Valid() && p.gateway.Number() == block + 1
  {
    var n := slot + 1;
    var h, l := n % 16384 / 64, n % 64;
    Halves(n);
    BlockNumber(n, n / 16384, h, l);
    assert AddressesOf(slot) == Pair(Address(10, 100, h, l * 4 + 2), Address(10, 100, h, l * 4 + 1)) by {
      assert slot * 4 + 4 == n * 4;
    }
  }

  lemma Halves(n: nat)
    ensures n % 16384 / 64 < 256 && n == n / 16384 * 16384 + n % 16384 / 64 * 64 + n % 64
  {
    assert n % 64 == n % 16384 % 64;
  }

  lemma BlockNumber(n: nat, q: nat, h: nat, l: nat)
    requires n == q * 16384 + h * 64 + l && h < 256 && l < 64
    ensures n * 4 / 256 % 256 == h && n * 4 % 256 == l * 4 && n % 16384 == h * 64 + l
  {
    assert n * 4 / 256 == q * 256 + h;
  }

  /** Guest and gateway are exactly the two usable hosts of one /30 inside 10.100.0.0/16. */
  lemma PairIsTheUsableHosts(slot: nat, x: Address)
    ensures
      var p := AddressesOf(slot);
      var block := BlockOf(p.guest);
      && NETWORK.Number() <= block <= NETWORK.Number() + 0xFFFC
      && (UsableIn(x, block) <==> x == p.guest || x == p.gateway)
      && p.guest != p.gateway
  {
    var p, first := AddressesOf(slot), NETWORK.Number() + (slot + 1) % 16384 * 4;
    BlockOfSlot(slot);
    InBlock(p.guest, first, 2);
    if UsableIn(x, first) {
      var gap := x.Number() - first;
      assert gap == 1 || gap == 2;
      NumberIsInjective(x, if gap == 1 then p.gateway else p.guest);
    }
    if x == p.gateway {
      InBlock(x, first, 1);
    }
  }

  lemma InBlock(x: Address, block: nat, k: nat)
    requires x.Number() == block + k && block % 4 == 0 && k < 4
    ensures BlockOf(x) == block
  {
  }

  lemma NumberIsInjective(x: Address, y: Address)
    requires x.Valid() && y.Valid() && x.Number() == y.Number()
    ensures x == y
  {
    assert x.Number() % 256 == x.d && y.Number() % 256 == y.d;
    assert x.Number() / 256 == (x.a * 256 + x.b) * 256 + x.c;
    assert y.Number() / 256 == (y.a * 256 + y.b) * 256 + y.c;
  }

  /**
   Two sandboxes get the same addresses exactly when their slots agree modulo 16384; and when they
   do not, neither address of one lies in the other's block.
   */
  lemma SharedExactly(id: seq<byte>, other: seq<byte>)
    ensures
      var p, q := AddressesOf(SlotOf(id)), AddressesOf(SlotOf(other));
      && (p == q <==> SlotOf(id) % 16384 == SlotOf(other) % 16384)
      && (p != q ==> BlockOf(p.guest) != BlockOf(q.guest) && BlockOf(p.gateway) != BlockOf(q.gateway))
  {
    SharedSlotsExactly(SlotOf(id), SlotOf(other));
  }

  lemma SharedSlotsExactly(s: nat, t: nat)
    ensures
      var p, q := AddressesOf(s), AddressesOf(t);
      && (p == q <==> s % 16384 == t % 16384)
      && (p != q ==> BlockOf(p.guest) != BlockOf(q.guest) && BlockOf(p.gateway) != BlockOf(q.gateway))
  {
    BlockOfSlot(s);
    BlockOfSlot(t);
    NextAgrees(s, t);
    if s % 16384 == t % 16384 {
      NumberIsInjective(AddressesOf(s).guest, AddressesOf(t).guest);
      NumberIsInjective(AddressesOf(s).gateway, AddressesOf(t).gateway);
    }
  }

  lemma NextAgrees(s: nat, t: nat)
    ensures (s + 1) % 16384 == (t + 1) % 16384 <==> s % 16384 == t % 16384
  {
    assert (s + 1) % 16384 == (s % 16384 + 1) % 16384;
    assert (t + 1) % 16384 == (t % 16384 + 1) % 16384;
  }

  /**
   The source keeps the first block free. It does so exactly for the slots that are not 16383 modulo
   16384; for those the gateway is the bridge's own address.
   */
  lemma ReservedBlockIsUsedExactly(id: seq<byte>)
    ensures
      var p := AddressesOf(SlotOf(id));
      && (BlockOf(p.gateway) == NETWORK.Number() <==> SlotOf(id) % 16384 == 16383)
      && (p.gateway == BRIDGE <==> SlotOf(id) % 16384 == 16383)
  {
    ReservedSlotsExactly(SlotOf(id));
  }

  lemma ReservedSlotsExactly(s: nat)
    ensures
      var p := AddressesOf(s);
      && (BlockOf(p.gateway) == NETWORK.Number() <==> s % 16384 == 16383)
      && (p.gateway == BRIDGE <==> s % 16384 == 16383)
  {
    var p, first := AddressesOf(s), NETWORK.Number() + (s + 1) % 16384 * 4;
    BlockOfSlot(s);
    InBlock(p.gateway, first, 1);
    NextAgrees(s, 16383);
    assert first == NETWORK.Number() <==> s % 16384 == 16383;
    BridgeAddress(p.gateway, first);
  }

  lemma BridgeAddress(x: Address, block: nat)
    requires x.Valid() && x.Number() == block + 1
    ensures x == BRIDGE <==> block == NETWORK.Number()
  {
    if block == NETWORK.Number() {
      NumberIsInjective(x, BRIDGE);
    }
  }

  // ---------- IDs of the generated form that show it ----------

  /** The bytes of the ID "sb-00000000wxyz". */
  function GeneratedId(w: byte, x: byte, y: byte, z: byte): (id: seq<byte>)
    ensures |id| == 15
  {
    [0x73, 0x62, 0x2D, 0x30, 0x30, 0x30, 0x30] + [0x30, 0x30, 0x30, 0x30, w, x, y, z]
  }

  lemma {:induction false} AllDigits(id: seq<byte>, digits: seq<nat>)
    requires |id| == |digits| && forall k :: 0 <= k < |id| ==> Digits(id[k]) == [digits[k]]
    ensures HexDigits(id) == digits
  {
    if id != [] {
      var n := |id| - 1;
      AllDigits(id[..n], digits[..n]);
      assert digits == digits[..n] + [digits[n]];
    }
  }

  lemma LeadingZero(digits: seq<nat>)
    ensures Positional([0] + digits) == Positional(digits)
  {
    ShiftedZero(|digits|);
    assert ([0] + digits)[1..] == digits;
  }

  lemma FourDigits(w: nat, x: nat, y: nat, z: nat)
    ensures Positional([w, x, y, z]) == w * 4096 + x * 256 + y * 16 + z
  {
    assert [w, x, y, z][1..] == [x, y, z] && [x, y, z][1..] == [y, z] && [y, z][1..] == [z];
    FewPlaces(w);
    FewPlaces(x);
    FewPlaces(y);
    assert [z][1..] == [] && Positional([z]) == z;
    assert Positional([y, z]) == y * 16 + z;
    assert Positional([x, y, z]) == x * 256 + Positional([y, z]);
  }

  lemma EightDigits(w: nat, x: nat, y: nat, z: nat)
    ensures Positional([0, 0, 0, 0, w, x, y, z]) == w * 4096 + x * 256 + y * 16 + z
  {
    var low := [w, x, y, z];
    assert [0, 0, 0, 0, w, x, y, z] == [0] + ([0] + ([0] + ([0] + low)));
    LeadingZero([0] + ([0] + ([0] + low)));
    LeadingZero([0] + ([0] + low));
    LeadingZero([0] + low);
    LeadingZero(low);
    FourDigits(w, x, y, z);
  }

  lemma SlotOfGenerated(a: byte, b: byte, c: byte, d: byte, w: nat, x: nat, y: nat, z: nat)
    requires Digits(a) == [w] && Digits(b) == [x] && Digits(c) == [y] && Digits(d) == [z]
    requires w * 4096 + x * 256 + y * 16 + z < 65000
    ensures SlotOf(GeneratedId(a, b, c, d)) == w * 4096 + x * 256 + y * 16 + z
  {
    var last: seq<byte> := [0x30, 0x30, 0x30, 0x30, a, b, c, d];
    assert Significant(GeneratedId(a, b, c, d)) == last;
    AllDigits(last, [0, 0, 0, 0, w, x, y, z]);
    EightDigits(w, x, y, z);
    NoWrap(w * 4096 + x * 256 + y * 16 + z);
  }

  // ---------- What of an ID decides its slot ----------

  const LOWER_DIGITS := "0123456789abcdef"
  const UPPER_DIGITS := "0123456789ABCDEF"

  /** Hexadecimal digits in either case have the value of their place in the alphabet; nothing else has one. */
  lemma DigitValueExactly(c: byte, k: nat)
    requires k < 16
    ensures DigitValue(c) == k <==> c as int == LOWER_DIGITS[k] as int || c as int == UPPER_DIGITS[k] as int
    ensures -1 <= DigitValue(c) < 16
  {
  }

  /** The slot of an ID that ends in eight hexadecimal digits and is long enough to be cut down to them. */
  lemma SlotOfLastEight(id: seq<byte>, d: seq<nat>)
    requires |id| > 12 && |d| == 8 && forall k :: 0 <= k < 8 ==> Digits(id[|id| - 8 + k]) == [d[k]]
    ensures SlotOf(id) == (d[0] * 0x1000_0000 + d[1] * 0x100_0000 + d[2] * 0x10_0000 + d[3] * 0x1_0000
                           + d[4] * 0x1000 + d[5] * 0x100 + d[6] * 0x10 + d[7]) % 65000
  {
    var last := Significant(id);
    assert last == id[|id| - 8..];
    forall k | 0 <= k < 8 ensures Digits(last[k]) == [d[k]] && d[k] < 16 {
      assert last[k] == id[|id| - 8 + k];
      assert d[k] in Digits(last[k]);
    }
    AllDigits(last, d);
    PositionalOfEight(d);
    NoWrap(Positional(d));
  }

  lemma PositionalOfEight(d: seq<nat>)
    requires |d| == 8 && forall k :: 0 <= k < 8 ==> d[k] < 16
    ensures Positional(d) == d[0] * 0x1000_0000 + d[1] * 0x100_0000 + d[2] * 0x10_0000 + d[3] * 0x1_0000
                             + d[4] * 0x1000 + d[5] * 0x100 + d[6] * 0x10 + d[7]
    ensures Positional(d) < 0x1_0000_0000
  {
    var high, low := d[..4], d[4..];
    assert high == [d[0], d[1], d[2], d[3]] && low == [d[4], d[5], d[6], d[7]] && d == high + low;
    PositionalBoth(high, low);
    FourDigits(d[0], d[1], d[2], d[3]);
    FourDigits(d[4], d[5], d[6], d[7]);
    FewPlaces(Positional(high));
  }

  lemma NoWrap(v: nat)
    requires v < 0x1_0000_0000
    ensures v % 0x1_0000_0000 % 65000 == v % 65000 && (v < 65000 ==> v % 65000 == v)
  {
  }

  /** Of a long ID only the last eight bytes count, whatever they are. */
  lemma OnlyLastEightBytesCount(id: seq<byte>, other: seq<byte>)
    requires |id| > 12 && |other| > 12 && id[|id| - 8..] == other[|other| - 8..]
    ensures SlotOf(id) == SlotOf(other)
  {
  }

  /** A first byte counts exactly in IDs of at most twelve bytes. */
  lemma ShortIdsAreReadWhole(c: byte, rest: seq<byte>)
    requires DigitValue(c) >= 0 && forall k :: 0 <= k < |rest| ==> DigitValue(rest[k]) < 0
    ensures SlotOf([c] + rest) == if |rest| < 12 then DigitValue(c) else 0
  {
    var id := [c] + rest;
    if |rest| < 12 {
      OneDigit(c, rest);
      NoWrap(DigitValue(c));
    } else {
      assert Significant(id) == rest[|rest| - 8..];
      NoDigits(rest[|rest| - 8..]);
      NoWrap(0);
    }
  }

  lemma OneDigit(c: byte, rest: seq<byte>)
    requires DigitValue(c) >= 0 && forall k :: 0 <= k < |rest| ==> DigitValue(rest[k]) < 0
    ensures Positional(HexDigits([c] + rest)) == DigitValue(c)
  {
    var v: nat := DigitValue(c);
    LoneDigit(c, rest);
    assert [v][1..] == [] && Positional([v]) == v;
  }

  lemma {:induction false} LoneDigit(c: byte, rest: seq<byte>)
    requires DigitValue(c) >= 0 && forall k :: 0 <= k < |rest| ==> DigitValue(rest[k]) < 0
    ensures HexDigits([c] + rest) == [DigitValue(c)]
    decreases |rest|
  {
    var n, id := |rest|, [c] + rest;
    if rest == [] {
      assert id[..n] == [] && id[n] == c;
    } else {
      LoneDigit(c, rest[..n - 1]);
      assert id[..n] == [c] + rest[..n - 1] && id[n] == rest[n - 1];
    }
  }

  lemma {:induction false} NoDigits(id: seq<byte>)
    requires forall k :: 0 <= k < |id| ==> DigitValue(id[k]) < 0
    ensures HexDigits(id) == []
    decreases |id|
  {
    if id != [] {
      NoDigits(id[..|id| - 1]);
    }
  }

  // ---------- IDs of the generated form that collide ----------

  /** The IDs "sb-000000000000" and "sb-000000004000" have different slots and the same addresses. */
  lemma SlotsCollide()
    ensures
      var id, other := GeneratedId(0x30, 0x30, 0x30, 0x30), GeneratedId(0x34, 0x30, 0x30, 0x30);
      SlotOf(id) != SlotOf(other) && AddressesOf(SlotOf(id)) == AddressesOf(SlotOf(other))
  {
    SlotOfGenerated(0x30, 0x30, 0x30, 0x30, 0, 0, 0, 0);
    SlotOfGenerated(0x34, 0x30, 0x30, 0x30, 4, 0, 0, 0);
    SharedSlotsExactly(0, 0x4000);
  }

  /** The ID "sb-000000003fff" gets the bridge's own address as its gateway. */
  lemma BridgeAddressIsGivenOut()
    ensures AddressesOf(SlotOf(GeneratedId(0x33, 0x66, 0x66, 0x66))).gateway == BRIDGE
  {
    SlotOfGenerated(0x33, 0x66, 0x66, 0x66, 3, 15, 15, 15);
    ReservedSlotsExactly(0x3FFF);
  }

  method AllocateIPs(sandboxID: seq<byte>) returns (guest: Address, gateway: Address)
    ensures Pair(guest, gateway) == AddressesOf(SlotOf(sandboxID))
  {
    var id := sandboxID;
    if |id| > 12 {
      id := id[|id| - 8..];
    }
    var slot := ReadDigits(id);
    slot := slot % 65000;
    var base := slot * 4 + 4;
    var third := base / 256 % 256;
    var fourth := base % 256;
    gateway := Address(10, 100, third as nat, fourth as nat + 1);
    guest := Address(10, 100, third as nat, fourth as nat + 2);
  }

  /** The digit loop. */
  method ReadDigits(id: seq<byte>) returns (slot: uint32)
    ensures slot as int == Positional(HexDigits(id)) % 0x1_0000_0000
  {
    slot := 0;
    for n := 0 to |id|
      invariant slot as int == Positional(HexDigits(id[..n])) % 0x1_0000_0000
    {
      var c := id[n];
      ghost var digits := HexDigits(id[..n]);
      assert id[..n + 1][..n] == id[..n];
      assert HexDigits(id[..n + 1]) == digits + Digits(c);
      assert digits + [] == digits;
      if '0' as int <= c as int <= '9' as int {
        slot := ShiftIn(slot, (c as int - '0' as int) as uint32, digits);
      } else if 'a' as int <= c as int <= 'f' as int {
        slot := ShiftIn(slot, (c as int - 'a' as int + 10) as uint32, digits);
      } else if 'A' as int <= c as int <= 'F' as int {
        slot := ShiftIn(slot, (c as int - 'A' as int + 10) as uint32, digits);
      }
    }
    assert id[..|id|] == id;
  }

  /** One more digit, in 32-bit arithmetic. */
  method ShiftIn(slot: uint32, digit: uint32, ghost digits: seq<nat>) returns (next: uint32)
    requires slot as int == Positional(digits) % 0x1_0000_0000
    ensures next as int == Positional(digits + [digit as nat]) % 0x1_0000_0000
  {
    next := ((slot as int * 16 + digit as int) % 0x1_0000_0000) as uint32;
    PositionalBoth(digits, [digit as nat]);
    assert Positional([digit as nat]) == digit as int;
    assert Shifted(Positional(digits), 1) == 16 * Positional(digits);
    Wrapped(Positional(digits), digit as nat);
  }

  lemma Wrapped(v: nat, d: nat)
    ensures (v % 0x1_0000_0000 * 16 + d) % 0x1_0000_0000 == (v * 16 + d) % 0x1_0000_0000
  {
    var q, r := v / 0x1_0000_0000, v % 0x1_0000_0000;
    assert v * 16 + d == (r * 16 + d) + q * 16 * 0x1_0000_0000;
  }
}
