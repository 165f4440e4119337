/** Which addresses count as private (action/create_vm.go, IsPrivateSubnet). An address is the byte
    list of Go's net.IP: 16 bytes as parsed, 4 bytes in the short form, none if it did not parse. */
module Subnets {
  import opened Common

  type Address = seq<byte>

  const MAPPED: Address := [0, 0, 0, 0, 0, 0, 0, 0, 0, 0, 255, 255]

  predicate IsMapped(ip: Address) {
    |ip| == 16 && ip[..12] == MAPPED
  }

  function To4(ip: Address): Option<Address> {
    if |ip| == 4 then Some(ip) else if IsMapped(ip) then Some(ip[12..]) else None
  }

  /** What parsing the dotted form gives. */
  function Dotted(a: byte, b: byte, c: byte, d: byte): Address {
    MAPPED + [a, b, c, d]
  }

  /** bytes.Compare. */
  function Compare(x: Address, y: Address): int {
    if x == [] && y == [] then 0
    else if x == [] then -1
    else if y == [] then 1
    else if x[0] < y[0] then -1
    else if x[0] > y[0] then 1
    else Compare(x[1..], y[1..])
  }

  datatype Range = Range(start: Address, end: Address)

  const PRIVATE_RANGES: seq<Range> := [
    Range(Dotted(10, 0, 0, 0), Dotted(10, 255, 255, 255)),
    Range(Dotted(100, 64, 0, 0), Dotted(100, 127, 255, 255)),
    Range(Dotted(172, 16, 0, 0), Dotted(172, 31, 255, 255)),
    Range(Dotted(192, 0, 0, 0), Dotted(192, 0, 0, 255)),
    Range(Dotted(192, 168, 0, 0), Dotted(192, 168, 255, 255)),
    Range(Dotted(198, 18, 0, 0), Dotted(198, 19, 255, 255))
  ]

  predicate InRange(r: Range, ip: Address) {
    Compare(ip, r.start) >= 0 && Compare(ip, r.end) <= 0
  }

  /** What IsPrivateSubnet answers. */
  predicate Private(ip: Address) {
    To4(ip).Some? && exists i :: 0 <= i < |PRIVATE_RANGES| && InRange(PRIVATE_RANGES[i], ip)
  }

  method IsPrivateSubnet(ip: Address) returns (answer: bool)
    ensures answer <==> Private(ip)
  {
    if To4(ip).Some? {
      for i := 0 to |PRIVATE_RANGES|
        invariant forall j :: 0 <= j < i ==> !InRange(PRIVATE_RANGES[j], ip)
      {
        if InRange(PRIVATE_RANGES[i], ip) {
          return true;
        }
      }
    }
    return false;
  }

  // ----- byte order is numeric order

  /** The big-endian value of the bytes. */
  function Number(x: Address): nat {
    if x == [] then 0 else Number(x[..|x| - 1]) * 256 + x[|x| - 1] as nat
  }

  lemma {:induction false} CompareAfterPrefix(p: Address, x: Address, y: Address)
    ensures Compare(p + x, p + y) == Compare(x, y)
  {
    if p == [] {
      assert p + x == x && p + y == y;
    } else {
      assert (p + x)[1..] == p[1..] + x && (p + y)[1..] == p[1..] + y;
      CompareAfterPrefix(p[1..], x, y);
    }
  }

  /** Between byte lists of the same length a last byte decides only a tie. */
  lemma {:induction false} CompareSnoc(x: Address, y: Address, c: byte, d: byte)
    requires |x| == |y|
    ensures Compare(x + [c], y + [d]) ==
            if Compare(x, y) != 0 then Compare(x, y) else if c < d then -1 else if c > d then 1 else 0
  {
    if x == [] {
      assert x + [c] == [c] && y + [d] == [d];
    } else {
      assert (x + [c])[1..] == x[1..] + [c] && (y + [d])[1..] == y[1..] + [d];
      CompareSnoc(x[1..], y[1..], c, d);
    }
  }

  lemma {:induction false} CompareIsNumeric(x: Address, y: Address)
    requires |x| == |y|
    ensures Compare(x, y) < 0 <==> Number(x) < Number(y)
    ensures Compare(x, y) == 0 <==> Number(x) == Number(y)
  {
    if x != [] {
      var n := |x| - 1;
      CompareIsNumeric(x[..n], y[..n]);
      CompareSnoc(x[..n], y[..n], x[n], y[n]);
      assert x == x[..n] + [x[n]] && y == y[..n] + [y[n]];
    }
  }

  lemma NumberOfFour(a: byte, b: byte, c: byte, d: byte)
    ensures Number([a, b, c, d]) == a as nat * 0x100_0000 + b as nat * 0x1_0000 + c as nat * 0x100 + d as nat
  {
    assert [a, b, c, d][..3] == [a, b, c] && [a, b, c][..2] == [a, b] && [a, b][..1] == [a] && [a][..0] == [];
    assert Number([a]) == a as nat;
    assert Number([a, b]) == Number([a]) * 256 + b as nat;
    assert Number([a, b, c]) == Number([a, b]) * 256 + c as nat;
    assert Number([a, b, c, d]) == Number([a, b, c]) * 256 + d as nat;
  }

  /** A range test on a mapped address is an interval test on its 32-bit value. */
  lemma RangeIsInterval(ip: Address, a: byte, b: byte, c: byte, d: byte, a': byte, b': byte, c': byte, d': byte)
    requires IsMapped(ip)
    ensures InRange(Range(Dotted(a, b, c, d), Dotted(a', b', c', d')), ip)
       <==> Number([a, b, c, d]) <= Number(ip[12..]) <= Number([a', b', c', d'])
  {
    assert ip == MAPPED + ip[12..];
    CompareAfterPrefix(MAPPED, ip[12..], [a, b, c, d]);
    CompareAfterPrefix(MAPPED, ip[12..], [a', b', c', d']);
    CompareIsNumeric(ip[12..], [a, b, c, d]);
    CompareIsNumeric(ip[12..], [a', b', c', d']);
  }

  // ----- address blocks

  /** The addresses that share their first 32 - h bits with the block's. */
  predicate InBlock(value: nat, base: nat, size: nat)
    requires size > 0
  {
    value / size == base / size
  }

  /** The blocks of section 3 of RFC 1918, section 7 of RFC 6598 and section 2.2.2 of RFC 6890
      that the table names. */
  predicate InPrivateBlock(v: nat) {
    || InBlock(v, 0x0A00_0000, 0x100_0000)  // 10/8
    || InBlock(v, 0xAC10_0000, 0x10_0000)   // 172.16/12
    || InBlock(v, 0xC0A8_0000, 0x1_0000)    // 192.168/16
    || InBlock(v, 0x6440_0000, 0x40_0000)   // 100.64/10
    || InBlock(v, 0xC000_0000, 0x100)       // 192.0.0/24
    || InBlock(v, 0xC612_0000, 0x2_0000)    // 198.18/15
  }

  /** Exactly the parsed IPv4 addresses in those blocks are private; an IPv6 address is not, and
      neither is any address in the four-byte form, whatever its value. */
  lemma PrivateIffInBlock(ip: Address)
    ensures Private(ip) <==> IsMapped(ip) && InPrivateBlock(Number(ip[12..]))
  {
    if IsMapped(ip) {
      MappedIffInBlock(ip);
    } else if |ip| == 4 {
      forall i | 0 <= i < |PRIVATE_RANGES| ensures !InRange(PRIVATE_RANGES[i], ip) {
        ShortFormNeverInRange(ip, PRIVATE_RANGES[i]);
      }
    }
  }

  lemma MappedIffInBlock(ip: Address)
    requires IsMapped(ip)
    ensures Private(ip) <==> InPrivateBlock(Number(ip[12..]))
  {
    var v := Number(ip[12..]);
    NumberOfFour(10, 0, 0, 0); NumberOfFour(10, 255, 255, 255);
    NumberOfFour(100, 64, 0, 0); NumberOfFour(100, 127, 255, 255);
    NumberOfFour(172, 16, 0, 0); NumberOfFour(172, 31, 255, 255);
    NumberOfFour(192, 0, 0, 0); NumberOfFour(192, 0, 0, 255);
    NumberOfFour(192, 168, 0, 0); NumberOfFour(192, 168, 255, 255);
    NumberOfFour(198, 18, 0, 0); NumberOfFour(198, 19, 255, 255);
    RangeIsInterval(ip, 10, 0, 0, 0, 10, 255, 255, 255);
    RangeIsInterval(ip, 100, 64, 0, 0, 100, 127, 255, 255);
    RangeIsInterval(ip, 172, 16, 0, 0, 172, 31, 255, 255);
    RangeIsInterval(ip, 192, 0, 0, 0, 192, 0, 0, 255);
    RangeIsInterval(ip, 192, 168, 0, 0, 192, 168, 255, 255);
    RangeIsInterval(ip, 198, 18, 0, 0, 198, 19, 255, 255);
    assert InRange(PRIVATE_RANGES[0], ip) <==> InBlock(v, 0x0A00_0000, 0x100_0000);
    assert InRange(PRIVATE_RANGES[1], ip) <==> InBlock(v, 0x6440_0000, 0x40_0000);
    assert InRange(PRIVATE_RANGES[2], ip) <==> InBlock(v, 0xAC10_0000, 0x10_0000);
    assert InRange(PRIVATE_RANGES[3], ip) <==> InBlock(v, 0xC000_0000, 0x100);
    assert InRange(PRIVATE_RANGES[4], ip) <==> InBlock(v, 0xC0A8_0000, 0x1_0000);
    assert InRange(PRIVATE_RANGES[5], ip) <==> InBlock(v, 0xC612_0000, 0x2_0000);
  }

  lemma ShortFormNeverInRange(ip: Address, r: Range)
    requires |ip| == 4 && r in PRIVATE_RANGES
    ensures !InRange(r, ip)
  {
    assert forall k :: 0 <= k < 4 ==> r.start[k] == 0 == r.end[k];
    if ip[0] == 0 && ip[1] == 0 && ip[2] == 0 && ip[3] == 0 {
      assert r.start == ip + r.start[4..];
      assert ip + [] == ip;
      CompareAfterPrefix(ip, [], r.start[4..]);
    } else {
      AboveZeros(ip, r.end, 0);
    }
  }

  lemma {:induction false} AboveZeros(ip: Address, end: Address, k: nat)
    requires |ip| == 4 && |end| >= 4 && k < 4 && (forall j :: 0 <= j < 4 ==> end[j] == 0)
    requires exists j :: k <= j < 4 && ip[j] != 0
    ensures Compare(ip[k..], end[k..]) > 0
    decreases 4 - k
  {
    if ip[k] == 0 {
      AboveZeros(ip, end, k + 1);
    }
  }
}
