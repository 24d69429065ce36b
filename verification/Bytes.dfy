/** Byte strings as Python slices and converts them. */
module Bytes {

  type Byte = b: int | 0 <= b < 256

  // data[lo:hi]: bounds past the end are cut to it.
  function Slice(s: seq<Byte>, lo: nat, hi: nat): seq<Byte> {
    var h := if hi < |s| then hi else |s|;
    if lo < h then s[lo..h] else []
  }

  // data[i:]
  function From(s: seq<Byte>, i: nat): seq<Byte> {
    if i < |s| then s[i..] else []
  }

  function AsByte(c: char): Byte
    requires c < 128 as char
  {
    c as int
  }

  // A bytes literal.
  function Ascii(s: string): (b: seq<Byte>)
    requires forall i | 0 <= i < |s| :: s[i] < 128 as char
    ensures |b| == |s|
    ensures |s| == 4 ==> b == [s[0] as int, s[1] as int, s[2] as int, s[3] as int]
  {
    seq(|s|, i requires 0 <= i < |s| => AsByte(s[i]))
  }

  lemma FromFrom(s: seq<Byte>, i: nat, n: nat)
    ensures From(From(s, i), n) == From(s, i + n)
  {
  }

  lemma SliceFrom(s: seq<Byte>, i: nat, lo: nat, hi: nat)
    ensures Slice(From(s, i), lo, hi) == Slice(s, i + lo, i + hi)
  {
  }

  // A slice of a sequence's beginning does not see what follows it.
  lemma SliceOfPrefix(s: seq<Byte>, n: nat, rest: seq<Byte>, lo: nat, hi: nat)
    requires lo <= hi <= n <= |s|
    ensures Slice(s[..n] + rest, lo, hi) == Slice(s, lo, hi)
  {
  }

  // int.from_bytes(s, "big")
  function BigEndian(s: seq<Byte>): nat {
    if s == [] then 0 else BigEndian(s[..|s| - 1]) * 256 + s[|s| - 1]
  }

  // int.from_bytes(s, "little")
  function LittleEndian(s: seq<Byte>): nat {
    if s == [] then 0 else s[0] + LittleEndian(s[1..]) * 256
  }

  const TWO_32: nat := 0x1_0000_0000

  function Big2(n: nat): seq<Byte>
    requires n < 0x1_0000
  {
    [n / 256, n % 256]
  }

  function Big4(n: nat): seq<Byte>
    requires n < TWO_32
  {
    Big2(n / 0x1_0000) + Big2(n % 0x1_0000)
  }

  function Little4(n: nat): seq<Byte>
    requires n < TWO_32
  {
    var b := Big4(n);
    [b[3], b[2], b[1], b[0]]
  }

  lemma Big2Value(n: nat)
    requires n < 0x1_0000
    ensures BigEndian(Big2(n)) == n
  {
    var b := Big2(n);
    assert b[..1] == [b[0]] && b[..1][..0] == [];
    assert BigEndian(b[..1]) == b[0];
  }

  lemma BigSplit(a: seq<Byte>, b: seq<Byte>)
    requires |b| == 2
    ensures BigEndian(a + b) == BigEndian(a) * 0x1_0000 + BigEndian(b)
  {
    var c := a + b;
    assert c[..|c| - 1] == a + [b[0]] && (a + [b[0]])[..|a|] == a;
    assert b[..1] == [b[0]] && b[..1][..0] == [];
    assert BigEndian(b[..1]) == b[0];
    assert BigEndian(a + [b[0]]) == BigEndian(a) * 256 + b[0];
  }

  lemma Big4Value(n: nat)
    requires n < TWO_32
    ensures BigEndian(Big4(n)) == n
  {
    BigSplit(Big2(n / 0x1_0000), Big2(n % 0x1_0000));
    Big2Value(n / 0x1_0000);
    Big2Value(n % 0x1_0000);
  }

  lemma Big2Bytes(s: seq<Byte>)
    requires |s| == 2
    ensures BigEndian(s) < 0x1_0000 && Big2(BigEndian(s)) == s
  {
    assert s[..1] == [s[0]] && s[..1][..0] == [];
    assert BigEndian(s[..1]) == s[0];
  }

  // Four bytes and their value determine each other.
  lemma Big4Bytes(s: seq<Byte>)
    requires |s| == 4
    ensures BigEndian(s) < TWO_32 && Big4(BigEndian(s)) == s
  {
    assert s == s[..2] + s[2..];
    BigSplit(s[..2], s[2..]);
    Big2Bytes(s[..2]);
    Big2Bytes(s[2..]);
  }

  lemma BigValue4(b: seq<Byte>)
    requires |b| == 4
    ensures BigEndian(b) == ((b[0] as int * 256 + b[1]) * 256 + b[2]) * 256 + b[3]
  {
    assert b[..3][..2] == b[..2] && b[..2][..1] == b[..1] && b[..1][..0] == [];
    assert BigEndian(b[..1]) == b[0] as int;
    assert BigEndian(b[..2]) == b[0] as int * 256 + b[1];
  }

  lemma Little4Value(n: nat)
    requires n < TWO_32
    ensures LittleEndian(Little4(n)) == n
  {
    Big4Value(n);
    BigValue4(Big4(n));
    LittleValue4(Little4(n));
    hide BigEndian, LittleEndian, Big4;
  }

  lemma LittleValue4(s: seq<Byte>)
    requires |s| == 4
    ensures LittleEndian(s) == ((s[3] as int * 256 + s[2]) * 256 + s[1]) * 256 + s[0]
  {
    var t := s[1..][1..][1..];
    assert t == [s[3]] && t[1..] == [];
    assert LittleEndian(t) == s[3] as int;
    assert LittleEndian(s[1..][1..]) == s[2] + s[3] as int * 256;
    assert LittleEndian(s[1..]) == s[1] + (s[2] + s[3] as int * 256) * 256;
  }

  // Four bytes and their little-endian value determine each other, too.
  lemma Little4Bytes(s: seq<Byte>)
    requires |s| == 4
    ensures LittleEndian(s) < TWO_32 && Little4(LittleEndian(s)) == s
  {
    var r := [s[3], s[2], s[1], s[0]];
    LittleValue4(s);
    BigValue4(r);
    Big4Bytes(r);
    hide BigEndian, LittleEndian, Big4;
  }

  lemma {:induction false} LittleEndianBound(s: seq<Byte>)
    requires |s| <= 4
    ensures LittleEndian(s) < TWO_32
  {
    if |s| == 4 {
      Little4Bytes(s);
    } else {
      LittleEndianOfShort(s);
    }
  }

  lemma LittleEndianOfShort(s: seq<Byte>)
    requires |s| <= 3
    ensures LittleEndian(s) < 0x100_0000
  {
    if s != [] {
      var t := s[1..];
      if t != [] {
        var u := t[1..];
        assert LittleEndian(u) < 256 by {
          assert u == [] || u[1..] == [];
        }
        assert LittleEndian(t) == t[0] + LittleEndian(u) * 256;
      }
      assert LittleEndian(s) == s[0] + LittleEndian(t) * 256;
    }
  }
}
