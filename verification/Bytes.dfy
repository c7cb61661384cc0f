/** Fixed-width unsigned integers and their little-endian byte images: the layout of
    every field that RevertJournal writes with fwrite on an x86 host. */
module Bytes {
  import opened Common

  /** 256 to the power k. */
  function Width(k: nat): (w: nat)
    ensures w > 0
  {
    if k == 0 then 1 else 256 * Width(k - 1)
  }

  /** The k low-order bytes of n, least significant first. */
  function Le(n: nat, k: nat): (s: seq<Byte>)
    ensures |s| == k
  {
    if k == 0 then [] else [n % 256] + Le(n / 256, k - 1)
  }

  function FromLe(s: seq<Byte>): (n: nat)
    ensures n < Width(|s|)
  {
    if s == [] then 0 else s[0] + 256 * FromLe(s[1..])
  }

  lemma {:induction false} LeRoundTrip(n: nat, k: nat)
    requires n < Width(k)
    ensures FromLe(Le(n, k)) == n
  {
    if k == 0 {
    } else {
      LeRoundTrip(n / 256, k - 1);
      assert Le(n, k)[1..] == Le(n / 256, k - 1);
    }
  }

  lemma {:induction false} FromLeRoundTrip(s: seq<Byte>)
    ensures Le(FromLe(s), |s|) == s
  {
    if s == [] {
    } else {
      FromLeRoundTrip(s[1..]);
      assert FromLe(s) % 256 == s[0] && FromLe(s) / 256 == FromLe(s[1..]);
    }
  }

  lemma Widths()
    ensures Width(4) == 0x1_0000_0000
    ensures Width(8) == 0x1_0000_0000_0000_0000
  {
    assert Width(4) == 256 * (256 * (256 * (256 * Width(0))));
    assert Width(8) == 256 * (256 * (256 * (256 * Width(4))));
  }

  function Get32(s: seq<Byte>): U32
    requires |s| == 4
  {
    Widths();
    FromLe(s)
  }

  function Get64(s: seq<Byte>): U64
    requires |s| == 8
  {
    Widths();
    FromLe(s)
  }

  lemma Put32(n: U32)
    ensures Get32(Le(n, 4)) == n
  {
    Widths();
    LeRoundTrip(n, 4);
  }

  lemma Put64(n: U64)
    ensures Get64(Le(n, 8)) == n
  {
    Widths();
    LeRoundTrip(n, 8);
  }

  /** The four bytes at an offset as a number, the least significant byte first. */
  function Word(s: seq<Byte>, at: nat): nat
    requires at + 4 <= |s|
  {
    var b0: nat, b1: nat, b2: nat, b3: nat := s[at], s[at + 1], s[at + 2], s[at + 3];
    b0 + 0x100 * b1 + 0x1_0000 * b2 + 0x100_0000 * b3
  }

  function DoubleWord(s: seq<Byte>, at: nat): nat
    requires at + 8 <= |s|
  {
    Word(s, at) + 0x1_0000_0000 * Word(s, at + 4)
  }

  lemma FourBytes(s: seq<Byte>)
    requires |s| >= 4
    ensures FromLe(s) == Word(s, 0) + 0x1_0000_0000 * FromLe(s[4..])
  {
    assert s[1..][1..] == s[2..] && s[2..][1..] == s[3..] && s[3..][1..] == s[4..];
    assert FromLe(s[3..]) == s[3] + 256 * FromLe(s[4..]);
    assert FromLe(s[2..]) == s[2] + 256 * FromLe(s[3..]);
    assert FromLe(s[1..]) == s[1] + 256 * FromLe(s[2..]);
  }

  lemma WordIs(s: seq<Byte>, at: nat)
    requires at + 4 <= |s|
    ensures Word(s, at) == Get32(s[at..at + 4])
  {
    FourBytes(s[at..at + 4]);
  }

  lemma DoubleWordIs(s: seq<Byte>, at: nat)
    requires at + 8 <= |s|
    ensures DoubleWord(s, at) == Get64(s[at..at + 8])
  {
    var t := s[at..at + 8];
    FourBytes(t);
    FourBytes(t[4..]);
  }
}
