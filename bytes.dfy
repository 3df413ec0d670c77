/** Byte sequences and the 8-bit additive checksum that both serial protocols use. */
module Bytes {

  /** The sum of the bytes of `s`, as an unbounded integer. */
  function Sum(s: seq<bv8>): nat
  {
    if s == [] then 0 else s[0] as nat + Sum(s[1..])
  }

  /** The 8-bit additive checksum: the sum of the bytes, keeping its low eight bits. */
  function Sum8(s: seq<bv8>): bv8
  {
    (Sum(s) % 256) as bv8
  }

  /** The checksum, read as a number, is the sum of the bytes modulo 256. */
  lemma Sum8IsSumMod256(s: seq<bv8>)
    ensures Sum8(s) as int == Sum(s) % 256
  {
    ByteOfInt(Sum(s) % 256);
  }

  /** The sum of five bytes, written out. */
  lemma SumOfFive(s: seq<bv8>)
    requires |s| == 5
    ensures Sum(s) == s[0] as int + s[1] as int + s[2] as int + s[3] as int + s[4] as int
  {
    assert Sum(s[4..]) == s[4] as int by { assert s[4..][1..] == []; }
    assert Sum(s[3..]) == s[3] as int + Sum(s[4..]) by { assert s[3..][1..] == s[4..]; }
    assert Sum(s[2..]) == s[2] as int + Sum(s[3..]) by { assert s[2..][1..] == s[3..]; }
    assert Sum(s[1..]) == s[1] as int + Sum(s[2..]) by { assert s[1..][1..] == s[2..]; }
  }

  /** Converting a number below 256 to a byte keeps its value. */
  lemma ByteOfInt(a: int)
    requires 0 <= a < 256
    ensures (a as bv8) as int == a
  {
    assert a % 256 == a;
  }

  lemma {:induction false} SumAppend(s: seq<bv8>, t: seq<bv8>)
    ensures Sum(s + t) == Sum(s) + Sum(t)
  {
    if s == [] {
      assert s + t == t;
    } else {
      assert (s + t)[1..] == s[1..] + t;
      SumAppend(s[1..], t);
    }
  }

  /** Replacing one byte changes the sum by exactly the difference of the two bytes. */
  lemma {:induction false} SumUpdate(s: seq<bv8>, i: nat, b: bv8)
    requires i < |s|
    ensures Sum(s[i := b]) == Sum(s) - s[i] as int + b as int
  {
    if i > 0 {
      assert s[i := b][1..] == s[1..][i - 1 := b];
      SumUpdate(s[1..], i - 1, b);
    }
  }

  /** Any change to a single byte changes the 8-bit checksum: the sum moves by less than 256. */
  lemma Sum8DetectsSingleByteChange(s: seq<bv8>, i: nat, b: bv8)
    requires i < |s| && b != s[i]
    ensures Sum8(s[i := b]) != Sum8(s)
  {
    SumUpdate(s, i, b);
    ShiftChangesResidue(Sum(s), b as int - s[i] as int);
    Sum8IsSumMod256(s);
    Sum8IsSumMod256(s[i := b]);
  }

  lemma ShiftChangesResidue(x: int, d: int)
    requires -256 < d < 256 && d != 0
    ensures (x + d) % 256 != x % 256
  {
  }
}
