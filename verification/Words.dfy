// 32-bit little-endian words kept in a byte memory.
module Words {
  import opened Bytes

  const WORD := 0x1_0000_0000

  function Word(m: seq<byte>, a: nat): (w: nat)
    requires a + 4 <= |m|
    ensures w < WORD
  {
    m[a] as int + m[a + 1] as int * 0x100 + m[a + 2] as int * 0x1_0000 + m[a + 3] as int * 0x100_0000
  }

  function LowByte(v: nat): byte { v % 0x100 }

  function Put(m: seq<byte>, a: nat, v: nat): (m': seq<byte>)
    requires a + 4 <= |m|
    ensures |m'| == |m|
  {
    m[a := LowByte(v)][a + 1 := LowByte(v / 0x100)][a + 2 := LowByte(v / 0x1_0000)][a + 3 := LowByte(v / 0x100_0000)]
  }

  // A stored word reads back, and every word and byte beside it is unchanged.
  lemma PutWord(m: seq<byte>, a: nat, v: nat)
    requires a + 4 <= |m|
    ensures v < WORD ==> Word(Put(m, a, v), a) == v
    ensures forall b: nat :: b + 4 <= |m| && (b + 4 <= a || a + 4 <= b) ==> Word(Put(m, a, v), b) == Word(m, b)
    ensures forall i :: 0 <= i < |m| && (i < a || a + 4 <= i) ==> Put(m, a, v)[i] == m[i]
  {
    assert v / 0x1_0000 == v / 0x100 / 0x100;
    assert v / 0x100_0000 == v / 0x1_0000 / 0x100;
  }

  // Words depend on their own four bytes only.
  lemma WordSame(m: seq<byte>, m': seq<byte>, a: nat)
    requires a + 4 <= |m| && a + 4 <= |m'|
    requires forall i :: a <= i < a + 4 ==> m[i] == m'[i]
    ensures Word(m, a) == Word(m', a)
  {}
}
