/** The 32-bit priority group as the C code keeps it: setting, clearing and finding
    bits. The scheduler model keeps the set of bit numbers instead. */
module Bitmap {
  import Scheduling

  predicate Bit(g: bv32, p: bv32)
    requires p < 32
  {
    (g >> p) & 1 == 1
  }

  // group |= 1 << p adds bit p and group &= ~(1 << p) removes it.
  lemma OneBit(g: bv32, p: bv32, q: bv32)
    requires p < 32 && q < 32
    ensures Bit(g | (1 << p), q) <==> p == q || Bit(g, q)
    ensures Bit(g & !(1 << p), q) <==> p != q && Bit(g, q)
  {}

  // __lowest_bit_bitmap has 256 entries, in rows of 16 that differ only in the
  // first: the first entry of row i, and the others.
  function FirstEntry(i: bv32): bv32 {
    if i == 0 then 0 else if i == 1 then 4 else if i == 2 then 5 else if i == 3 then 4
    else if i == 4 then 6 else if i == 5 then 4 else if i == 6 then 5 else if i == 7 then 4
    else if i == 8 then 7 else if i == 9 then 4 else if i == 10 then 5 else if i == 11 then 4
    else if i == 12 then 6 else if i == 13 then 4 else if i == 14 then 5 else 4
  }

  function OtherEntry(j: bv32): bv32 {
    if j == 1 then 0 else if j == 2 then 1 else if j == 3 then 0 else if j == 4 then 2
    else if j == 5 then 0 else if j == 6 then 1 else if j == 7 then 0 else if j == 8 then 3
    else if j == 9 then 0 else if j == 10 then 1 else if j == 11 then 0 else if j == 12 then 2
    else if j == 13 then 0 else if j == 14 then 1 else 0
  }

  function LowestBit(i: bv32): bv32
    requires i < 256
  {
    if i & 0xf == 0 then FirstEntry(i >> 4) else OtherEntry(i & 0xf)
  }

  // The table is right for every byte but 0, at which it is never read.
  lemma TableIsLowest(b: bv32, q: bv32)
    requires 0 < b < 256
    ensures LowestBit(b) < 8 && Bit(b, LowestBit(b)) && (q < LowestBit(b) ==> !Bit(b, q))
  {}

  // __rt_ffs: one plus the number of the lowest set bit, 0 if there is none.
  function Ffs(value: bv32): bv32 {
    if value == 0 then 0
    else if value & 0xff != 0 then LowestBit(value & 0xff) + 1
    else if value & 0xff00 != 0 then LowestBit((value & 0xff00) >> 8) + 9
    else if value & 0xff0000 != 0 then LowestBit((value & 0xff0000) >> 16) + 17
    else LowestBit((value & 0xff000000) >> 24) + 25
  }

  lemma FfsIsLowest(g: bv32, q: bv32)
    ensures g == 0 <==> Ffs(g) == 0
    ensures g == 0 && q < 32 ==> !Bit(g, q)
    ensures g != 0 ==> 1 <= Ffs(g) <= 32 && Bit(g, Ffs(g) - 1)
    ensures g != 0 && q < Ffs(g) - 1 ==> !Bit(g, q)
  {
    hide LowestBit;
    if g == 0 {
    } else if g & 0xff != 0 {
      TableIsLowest(g & 0xff, q);
    } else if g & 0xff00 != 0 {
      TableIsLowest((g & 0xff00) >> 8, q - 8);
    } else if g & 0xff0000 != 0 {
      TableIsLowest((g & 0xff0000) >> 16, q - 16);
    } else {
      TableIsLowest((g & 0xff000000) >> 24, q - 24);
    }
  }

  // A word stands for the set of its bit numbers.
  ghost predicate Stands(g: bv32, group: set<nat>) {
    forall p: nat :: p in group <==> HasBit(g, p)
  }

  function Number(p: nat): bv32
    requires p < 32
  {
    if p == 0 then 0 else Number(p - 1) + 1
  }

  ghost predicate HasBit(g: bv32, p: nat) {
    p < 32 && Number(p) < 32 && Bit(g, Number(p))
  }

  lemma NextNumber(b: bv32)
    requires b < 32
    ensures (b + 1) as nat == b as nat + 1
  {}

  lemma Ascending(a: bv32, b: bv32)
    requires b < 32
    ensures a < b <==> a as nat < b as nat
  {}

  lemma {:induction false} NumberSmall(p: nat)
    requires p < 32
    ensures Number(p) < 32 && Number(p) as nat == p
  {
    if p > 0 {
      NumberSmall(p - 1);
      NextNumber(Number(p - 1));
      SmallNat(Number(p));
    }
  }

  lemma SmallNat(b: bv32)
    ensures b < 32 <==> b as nat < 32
  {}

  lemma BackToBits(b: bv32)
    requires b < 32
    ensures b as nat < 32 && Number(b as nat) == b
  {
    SmallNat(b);
    NumberSmall(b as nat);
    Ascending(Number(b as nat), b);
    Ascending(b, Number(b as nat));
    hide Number;
  }

  lemma NumbersAscend(p: nat, q: nat)
    requires p < 32 && q < 32
    ensures p < q <==> Number(p) < Number(q)
  {
    NumberSmall(p);
    NumberSmall(q);
    Ascending(Number(p), Number(q));
    hide Number;
  }

  function WithBit(g: bv32, p: bv32): bv32
    requires p < 32
  {
    g | (1 << p)
  }

  function WithoutBit(g: bv32, p: bv32): bv32
    requires p < 32
  {
    g & !(1 << p)
  }

  lemma BitsOf(g: bv32, p: bv32, q: bv32)
    requires p < 32 && q < 32
    ensures Bit(WithBit(g, p), q) <==> p == q || Bit(g, q)
    ensures Bit(WithoutBit(g, p), q) <==> p != q && Bit(g, q)
  {
    OneBit(g, p, q);
    hide Bit;
  }

  // Setting and clearing a bit stands for adding and removing its number.
  lemma GroupUpdates(g: bv32, group: set<nat>, p: nat)
    requires Stands(g, group) && p < 32
    ensures Number(p) < 32 && Stands(WithBit(g, Number(p)), group + {p}) && Stands(WithoutBit(g, Number(p)), group - {p})
  {
    hide Bit, Number, WithBit, WithoutBit;
    NumberSmall(p);
    forall n: nat
      ensures HasBit(WithBit(g, Number(p)), n) <==> n == p || HasBit(g, n)
      ensures HasBit(WithoutBit(g, Number(p)), n) <==> n != p && HasBit(g, n)
    {
      if n < 32 {
        NumberSmall(n);
        BitsOf(g, Number(p), Number(n));
        NumbersAscend(n, p);
        NumbersAscend(p, n);
      }
    }
    hide HasBit;
  }

  // The highest ready priority that rt_schedule computes from the group is the
  // one the model finds in the set.
  lemma HighestReady(g: bv32, group: set<nat>)
    requires Stands(g, group)
    ensures g == 0 ==> Scheduling.Lowest(group, 0) == Scheduling.PRIORITIES
    ensures g != 0 ==> Ffs(g) > 0 && Scheduling.Lowest(group, 0) == (Ffs(g) - 1) as nat
  {
    hide Bit, Ffs, Number;
    var r := Scheduling.Lowest(group, 0);
    FfsIsLowest(g, 0);
    if g != 0 {
      BackToBits(Ffs(g) - 1);
      assert HasBit(g, (Ffs(g) - 1) as nat);
    }
    if r < 32 {
      NumberSmall(r);
      assert HasBit(g, r);
      FfsIsLowest(g, Number(r));
      if g != 0 {
        NumbersAscend(r, (Ffs(g) - 1) as nat);
      }
    }
  }
}
