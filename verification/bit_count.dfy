/** Counting one bits by clearing the lowest of them until none is left. */
module BitCount {

  // Bitwise and.
  function And(x: nat, y: nat): nat {
    if x == 0 || y == 0 then 0 else 2 * And(x / 2, y / 2) + (x % 2) * (y % 2)
  }

  // The number of one bits.
  function Ones(x: nat): nat {
    if x == 0 then 0 else Ones(x / 2) + x % 2
  }

  // The bits at and above the lowest one bit.
  function LowestOne(x: nat): nat
    requires x > 0
  {
    if x % 2 == 1 then 0 else 1 + LowestOne(x / 2)
  }

  predicate Bit(x: nat, i: nat) {
    if i == 0 then x % 2 == 1 else Bit(x / 2, i - 1)
  }

  lemma {:induction false} AndSelf(x: nat)
    ensures And(x, x) == x
  {
    if x > 0 {
      AndSelf(x / 2);
      assert (x % 2) * (x % 2) == x % 2;
    }
  }

  // Bit by bit.
  lemma {:induction false} AndBits(x: nat, y: nat, i: nat)
    ensures Bit(And(x, y), i) <==> Bit(x, i) && Bit(y, i)
    decreases i
  {
    if x > 0 && y > 0 {
      assert And(x, y) / 2 == And(x / 2, y / 2) && And(x, y) % 2 == (x % 2) * (y % 2);
      if i > 0 {
        AndBits(x / 2, y / 2, i - 1);
      }
    } else {
      NoBits(i);
    }
  }

  lemma {:induction false} NoBits(i: nat)
    ensures !Bit(0, i)
    decreases i
  {
    if i > 0 {
      NoBits(i - 1);
    }
  }

  lemma {:induction false} LowestIsLowest(x: nat, i: nat)
    requires x > 0
    ensures Bit(x, LowestOne(x)) && (i < LowestOne(x) ==> !Bit(x, i))
  {
    if x % 2 == 0 {
      LowestIsLowest(x / 2, if i > 0 then i - 1 else 0);
    }
  }

  // x & (x - 1) is x without its lowest one bit, and nothing else changes.
  lemma {:induction false} ClearsLowest(x: nat)
    requires x > 0
    ensures And(x, x - 1) < x && Ones(And(x, x - 1)) == Ones(x) - 1
    ensures forall i: nat :: Bit(And(x, x - 1), i) <==> Bit(x, i) && i != LowestOne(x)
  {
    var y := And(x, x - 1);
    if x % 2 == 1 {
      AndSelf(x / 2);
      assert (x - 1) / 2 == x / 2 && (x - 1) % 2 == 0;
      assert y == x - 1;
    } else {
      ClearsLowest(x / 2);
      assert (x - 1) / 2 == x / 2 - 1 && (x - 1) % 2 == 1;
      assert y / 2 == And(x / 2, x / 2 - 1) && y % 2 == 0;
    }
    forall i: nat ensures Bit(y, i) <==> Bit(x, i) && i != LowestOne(x) {
      if i > 0 {
        assert Bit(y, i) == Bit(y / 2, i - 1) && Bit(x, i) == Bit(x / 2, i - 1);
      }
    }
  }

  // One round of the loop for every one bit; the integer, an unsigned word of any
  // width, ends as 0.
  method CountOnes(integer: nat) returns (count: nat, rest: nat)
    ensures count == Ones(integer) && rest == 0
  {
    count, rest := 0, integer;
    while rest != 0
      invariant count + Ones(rest) == Ones(integer)
      decreases Ones(rest), rest
    {
      ClearsLowest(rest);
      count := count + 1;
      rest := And(rest, rest - 1);
    }
  }

  // ---- signed integers, in two's complement

  function Pow2(size: nat): (r: nat)
    ensures r > 0
  {
    if size == 0 then 1 else 2 * Pow2(size - 1)
  }

  predicate Fits(x: int, size: nat)
    requires size > 0
  {
    0 - Pow2(size - 1) <= x < Pow2(size - 1)
  }

  // The word that stands for x.
  function Word(x: int, size: nat): (u: nat)
    requires size > 0 && Fits(x, size)
    ensures u < Pow2(size)
  {
    if x < 0 then x + Pow2(size) else x
  }

  // The integer that a word stands for.
  function Signed(u: nat, size: nat): (x: int)
    requires size > 0 && u < Pow2(size)
    ensures Fits(x, size) && Word(x, size) == u
  {
    if u < Pow2(size - 1) then u else u - Pow2(size)
  }

  // x - 1, wrapping around below the least integer.
  function Pred(x: int, size: nat): (r: int)
    requires size > 0 && Fits(x, size)
    ensures Fits(r, size)
  {
    if x == 0 - Pow2(size - 1) then Pow2(size - 1) - 1 else x - 1
  }

  // Subtracting one from a word that is not 0 never borrows from above it.
  lemma PredWord(x: int, size: nat)
    requires size > 0 && Fits(x, size) && x != 0
    ensures Word(x, size) > 0 && Word(Pred(x, size), size) == Word(x, size) - 1
  {
  }

  // The same loop on a signed integer of `size` bits: a negative one has its sign
  // bit counted too, and ends as 0 all the same.
  method CountOnesSigned(integer: int, size: nat) returns (count: nat, rest: int)
    requires size > 0 && Fits(integer, size)
    ensures count == Ones(Word(integer, size)) && rest == 0
  {
    count, rest := 0, integer;
    while rest != 0
      invariant Fits(rest, size) && count + Ones(Word(rest, size)) == Ones(Word(integer, size))
      decreases Word(rest, size)
    {
      PredWord(rest, size);
      ClearsLowest(Word(rest, size));
      count := count + 1;
      rest := Signed(And(Word(rest, size), Word(Pred(rest, size), size)), size);
    }
  }
}
