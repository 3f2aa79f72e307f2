/** Little- and big-endian byte strings of integers. */
module ByteOrder {
  import opened Arithmetic

  type Byte = b: int | 0 <= b < 256

  // The n low bytes of v, lowest first.  A negative v is read in two's complement.
  function LE(v: int, n: nat): (r: seq<Byte>)
    ensures |r| == n
    decreases n
  {
    if n == 0 then [] else [v % 256] + LE(v / 256, n - 1)
  }

  // The same, highest first.
  function BE(v: int, n: nat): (r: seq<Byte>)
    ensures |r| == n
    decreases n
  {
    if n == 0 then [] else BE(v / 256, n - 1) + [v % 256]
  }

  function LEValue(bs: seq<Byte>): nat {
    if bs == [] then 0 else bs[0] + 256 * LEValue(bs[1..])
  }

  function BEValue(bs: seq<Byte>): nat {
    if bs == [] then 0 else 256 * BEValue(bs[..|bs| - 1]) + bs[|bs| - 1]
  }

  function Pow256(n: nat): (r: nat)
    ensures r > 0
  {
    if n == 0 then 1 else 256 * Pow256(n - 1)
  }

  // Shifting by one byte and then by n.
  lemma ShiftTwice(v: int, n: nat)
    ensures (v / 256) / Pow256(n) == v / Pow256(n + 1)
    ensures v % Pow256(n + 1) == v % 256 + 256 * ((v / 256) % Pow256(n))
  {
    var p := Pow256(n);
    var a, b := v / 256, v / 256 / p;
    var r := 256 * (a % p) + v % 256;
    assert a == p * b + a % p;
    assert 256 * (p * b) == (256 * p) * b;
    QuotientIsUnique(v, 256 * p, b, r);
  }

  // Byte i of v is v shifted right by i bytes, truncated.
  lemma {:induction false} LEBytes(v: int, n: nat, i: nat)
    requires i < n
    ensures LE(v, n)[i] == (v / Pow256(i)) % 256
    decreases n
  {
    if i > 0 {
      LEBytes(v / 256, n - 1, i - 1);
      ShiftTwice(v, i - 1);
    }
  }

  function Reverse(bs: seq<Byte>): (r: seq<Byte>)
    ensures |r| == |bs| && forall i :: 0 <= i < |bs| ==> r[i] == bs[|bs| - 1 - i]
  {
    seq(|bs|, i requires 0 <= i < |bs| => bs[|bs| - 1 - i])
  }

  lemma {:induction false} BEIsReverse(v: int, n: nat)
    ensures BE(v, n) == Reverse(LE(v, n))
    decreases n
  {
    if n > 0 {
      BEIsReverse(v / 256, n - 1);
    }
  }

  lemma {:induction false} BEValueIsReverse(bs: seq<Byte>)
    ensures BEValue(bs) == LEValue(Reverse(bs))
  {
    if bs != [] {
      var most := bs[..|bs| - 1];
      BEValueIsReverse(most);
      assert Reverse(bs)[1..] == Reverse(most);
    }
  }

  // Reading back what was written gives the value modulo 256^n.
  lemma {:induction false} LERoundTrip(v: int, n: nat)
    ensures LEValue(LE(v, n)) == v % Pow256(n)
    decreases n
  {
    if n > 0 {
      LERoundTrip(v / 256, n - 1);
      ShiftTwice(v, n - 1);
    }
  }

  lemma BERoundTrip(v: int, n: nat)
    ensures BEValue(BE(v, n)) == v % Pow256(n)
  {
    BEIsReverse(v, n);
    BEValueIsReverse(BE(v, n));
    assert Reverse(Reverse(LE(v, n))) == LE(v, n);
    LERoundTrip(v, n);
  }

  // The other way round: distinct byte strings are distinct values.
  lemma {:induction false} LEOfValue(bs: seq<Byte>)
    ensures LE(LEValue(bs), |bs|) == bs
  {
    if bs != [] {
      var v := LEValue(bs);
      LEOfValue(bs[1..]);
      assert v % 256 == bs[0] && v / 256 == LEValue(bs[1..]);
      assert LE(v, |bs|) == [v % 256] + LE(v / 256, |bs| - 1);
    }
  }

  // ---- the widths in use, written out

  lemma Powers()
    ensures Pow256(1) == 0x100 && Pow256(2) == 0x10000 && Pow256(3) == 0x1000000 && Pow256(4) == 0x100000000
    ensures Pow256(5) == 0x10000000000 && Pow256(6) == 0x1000000000000 && Pow256(7) == 0x100000000000000
  {
    assert Pow256(2) == 256 * Pow256(1) && Pow256(4) == 256 * Pow256(3) && Pow256(6) == 256 * Pow256(5);
  }

  lemma LEDigits(u: int)
    ensures LE(u, 1) == [u % 256]
    ensures LE(u, 2) == [u % 256, u / 0x100 % 256]
    ensures LE(u, 3) == [u % 256, u / 0x100 % 256, u / 0x10000 % 256]
    ensures LE(u, 4) == [u % 256, u / 0x100 % 256, u / 0x10000 % 256, u / 0x1000000 % 256]
  {
    Powers();
    forall n, i | 0 <= i < n <= 4 ensures LE(u, n)[i] == u / Pow256(i) % 256 {
      LEBytes(u, n, i);
    }
  }

  lemma LEDigits8(u: int)
    ensures LE(u, 8) == [u % 256, u / 0x100 % 256,
                         u / 0x10000 % 256, u / 0x1000000 % 256,
                         u / 0x100000000 % 256, u / 0x10000000000 % 256,
                         u / 0x1000000000000 % 256, u / 0x100000000000000 % 256]
  {
    Powers();
    forall i | 0 <= i < 8 ensures LE(u, 8)[i] == u / Pow256(i) % 256 {
      LEBytes(u, 8, i);
    }
  }

  lemma BEDigits(u: int)
    ensures BE(u, 1) == [u % 256]
    ensures BE(u, 2) == [u / 0x100 % 256, u % 256]
    ensures BE(u, 3) == [u / 0x10000 % 256, u / 0x100 % 256, u % 256]
    ensures BE(u, 4) == [u / 0x1000000 % 256, u / 0x10000 % 256, u / 0x100 % 256, u % 256]
  {
    Powers();
    forall n, i | 0 <= i < n <= 4 ensures BE(u, n)[i] == u / Pow256(n - 1 - i) % 256 {
      BEIsReverse(u, n);
      LEBytes(u, n, n - 1 - i);
    }
  }

  lemma BEDigits8(u: int)
    ensures BE(u, 8) == [u / 0x100000000000000 % 256, u / 0x1000000000000 % 256,
                         u / 0x10000000000 % 256, u / 0x100000000 % 256,
                         u / 0x1000000 % 256, u / 0x10000 % 256,
                         u / 0x100 % 256, u % 256]
  {
    Powers();
    forall i | 0 <= i < 8 ensures BE(u, 8)[i] == u / Pow256(7 - i) % 256 {
      BEIsReverse(u, 8);
      LEBytes(u, 8, 7 - i);
    }
  }

  lemma LESum(bs: seq<Byte>)
    ensures |bs| == 1 ==> LEValue(bs) == bs[0]
    ensures |bs| == 2 ==> LEValue(bs) == (bs[0] as nat) + (bs[1] as nat) * 0x100
    ensures |bs| == 3 ==> LEValue(bs) == (bs[0] as nat) + (bs[1] as nat) * 0x100 + (bs[2] as nat) * 0x10000
    ensures |bs| == 4 ==>
      LEValue(bs) == (bs[0] as nat) + (bs[1] as nat) * 0x100
        + (bs[2] as nat) * 0x10000 + (bs[3] as nat) * 0x1000000
    ensures |bs| == 8 ==>
      LEValue(bs) == (bs[0] as nat) + (bs[1] as nat) * 0x100
        + (bs[2] as nat) * 0x10000 + (bs[3] as nat) * 0x1000000
        + (bs[4] as nat) * 0x100000000 + (bs[5] as nat) * 0x10000000000
        + (bs[6] as nat) * 0x1000000000000 + (bs[7] as nat) * 0x100000000000000
  {
    forall i | 0 <= i < |bs| ensures LEValue(bs[i..]) == bs[i] + 256 * LEValue(bs[i + 1..]) {
      assert bs[i..][1..] == bs[i + 1..];
    }
    assert bs[0..] == bs && LEValue(bs[|bs|..]) == 0;
  }

  lemma BESum(bs: seq<Byte>)
    ensures |bs| == 1 ==> BEValue(bs) == bs[0]
    ensures |bs| == 2 ==> BEValue(bs) == (bs[0] as nat) * 0x100 + (bs[1] as nat)
    ensures |bs| == 3 ==> BEValue(bs) == (bs[0] as nat) * 0x10000 + (bs[1] as nat) * 0x100 + (bs[2] as nat)
    ensures |bs| == 4 ==>
      BEValue(bs) == (bs[0] as nat) * 0x1000000 + (bs[1] as nat) * 0x10000
        + (bs[2] as nat) * 0x100 + (bs[3] as nat)
    ensures |bs| == 8 ==>
      BEValue(bs) == (bs[0] as nat) * 0x100000000000000 + (bs[1] as nat) * 0x1000000000000
        + (bs[2] as nat) * 0x10000000000 + (bs[3] as nat) * 0x100000000
        + (bs[4] as nat) * 0x1000000 + (bs[5] as nat) * 0x10000
        + (bs[6] as nat) * 0x100 + (bs[7] as nat)
  {
    BEValueIsReverse(bs);
    LESum(Reverse(bs));
  }
}
