/**
  The byte-order macros over a cursor into a buffer: each writes or reads one
  field at the cursor and advances it.  A shift by 8k bits is a division by 256^k,
  and storing a byte keeps the value modulo 256.
*/
module Streams {
  import opened ByteOrder

  // `now` is `was` with `bytes` written over it from `at` on.
  ghost predicate Wrote(was: seq<Byte>, now: seq<Byte>, at: nat, bytes: seq<Byte>) {
    && at + |bytes| <= |was| == |now|
    && forall i :: 0 <= i < |was| ==> now[i] == if at <= i < at + |bytes| then bytes[i - at] else was[i]
  }

  class Stream {
    const buf: array<Byte>
    var s: nat

    predicate Room(n: nat)
      reads this
    {
      s + n <= buf.Length
    }

    constructor (buf: array<Byte>, s: nat)
      ensures this.buf == buf && this.s == s
    {
      this.buf, this.s := buf, s;
    }

    // *s++ = (uint8_t)(u)
    method PutByte(u: int)
      requires Room(1)
      modifies this, buf
      ensures s == old(s) + 1 && Wrote(old(buf[..]), buf[..], old(s), [u % 256])
    {
      buf[s] := u % 256;
      s := s + 1;
    }

    method PutLE8(u: int)
      requires Room(1)
      modifies this, buf
      ensures s == old(s) + 1 && Wrote(old(buf[..]), buf[..], old(s), LE(u, 1))
    {
      LEDigits(u);
      PutByte(u);
    }

    method PutBE8(u: int)
      requires Room(1)
      modifies this, buf
      ensures s == old(s) + 1 && Wrote(old(buf[..]), buf[..], old(s), BE(u, 1))
    {
      BEDigits(u);
      PutByte(u);
    }

    method PutLE16(u: int)
      requires Room(2)
      modifies this, buf
      ensures s == old(s) + 2 && Wrote(old(buf[..]), buf[..], old(s), LE(u, 2))
    {
      LEDigits(u);
      PutByte(u);
      PutByte(u / 0x100);
    }

    method PutBE16(u: int)
      requires Room(2)
      modifies this, buf
      ensures s == old(s) + 2 && Wrote(old(buf[..]), buf[..], old(s), BE(u, 2))
    {
      BEDigits(u);
      PutByte(u / 0x100);
      PutByte(u);
    }

    method PutLE24(u: int)
      requires Room(3)
      modifies this, buf
      ensures s == old(s) + 3 && Wrote(old(buf[..]), buf[..], old(s), LE(u, 3))
    {
      LEDigits(u);
      PutByte(u);
      PutByte(u / 0x100);
      PutByte(u / 0x10000);
    }

    method PutBE24(u: int)
      requires Room(3)
      modifies this, buf
      ensures s == old(s) + 3 && Wrote(old(buf[..]), buf[..], old(s), BE(u, 3))
    {
      BEDigits(u);
      PutByte(u / 0x10000);
      PutByte(u / 0x100);
      PutByte(u);
    }

    method PutLE32(u: int)
      requires Room(4)
      modifies this, buf
      ensures s == old(s) + 4 && Wrote(old(buf[..]), buf[..], old(s), LE(u, 4))
    {
      LEDigits(u);
      PutByte(u);
      PutByte(u / 0x100);
      PutByte(u / 0x10000);
      PutByte(u / 0x1000000);
    }

    method PutBE32(u: int)
      requires Room(4)
      modifies this, buf
      ensures s == old(s) + 4 && Wrote(old(buf[..]), buf[..], old(s), BE(u, 4))
    {
      BEDigits(u);
      PutByte(u / 0x1000000);
      PutByte(u / 0x10000);
      PutByte(u / 0x100);
      PutByte(u);
    }

    method PutLE64(u: int)
      requires Room(8)
      modifies this, buf
      ensures s == old(s) + 8 && Wrote(old(buf[..]), buf[..], old(s), LE(u, 8))
    {
      LEDigits8(u);
      PutByte(u);
      PutByte(u / 0x100);
      PutByte(u / 0x10000);
      PutByte(u / 0x1000000);
      PutByte(u / 0x100000000);
      PutByte(u / 0x10000000000);
      PutByte(u / 0x1000000000000);
      PutByte(u / 0x100000000000000);
    }

    method PutBE64(u: int)
      requires Room(8)
      modifies this, buf
      ensures s == old(s) + 8 && Wrote(old(buf[..]), buf[..], old(s), BE(u, 8))
    {
      BEDigits8(u);
      PutByte(u / 0x100000000000000);
      PutByte(u / 0x1000000000000);
      PutByte(u / 0x10000000000);
      PutByte(u / 0x100000000);
      PutByte(u / 0x1000000);
      PutByte(u / 0x10000);
      PutByte(u / 0x100);
      PutByte(u);
    }

    method GetLE8() returns (u: nat)
      requires Room(1)
      modifies `s
      ensures s == old(s) + 1 && u == LEValue(buf[old(s)..s])
    {
      u := buf[s];
      LESum(buf[s..s + 1]);
      s := s + 1;
    }

    method GetBE8() returns (u: nat)
      requires Room(1)
      modifies `s
      ensures s == old(s) + 1 && u == BEValue(buf[old(s)..s])
    {
      u := buf[s];
      BESum(buf[s..s + 1]);
      s := s + 1;
    }

    method GetLE16() returns (u: nat)
      requires Room(2)
      modifies `s
      ensures s == old(s) + 2 && u == LEValue(buf[old(s)..s])
    {
      u := (buf[s] as nat) + (buf[s + 1] as nat) * 0x100;
      LESum(buf[s..s + 2]);
      s := s + 2;
    }

    method GetBE16() returns (u: nat)
      requires Room(2)
      modifies `s
      ensures s == old(s) + 2 && u == BEValue(buf[old(s)..s])
    {
      u := (buf[s] as nat) * 0x100 + (buf[s + 1] as nat);
      BESum(buf[s..s + 2]);
      s := s + 2;
    }

    method GetLE24() returns (u: nat)
      requires Room(3)
      modifies `s
      ensures s == old(s) + 3 && u == LEValue(buf[old(s)..s])
    {
      u := (buf[s] as nat) + (buf[s + 1] as nat) * 0x100 + (buf[s + 2] as nat) * 0x10000;
      LESum(buf[s..s + 3]);
      s := s + 3;
    }

    method GetBE24() returns (u: nat)
      requires Room(3)
      modifies `s
      ensures s == old(s) + 3 && u == BEValue(buf[old(s)..s])
    {
      u := (buf[s] as nat) * 0x10000 + (buf[s + 1] as nat) * 0x100 + (buf[s + 2] as nat);
      BESum(buf[s..s + 3]);
      s := s + 3;
    }

    method GetLE32() returns (u: nat)
      requires Room(4)
      modifies `s
      ensures s == old(s) + 4 && u == LEValue(buf[old(s)..s])
    {
      u := (buf[s] as nat) + (buf[s + 1] as nat) * 0x100 + (buf[s + 2] as nat) * 0x10000 + (buf[s + 3] as nat) * 0x1000000;
      LESum(buf[s..s + 4]);
      s := s + 4;
    }

    method GetBE32() returns (u: nat)
      requires Room(4)
      modifies `s
      ensures s == old(s) + 4 && u == BEValue(buf[old(s)..s])
    {
      u := (buf[s] as nat) * 0x1000000 + (buf[s + 1] as nat) * 0x10000 + (buf[s + 2] as nat) * 0x100 + (buf[s + 3] as nat);
      BESum(buf[s..s + 4]);
      s := s + 4;
    }

    method GetLE64() returns (u: nat)
      requires Room(8)
      modifies `s
      ensures s == old(s) + 8 && u == LEValue(buf[old(s)..s])
    {
      u := (buf[s] as nat) + (buf[s + 1] as nat) * 0x100 +
           (buf[s + 2] as nat) * 0x10000 + (buf[s + 3] as nat) * 0x1000000 +
           (buf[s + 4] as nat) * 0x100000000 + (buf[s + 5] as nat) * 0x10000000000 +
           (buf[s + 6] as nat) * 0x1000000000000 + (buf[s + 7] as nat) * 0x100000000000000;
      LESum(buf[s..s + 8]);
      s := s + 8;
    }

    method GetBE64() returns (u: nat)
      requires Room(8)
      modifies `s
      ensures s == old(s) + 8 && u == BEValue(buf[old(s)..s])
    {
      u := (buf[s] as nat) * 0x100000000000000 + (buf[s + 1] as nat) * 0x1000000000000 +
           (buf[s + 2] as nat) * 0x10000000000 + (buf[s + 3] as nat) * 0x100000000 +
           (buf[s + 4] as nat) * 0x1000000 + (buf[s + 5] as nat) * 0x10000 +
           (buf[s + 6] as nat) * 0x100 + (buf[s + 7] as nat);
      BESum(buf[s..s + 8]);
      s := s + 8;
    }

    // ARRAY_TO_STREAM
    method PutArray(a: array<Byte>, len: nat)
      requires a != buf && len <= a.Length && Room(len)
      modifies this, buf
      ensures s == old(s) + len && Wrote(old(buf[..]), buf[..], old(s), a[..len])
    {
      var ii := 0;
      while ii < len
        invariant 0 <= ii <= len && s == old(s) + ii
        invariant Wrote(old(buf[..]), buf[..], old(s), a[..ii])
      {
        PutByte(a[ii]);
        ii := ii + 1;
      }
    }

    // STREAM_TO_ARRAY
    method GetArray(a: array<Byte>, len: nat)
      requires a != buf && len <= a.Length && Room(len)
      modifies `s, a
      ensures s == old(s) + len && a[..] == buf[old(s)..s] + old(a[len..])
    {
      var ii := 0;
      while ii < len
        invariant 0 <= ii <= len && s == old(s) + ii
        invariant a[..] == buf[old(s)..s] + old(a[ii..])
      {
        a[ii] := buf[s];
        s := s + 1;
        ii := ii + 1;
      }
    }
  }
}
