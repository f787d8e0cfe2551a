/** Little-endian numbers and concatenated fields, as the mappers' snapshots store them. */
module Codec {
  import Arithmetic
  import opened MachineWords

  /** 256 to the power `width`. */
  function Range(width: nat): (n: nat)
    ensures n > 0
  {
    if width == 0 then 1 else 0x100 * Range(width - 1)
  }

  /** The low `width` bytes of `n`, lowest first. */
  function LittleEndian(n: nat, width: nat): (s: seq<Byte>)
    ensures |s| == width
  {
    if width == 0 then [] else [n % 0x100] + LittleEndian(n / 0x100, width - 1)
  }

  function FromLittleEndian(s: seq<Byte>): nat {
    if s == [] then 0 else s[0] + 0x100 * FromLittleEndian(s[1..])
  }

  lemma {:induction false} LittleEndianRoundTrip(n: nat, width: nat)
    requires n < Range(width)
    ensures FromLittleEndian(LittleEndian(n, width)) == n
    decreases width
  {
    if width == 0 {
    } else {
      LittleEndianRoundTrip(n / 0x100, width - 1);
      assert LittleEndian(n, width)[1..] == LittleEndian(n / 0x100, width - 1);
    }
  }

  lemma {:induction false} LittleEndianRange(s: seq<Byte>)
    ensures FromLittleEndian(s) < Range(|s|)
    decreases |s|
  {
    if s == [] {
    } else {
      LittleEndianRange(s[1..]);
    }
  }

  lemma {:induction false} LittleEndianInverse(s: seq<Byte>, width: nat)
    requires width == |s|
    ensures LittleEndian(FromLittleEndian(s), width) == s
    decreases width
  {
    if width == 0 {
    } else {
      LittleEndianInverse(s[1..], width - 1);
      var rest := FromLittleEndian(s[1..]);
      Arithmetic.DivModUnique(s[0] + 0x100 * rest, rest, s[0], 0x100);
      assert s == [s[0]] + s[1..];
    }
  }

  lemma TwoBytes(s: seq<Byte>)
    requires |s| == 2
    ensures FromLittleEndian(s) == Join(s[0], s[1])
  {
    assert FromLittleEndian(s[1..]) == s[1] + 0x100 * FromLittleEndian(s[1..][1..]);
  }

  lemma Ranges()
    ensures Range(2) == 0x1_0000 && Range(8) == 0x1_0000_0000_0000_0000
  {
    assert Range(2) == 0x1_0000;
    assert Range(4) == 0x1_0000_0000;
    assert Range(6) == 0x1_0000_0000_0000;
    assert Range(8) == 0x1_0000_0000_0000_0000;
  }

  function Bit(b: bool): Byte {
    if b then 1 else 0
  }

  /** Two's complement in `width` bytes. */
  function Unsigned(x: int, width: nat): (n: nat)
    ensures n < Range(width)
  {
    x % Range(width)
  }

  function SignedFrom(n: nat, width: nat): int {
    if n < Range(width) / 2 then n else n - Range(width)
  }

  predicate FitsSigned(x: int, width: nat) {
    0 - Range(width) / 2 <= x < Range(width) / 2
  }

  lemma SignedRoundTrip(x: int, width: nat)
    requires width > 0 && FitsSigned(x, width)
    ensures SignedFrom(Unsigned(x, width), width) == x
  {
    var range := Range(width);
    assert range == 0x100 * Range(width - 1);
    if x < 0 {
      Arithmetic.DivModUnique(x, -1, x + range, range);
    } else {
      Arithmetic.DivModUnique(x, 0, x, range);
    }
  }

  lemma UnsignedInverse(n: nat, width: nat)
    requires n < Range(width)
    ensures Unsigned(SignedFrom(n, width), width) == n
  {
    var range := Range(width);
    if n < range / 2 {
      Arithmetic.DivModUnique(n, 0, n, range);
    } else {
      Arithmetic.DivModUnique(n - range, -1, n, range);
    }
  }

  lemma SignedInverse(s: seq<Byte>, width: nat)
    requires width == |s|
    ensures LittleEndian(Unsigned(SignedFrom(FromLittleEndian(s), width), width), width) == s
  {
    LittleEndianRange(s);
    UnsignedInverse(FromLittleEndian(s), width);
    LittleEndianInverse(s, width);
  }

  // ----- fields laid end to end

  function Concat(fields: seq<seq<Byte>>): seq<Byte> {
    if fields == [] then [] else fields[0] + Concat(fields[1..])
  }

  /** Where field `k` starts. */
  function Offset(fields: seq<seq<Byte>>, k: nat): nat
    requires k <= |fields|
  {
    if k == 0 then 0 else Offset(fields, k - 1) + |fields[k - 1]|
  }

  lemma OffsetNext(fields: seq<seq<Byte>>, k: nat)
    requires k < |fields|
    ensures Offset(fields, k + 1) == Offset(fields, k) + |fields[k]|
  {
  }

  lemma {:induction false} OffsetOfTail(fields: seq<seq<Byte>>, k: nat)
    requires k < |fields|
    ensures Offset(fields, k + 1) == |fields[0]| + Offset(fields[1..], k)
    decreases k
  {
    if k == 0 {
    } else {
      OffsetOfTail(fields, k - 1);
    }
  }

  /** Field `k` is found where the fields before it end. */
  lemma {:induction false} FieldAt(fields: seq<seq<Byte>>, k: nat)
    requires k < |fields|
    ensures var a := Offset(fields, k);
      a + |fields[k]| <= |Concat(fields)| && Concat(fields)[a..a + |fields[k]|] == fields[k]
    decreases k
  {
    if k == 0 {
    } else {
      OffsetOfTail(fields, k - 1);
      FieldAt(fields[1..], k - 1);
      var a, rest := Offset(fields[1..], k - 1), Concat(fields[1..]);
      assert Concat(fields)[|fields[0]| + a..|fields[0]| + a + |fields[k]|] == rest[a..a + |fields[k]|];
    }
  }

  lemma {:induction false} ConcatLength(fields: seq<seq<Byte>>, n: nat)
    requires n == |fields|
    ensures |Concat(fields)| == Offset(fields, n)
    decreases n
  {
    if n == 0 {
    } else {
      ConcatLength(fields[1..], n - 1);
      OffsetOfTail(fields, n - 1);
    }
  }

  /** Bytes whose cuts are the fields are the fields laid end to end. */
  lemma {:induction false} ConcatOfCuts(fields: seq<seq<Byte>>, bytes: seq<Byte>, n: nat)
    requires n == |fields| && Offset(fields, n) == |bytes|
    requires forall k :: 0 <= k < n ==> IsCut(fields, bytes, k)
    ensures Concat(fields) == bytes
    decreases n
  {
    if n == 0 {
    } else {
      assert IsCut(fields, bytes, 0);
      var tail, rest := fields[1..], bytes[|fields[0]|..];
      OffsetOfTail(fields, n - 1);
      forall k | 0 <= k < n - 1
        ensures IsCut(tail, rest, k)
      {
        assert IsCut(fields, bytes, k + 1);
        OffsetOfTail(fields, k);
        OffsetOfTail(fields, k + 1);
      }
      ConcatOfCuts(tail, rest, n - 1);
      assert bytes == fields[0] + rest;
    }
  }

  /** Field `k` is what the bytes hold at its place. */
  predicate IsCut(fields: seq<seq<Byte>>, bytes: seq<Byte>, k: nat)
    requires k < |fields|
  {
    var a := Offset(fields, k);
    a + |fields[k]| <= |bytes| && bytes[a..a + |fields[k]|] == fields[k]
  }

  method CopyInto(a: array<Byte>, bytes: seq<Byte>)
    requires a.Length == |bytes|
    modifies a
    ensures a[..] == bytes
  {
    for i := 0 to a.Length
      invariant a[..i] == bytes[..i]
    {
      a[i] := bytes[i];
    }
  }
}
