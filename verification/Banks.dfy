/** Bank arithmetic shared by the cartridge boards: counting, wrapping, reading, labelling. */
module Banks {
  import opened MachineWords
  import Arithmetic
  import opened Options

  const K8 := 0x2000
  const K16 := 0x4000

  /** Complete banks in the backing, but always at least one. */
  function BankCount(len: nat, size: nat): (n: nat)
    requires size > 0
    ensures n >= 1
  {
    Arithmetic.DivNonNegative(len, size);
    if len / size > 1 then len / size else 1
  }

  function WrapBank(bank: nat, count: nat): nat {
    if count == 0 then 0 else bank % count
  }

  /** Which byte of the backing an offset in a bank selects. */
  function BankIndex(len: nat, size: nat, bank: nat, offset: nat): (i: nat)
    requires len > 0 && size > 0
    ensures i < len
  {
    (WrapBank(bank, BankCount(len, size)) * size + offset % size) % len
  }

  function ReadBank(data: seq<Byte>, size: nat, bank: nat, offset: nat): Byte
    requires size > 0
  {
    if data == [] then 0 else data[BankIndex(|data|, size, bank, offset)]
  }

  function WriteBank(data: seq<Byte>, size: nat, bank: nat, offset: nat, value: Byte): (r: seq<Byte>)
    requires size > 0
    ensures |r| == |data|
    ensures ReadBank(r, size, bank, offset) == if data == [] then 0 else value
  {
    if data == [] then data else data[BankIndex(|data|, size, bank, offset) := value]
  }

  /** The physical 8 KiB bank shown for an address, if it fits the 16-bit label. */
  function PhysicalBank8k(len: nat, size: nat, bank: nat, offset: nat): Option<nat> {
    if len == 0 || size < K8 || size % K8 != 0 then None
    else
      var physical := BankIndex(len, size, bank, offset) / K8;
      if physical <= 0xFFFF then Some(physical) else None
  }

  // ----- when the label and the read agree

  /** Two backings' worth of 8 KiB wrapping agree with one offset's. */
  lemma ModOfMultiple(x: nat, n: nat, k: nat)
    requires n > 0 && k > 0 && n % k == 0
    ensures (x % n) % k == x % k
  {
    var q, m := x / n, n / k;
    assert x == q * n + x % n;
    assert n == m * k;
    assert q * n == (q * m) * k by {
      assert q * (m * k) == (q * m) * k;
    }
    var r, d := (x % n) % k, (x % n) / k;
    assert x == (q * m + d) * k + r;
    Arithmetic.DivModUnique(x, q * m + d, r, k);
  }

  /** The label names the bank that is read, for one offset. */
  predicate LabelFits(len: nat, size: nat, bank: nat, offset: nat)
    requires len > 0 && size > 0
  {
    BankIndex(len, size, bank, offset) % K8 == offset % K8
  }

  lemma AddMultiple(q: nat, x: nat, n: nat)
    requires n > 0
    ensures (q * n + x) % n == x % n
  {
    assert q * n + x == (q + x / n) * n + x % n;
    Arithmetic.DivModUnique(q * n + x, q + x / n, x % n, n);
  }

  /** Whole windows before an offset do not change its place within 8 KiB. */
  lemma WindowsAligned(base: nat, size: nat, offset: nat)
    requires size > 0 && size % K8 == 0
    ensures (base * size + offset % size) % K8 == offset % K8
  {
    var m := size / K8;
    assert base * (m * K8) == (base * m) * K8;
    AddMultiple(base * m, offset % size, K8);
    ModOfMultiple(offset, size, K8);
  }

  lemma LabelFitsWhenAligned(len: nat, size: nat, bank: nat, offset: nat)
    requires len > 0 && size > 0 && size % K8 == 0 && len % K8 == 0
    ensures LabelFits(len, size, bank, offset)
  {
    var base := WrapBank(bank, BankCount(len, size));
    WindowsAligned(base, size, offset);
    ModOfMultiple(base * size + offset % size, len, K8);
  }

  /** A complete bank lies inside the backing. */
  lemma CompleteBankInside(len: nat, size: nat, base: nat)
    requires size > 0 && base < len / size
    ensures base * size + size <= len
  {
    var count := len / size;
    assert count * size <= len;
    Arithmetic.MulMonotone(base + 1, count, size);
    assert (base + 1) * size == base * size + size;
  }

  lemma LabelFitsWhenWhole(len: nat, size: nat, bank: nat, offset: nat)
    requires size > 0 && size % K8 == 0 && len >= size
    ensures LabelFits(len, size, bank, offset)
  {
    Arithmetic.QuotientAtLeastOne(len, size);
    var base := WrapBank(bank, BankCount(len, size));
    CompleteBankInside(len, size, base);
    WindowsAligned(base, size, offset);
    var index := base * size + offset % size;
    Arithmetic.DivModUnique(index, 0, index, len);
  }

  /** A lone short bank repeats before its window ends. */
  lemma LabelMissesWhenShort(len: nat, size: nat, bank: nat)
    requires 0 < len < size && len % K8 != 0
    ensures !LabelFits(len, size, bank, len)
  {
    assert len / size == 0;
    assert WrapBank(bank, BankCount(len, size)) == 0;
  }

  /**
  For windows of a multiple of 8 KiB, every offset is read from the labelled bank exactly when
  the backing fills one window or is a multiple of 8 KiB long.
  */
  lemma LabelExactIff(len: nat, size: nat, bank: nat)
    requires len > 0 && size > 0 && size % K8 == 0
    ensures (forall offset: nat :: LabelFits(len, size, bank, offset)) <==> len >= size || len % K8 == 0
  {
    if len >= size {
      forall offset: nat ensures LabelFits(len, size, bank, offset) {
        LabelFitsWhenWhole(len, size, bank, offset);
      }
    } else if len % K8 == 0 {
      forall offset: nat ensures LabelFits(len, size, bank, offset) {
        LabelFitsWhenAligned(len, size, bank, offset);
      }
    } else {
      LabelMissesWhenShort(len, size, bank);
    }
  }

  /** What a board's label must say about the byte its read returns. */
  predicate Labelled(rom: seq<Byte>, addr: Word, tag: Option<nat>, value: Byte) {
    tag.Some? ==>
      tag.value * K8 + addr % K8 < |rom| && value == rom[tag.value * K8 + addr % K8]
  }

  lemma WindowLabelled(rom: seq<Byte>, size: nat, bank: nat, offset: nat, addr: Word)
    requires size > 0 && size % K8 == 0 && offset % K8 == addr % K8
    requires |rom| >= size || |rom| % K8 == 0
    ensures Labelled(rom, addr, PhysicalBank8k(|rom|, size, bank, offset), ReadBank(rom, size, bank, offset))
  {
    if rom != [] {
      LabelExactIff(|rom|, size, bank);
      assert LabelFits(|rom|, size, bank, offset);
    }
  }

  // ----- backings of whole banks

  lemma WholeBankIndex(len: nat, size: nat, count: nat, bank: nat, offset: nat)
    requires size > 0 && count > 0 && len == count * size && offset < size
    ensures len > 0 && BankIndex(len, size, bank, offset) == (bank % count) * size + offset < len
  {
    var base := bank % count;
    Arithmetic.DivModUnique(len, count, 0, size);
    CompleteBankInside(len, size, base);
    Arithmetic.DivModUnique(offset, 0, offset, size);
    Arithmetic.DivModUnique(base * size + offset, 0, base * size + offset, len);
  }

  /** In a backing of whole banks the bank number wraps at their count. */
  lemma WholeBankRead(data: seq<Byte>, size: nat, count: nat, bank: nat, offset: nat)
    requires size > 0 && count > 0 && |data| == count * size && offset < size
    ensures (bank % count) * size + offset < |data|
    ensures ReadBank(data, size, bank, offset) == data[(bank % count) * size + offset]
  {
    WholeBankIndex(|data|, size, count, bank, offset);
  }
}
