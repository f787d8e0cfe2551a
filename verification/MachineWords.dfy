/** Machine words as bounded integers. */
module MachineWords {
  type Byte = x: int | 0 <= x < 0x100
  type Word = x: int | 0 <= x < 0x1_0000

  function Join(lo: Byte, hi: Byte): Word {
    lo + 0x100 * hi
  }

  function Wrap(x: int): Word {
    x % 0x1_0000
  }

  /** A byte as a two's complement number. */
  function Signed(b: Byte): int {
    if b < 0x80 then b else b - 0x100
  }

  lemma WrapAdd(x: int, n: int)
    ensures Wrap(Wrap(x) + n) == Wrap(x + n)
  {
  }

  /** The next address within the same 256-byte page. */
  function NextInPage(addr: Word): Word {
    addr - addr % 0x100 + (addr % 0x100 + 1) % 0x100
  }
}
