/** Self-programming of the AVR's flash, and what bootloader/flash.c does with
    it. */
module FlashSpec {
  import opened Wire
  import opened Arithmetic

  const BOOT_ADDR := 0x7000
  const FLASH_SIZE := 0x8000   // FLASHEND + 1

  /** The part of the device that boot_page_erase and friends operate. The
      temporary page buffer accepts one write per word until it is cleared by
      a page write or by re-enabling the read-while-write section; that
      section reads as erased while it is not enabled. `log` is history. */
  datatype Chip = Chip(page: nat, flash: seq<byte>, buffer: map<nat, bv16>, rwwOpen: bool, log: seq<Spm>)

  datatype Spm = PageErase(addr: nat) | PageFill(addr: nat) | PageWrite(addr: nat)

  /** SPM_PAGESIZE: at least one word, and a divisor of BOOT_ADDR. */
  predicate ValidChip(c: Chip) {
    2 <= c.page && c.page % 2 == 0 && BOOT_ADDR % c.page == 0 && |c.flash| == FLASH_SIZE
  }

  function PageOf(c: Chip, addr: nat): nat
    requires c.page > 0
  {
    addr - addr % c.page
  }

  predicate InPage(c: Chip, addr: nat, k: nat)
    requires c.page > 0
  {
    PageOf(c, addr) <= k < PageOf(c, addr) + c.page
  }

  function Erase(c: Chip, addr: nat): Chip
    requires c.page > 0
  {
    c.(flash := seq(|c.flash|, k requires 0 <= k < |c.flash| => if InPage(c, addr, k) then 0xff else c.flash[k]),
       rwwOpen := false, log := c.log + [PageErase(addr)])
  }

  function Fill(c: Chip, addr: nat, word: bv16): Chip
    requires c.page > 0
  {
    var i := addr % c.page / 2;
    c.(buffer := if i in c.buffer then c.buffer else c.buffer[i := word], log := c.log + [PageFill(addr)])
  }

  function Half(word: bv16, k: nat): byte {
    if k % 2 == 0 then (word & 0xff) as byte else (word >> 8) as byte
  }

  /** Byte `k` of the page buffer; words not filled are all ones. */
  function Buffered(buffer: map<nat, bv16>, k: nat): byte {
    if k / 2 in buffer then Half(buffer[k / 2], k) else 0xff
  }

  /** Programming can only clear bits. */
  function Program(c: Chip, addr: nat): Chip
    requires c.page > 0
  {
    c.(flash := seq(|c.flash|, k requires 0 <= k < |c.flash| =>
                      if InPage(c, addr, k) then c.flash[k] & Buffered(c.buffer, k - PageOf(c, addr)) else c.flash[k]),
       buffer := map[], rwwOpen := false, log := c.log + [PageWrite(addr)])
  }

  function RwwEnable(c: Chip): Chip {
    c.(buffer := map[], rwwOpen := true)
  }

  /** pgm_read_byte */
  function ReadByte(c: Chip, addr: nat): byte
    requires addr < |c.flash|
  {
    if c.rwwOpen || addr >= BOOT_ADDR then c.flash[addr] else 0xff
  }

  // ----- flash.c --------------------------------------------------------------

  /** `payload` is the stream position, `last` the pending odd byte. */
  datatype Writer = Writer(chip: Chip, payload: nat, last: byte)

  function Start(w: Writer): Writer {
    w.(payload := 0)
  }

  predicate CanWrite(w: Writer, size: nat) {
    w.payload + size <= BOOT_ADDR
  }

  function WordOf(low: byte, high: byte): bv16 {
    (low as bv16) | ((high as bv16) << 8)
  }

  lemma MultipleIsLarge(n: nat, s: nat)
    requires 0 < n && 0 < s && n % s == 0
    ensures n >= s
  {
    DivUnique(n, s, n / s, 0);
    MulGap(s, n / s);
  }

  /** One turn of the loop of flash_write. */
  function WriteByte(w: Writer, b: byte): Writer
    requires w.chip.page > 0
  {
    var c1 := if w.payload % w.chip.page == 0 then Erase(w.chip, w.payload) else w.chip;
    var c2 := if w.payload % 2 == 1 then Fill(c1, w.payload, WordOf(w.last, b)) else c1;
    var next := w.payload + 1;
    var c3 := if next % c2.page == 0 then (MultipleIsLarge(next, c2.page); Program(c2, next - c2.page)) else c2;
    Writer(c3, next, if w.payload % 2 == 1 then w.last else b)
  }

  /** flash_write */
  function WriteAll(w: Writer, bytes: seq<byte>): (w': Writer)
    requires w.chip.page > 0
    ensures w'.payload == w.payload + |bytes| && w'.chip.page == w.chip.page
    decreases |bytes|
  {
    if bytes == [] then w else WriteAll(WriteByte(w, bytes[0]), bytes[1..])
  }

  lemma {:induction false} WriteAllAppend(w: Writer, a: seq<byte>, b: seq<byte>)
    requires w.chip.page > 0
    ensures WriteAll(w, a + b) == WriteAll(WriteAll(w, a), b)
    decreases |a|
  {
    if a == [] {
      assert a + b == b;
    } else {
      assert (a + b)[1..] == a[1..] + b;
      WriteAllAppend(WriteByte(w, a[0]), a[1..], b);
    }
  }

  lemma WriteAllSnoc(w: Writer, a: seq<byte>, b: byte)
    requires w.chip.page > 0
    ensures WriteAll(w, a + [b]) == WriteByte(WriteAll(w, a), b)
  {
    WriteAllAppend(w, a, [b]);
    assert [b][1..] == [];
    assert WriteAll(WriteByte(WriteAll(w, a), b), []) == WriteByte(WriteAll(w, a), b);
  }

  /** flash_end_write */
  function EndWrite(w: Writer): Writer
    requires w.chip.page > 0
  {
    w.(chip := RwwEnable(if w.payload % w.chip.page != 0 then Program(w.chip, PageOf(w.chip, w.payload)) else w.chip))
  }

  /** flash_read: the bytes delivered and the writer after. */
  function ReadBytes(c: Chip, from: nat, n: nat): (bytes: seq<byte>)
    requires from + n <= |c.flash|
    ensures |bytes| == n
  {
    seq(n, i requires 0 <= i < n => ReadByte(c, from + i))
  }

  function ReadCount(w: Writer, size: nat): nat
    requires w.payload <= FLASH_SIZE
  {
    if size <= FLASH_SIZE - w.payload then size else FLASH_SIZE - w.payload
  }

  function Read(w: Writer, size: nat): (r: (Writer, seq<byte>))
    requires w.payload <= FLASH_SIZE == |w.chip.flash|
    ensures r.0.payload <= FLASH_SIZE && |r.1| <= size
  {
    var n := ReadCount(w, size);
    (w.(payload := w.payload + n), ReadBytes(w.chip, w.payload, n))
  }

  // ----- page arithmetic -------------------------------------------------------

  lemma PageBase(c: Chip, n: nat)
    requires ValidChip(c)
    ensures PageOf(c, n) == c.page * (n / c.page) && PageOf(c, n) % 2 == 0 && PageOf(c, n) % c.page == 0
  {
    var q := n / c.page;
    assert n == c.page * q + n % c.page;
    EvenMultiple(c.page, q);
    DivUnique(c.page * q, c.page, q, 0);
  }

  lemma PageFits(c: Chip, n: nat)
    requires ValidChip(c) && n < BOOT_ADDR
    ensures PageOf(c, n) + c.page <= BOOT_ADDR
  {
    PageBase(c, n);
    var q, m := n / c.page, BOOT_ADDR / c.page;
    assert BOOT_ADDR == c.page * m;
    if q >= m {
      MulMonotone(c.page, m, q);
    } else {
      MulMonotone(c.page, q + 1, m);
      assert c.page * (q + 1) == c.page * q + c.page;
    }
  }

  lemma PageStep(c: Chip, n: nat)
    requires ValidChip(c)
    ensures (n + 1) % c.page == if n % c.page + 1 == c.page then 0 else n % c.page + 1
    ensures PageOf(c, n + 1) == if n % c.page + 1 == c.page then PageOf(c, n) + c.page else PageOf(c, n)
  {
    var q, o := n / c.page, n % c.page;
    assert n == c.page * q + o;
    if o + 1 == c.page {
      assert c.page * (q + 1) == c.page * q + c.page;
      DivUnique(n + 1, c.page, q + 1, 0);
    } else {
      DivUnique(n + 1, c.page, q, o + 1);
    }
  }
}
