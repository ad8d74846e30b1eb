/** bootloader/flash.c: the stream position and the pending byte are static
    variables, the chip is the hardware behind boot_page_erase and friends. */
module FlashWriter {
  import opened Wire
  import opened FlashSpec

  class FlashWriter {
    var chip: Chip
    var payload: nat
    var last: byte

    constructor (chip: Chip)
      requires ValidChip(chip)
      ensures Valid() && Abs() == Writer(chip, 0, 0)
    {
      this.chip := chip;
      this.payload, this.last := 0, 0;
    }

    ghost predicate Valid()
      reads this
    {
      ValidChip(chip)
    }

    ghost function Abs(): Writer
      reads this
    {
      Writer(chip, payload, last)
    }

    /** flash_start */
    method FlashStart()
      modifies this`payload
      ensures Abs() == Start(old(Abs()))
    {
      payload := 0;
    }

    /** flash_can_write */
    method FlashCanWrite(size: nat) returns (ok: bool)
      ensures ok == CanWrite(Abs(), size)
    {
      ok := payload + size <= BOOT_ADDR;
    }

    /** flash_write */
    method FlashWrite(buf: array<byte>, size: nat)
      requires Valid() && size <= buf.Length
      modifies this
      ensures Valid() && Abs() == WriteAll(old(Abs()), buf[..size])
    {
      var p := 0;
      while p != size
        invariant 0 <= p <= size && Valid()
        invariant Abs() == WriteAll(old(Abs()), buf[..p])
        decreases size - p
      {
        WriteAllSnoc(old(Abs()), buf[..p], buf[p]);
        assert buf[..p + 1] == buf[..p] + [buf[p]];
        WriteOne(buf[p]);
        p := p + 1;
      }
    }

    /** The body of the loop: erase on entering a page, fill on every second
        byte, write on leaving the page. */
    method WriteOne(b: byte)
      requires Valid()
      modifies this
      ensures Valid() && Abs() == WriteByte(old(Abs()), b)
    {
      if payload % chip.page == 0 {
        chip := Erase(chip, payload);
      }
      if payload % 2 == 1 {
        chip := Fill(chip, payload, WordOf(last, b));
      } else {
        last := b;
      }
      payload := payload + 1;
      if payload % chip.page == 0 {
        MultipleIsLarge(payload, chip.page);
        chip := Program(chip, payload - chip.page);
      }
    }

    /** flash_end_write */
    method FlashEndWrite()
      requires Valid()
      modifies this`chip
      ensures Valid() && Abs() == EndWrite(old(Abs()))
    {
      if payload % chip.page != 0 {
        chip := Program(chip, payload - payload % chip.page);
      }
      chip := RwwEnable(chip);
    }

    /** flash_read; the loop test is for equality with FLASHEND + 1, so the
        position must not start beyond it. */
    method FlashRead(buf: array<byte>, size: nat) returns (got: nat)
      requires Valid() && size <= buf.Length && payload <= FLASH_SIZE
      modifies this`payload, buf
      ensures Valid() && got <= size && (Abs(), buf[..got]) == Read(old(Abs()), size)
    {
      got := 0;
      var left := size;
      while left > 0 && payload != FLASH_SIZE
        invariant Valid() && chip == old(chip) && last == old(last)
        invariant 0 <= left <= size && got == size - left && payload == old(payload) + got <= FLASH_SIZE
        invariant buf[..got] == ReadBytes(chip, old(payload), got)
        decreases left
      {
        buf[got] := ReadByte(chip, payload);
        payload := payload + 1;
        left := left - 1;
        got := got + 1;
      }
    }
  }
}
