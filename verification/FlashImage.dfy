/** What a stream of bytes leaves in flash, byte for byte. */
module FlashImage {
  import opened Wire
  import opened FlashSpec

  /** Byte k of the pages a stream covers. Words that were in the page buffer
      before the first byte win over the stream, in the first page only; a
      final odd byte is not programmed. */
  function Programmed(stale: map<nat, bv16>, page: nat, stream: seq<byte>, k: nat): byte {
    if k < page && k / 2 in stale then Half(stale[k / 2], k)
    else if k < 2 * (|stream| / 2) then stream[k]
    else 0xff
  }

  lemma HalfOfWord(low: byte, high: byte, k: nat)
    ensures Half(WordOf(low, high), k) == if k % 2 == 0 then low else high
  {
  }

  // ----- a page being filled ---------------------------------------------------

  /** The page at `base` is erased and its first `fill` bytes have been taken
      from the stream; a pending odd byte is not in the buffer. */
  ghost predicate Partial(c0: Chip, c: Chip, stream: seq<byte>, base: nat) {
    ValidChip(c0) && c.page == c0.page && |c.flash| == FLASH_SIZE &&
    base <= |stream| <= base + c.page && base + c.page <= BOOT_ADDR && base % 2 == 0 && base % c.page == 0 &&
    (forall k | 0 <= k < base :: c.flash[k] == Programmed(c0.buffer, c.page, stream, k)) &&
    (forall k | base <= k < base + c.page :: c.flash[k] == 0xff) &&
    (forall k | base + c.page <= k < FLASH_SIZE :: c.flash[k] == c0.flash[k]) &&
    BufferOf(c0, c, stream, base)
  }

  ghost predicate BufferOf(c0: Chip, c: Chip, stream: seq<byte>, base: nat)
    requires base <= |stream|
  {
    (forall i: nat :: i in c.buffer <==> (base == 0 && i in c0.buffer) || base + 2 * i + 1 < |stream|) &&
    (forall i: nat | i in c.buffer ::
       c.buffer[i] == if base == 0 && i in c0.buffer then c0.buffer[i]
                      else WordOf(stream[base + 2 * i], stream[base + 2 * i + 1]))
  }

  /** Between bytes: the last page touched is partial, or all pages touched
      are complete and the next one is as it was. */
  ghost predicate Image(c0: Chip, w: Writer, stream: seq<byte>) {
    var n, c := |stream|, w.chip;
    ValidChip(c0) && c.page == c0.page && |c.flash| == FLASH_SIZE && w.payload == n <= BOOT_ADDR &&
    (n % 2 == 1 ==> w.last == stream[n - 1]) &&
    if n % c.page != 0 then Partial(c0, c, stream, PageOf(c, n))
    else
      (forall k | 0 <= k < n :: c.flash[k] == Programmed(c0.buffer, c.page, stream, k)) &&
      (forall k | n <= k < FLASH_SIZE :: c.flash[k] == c0.flash[k]) &&
      BufferOf(c0, c, stream, n)
  }

  lemma ImageStart(w: Writer)
    requires ValidChip(w.chip)
    ensures Image(w.chip, Start(w), [])
  {
  }

  /** Erasing an untouched page makes it a partial one. */
  lemma EraseStarts(c0: Chip, w: Writer, stream: seq<byte>)
    requires Image(c0, w, stream) && |stream| % c0.page == 0 && |stream| < BOOT_ADDR
    ensures Partial(c0, Erase(w.chip, w.payload), stream, |stream|)
  {
    PageFits(w.chip, |stream|);
    PageBase(w.chip, |stream|);
  }

  lemma ProgrammedPrefix(stale: map<nat, bv16>, page: nat, stream: seq<byte>, b: byte, k: nat)
    requires k < 2 * (|stream| / 2)
    ensures Programmed(stale, page, stream + [b], k) == Programmed(stale, page, stream, k)
  {
  }

  lemma EvenBuffer(c0: Chip, c: Chip, stream: seq<byte>, base: nat, b: byte)
    requires base <= |stream| && BufferOf(c0, c, stream, base) && |stream| % 2 == 0 && base % 2 == 0
    ensures BufferOf(c0, c, stream + [b], base)
  {
    forall i: nat
      ensures base + 2 * i + 1 < |stream + [b]| <==> base + 2 * i + 1 < |stream|
    {
    }
  }

  /** Pages already programmed do not depend on what follows. */
  lemma PagesKept(stale: map<nat, bv16>, flash: seq<byte>, page: nat, stream: seq<byte>, base: nat, b: byte)
    requires base <= |stream| && base <= |flash| && base % 2 == 0
    requires forall k | 0 <= k < base :: flash[k] == Programmed(stale, page, stream, k)
    ensures forall k | 0 <= k < base :: flash[k] == Programmed(stale, page, stream + [b], k)
  {
    forall k | 0 <= k < base
      ensures flash[k] == Programmed(stale, page, stream + [b], k)
    {
      ProgrammedPrefix(stale, page, stream, b, k);
    }
  }

  /** An even byte only waits in `last`; an odd one completes a word. */
  lemma EvenByte(c0: Chip, c: Chip, stream: seq<byte>, base: nat, b: byte)
    requires Partial(c0, c, stream, base) && |stream| < base + c.page && |stream| % 2 == 0
    ensures Partial(c0, c, stream + [b], base)
  {
    PagesKept(c0.buffer, c.flash, c.page, stream, base, b);
    EvenBuffer(c0, c, stream, base, b);
  }

  /** The word at byte `n` of the stream is word (n - base) / 2 of its page. */
  lemma OddFill(c: Chip, n: nat, base: nat, word: bv16)
    requires c.page > 0 && base <= n && n - base == n % c.page && (n - base) % 2 == 1 && (n - base) / 2 !in c.buffer
    ensures Fill(c, n, word).buffer == c.buffer[(n - base) / 2 := word]
  {
  }

  /** A stale word stays as it is. */
  lemma OddStale(c0: Chip, c: Chip, c': Chip, stream: seq<byte>, base: nat, b: byte)
    requires base <= |stream| && BufferOf(c0, c, stream, base) && c'.buffer == c.buffer && (|stream| - base) % 2 == 1
    requires (|stream| - base) / 2 in c.buffer
    ensures BufferOf(c0, c', stream + [b], base)
  {
    var i := (|stream| - base) / 2;
    assert |stream| == base + 2 * i + 1;
    forall j: nat
      ensures base + 2 * j + 1 < |stream + [b]| <==> base + 2 * j + 1 < |stream| || j == i
    {
    }
  }

  lemma OddFresh(c0: Chip, c: Chip, c': Chip, stream: seq<byte>, base: nat, b: byte)
    requires base <= |stream| && BufferOf(c0, c, stream, base) && (|stream| - base) % 2 == 1
    requires (|stream| - base) / 2 !in c.buffer
    requires c'.buffer == c.buffer[(|stream| - base) / 2 := WordOf(stream[|stream| - 1], b)]
    ensures BufferOf(c0, c', stream + [b], base)
  {
    var i := (|stream| - base) / 2;
    assert |stream| == base + 2 * i + 1;
    forall j: nat
      ensures base + 2 * j + 1 < |stream + [b]| <==> base + 2 * j + 1 < |stream| || j == i
    {
    }
  }

  lemma OddBuffer(c0: Chip, c: Chip, stream: seq<byte>, base: nat, word: bv16, b: byte)
    requires c.page > 0 && base <= |stream| && BufferOf(c0, c, stream, base)
    requires |stream| - base == |stream| % c.page && (|stream| - base) % 2 == 1
    requires word == WordOf(stream[|stream| - 1], b)
    ensures BufferOf(c0, Fill(c, |stream|, word), stream + [b], base)
  {
    if (|stream| - base) / 2 in c.buffer {
      OddStale(c0, c, Fill(c, |stream|, word), stream, base, b);
    } else {
      OddFill(c, |stream|, base, word);
      OddFresh(c0, c, Fill(c, |stream|, word), stream, base, b);
    }
  }

  lemma OffsetInPage(c: Chip, n: nat, base: nat)
    requires c.page > 0 && PageOf(c, n) == base
    ensures base <= n && n - base == n % c.page
  {
  }

  lemma OddByte(c0: Chip, c: Chip, stream: seq<byte>, base: nat, b: byte)
    requires Partial(c0, c, stream, base) && |stream| < base + c.page && |stream| % 2 == 1
    requires PageOf(c, |stream|) == base
    ensures Partial(c0, Fill(c, |stream|, WordOf(stream[|stream| - 1], b)), stream + [b], base)
  {
    var word := WordOf(stream[|stream| - 1], b);
    OffsetInPage(c, |stream|, base);
    OddBuffer(c0, c, stream, base, word, b);
    PagesKept(c0.buffer, c.flash, c.page, stream, base, b);
    SamePages(c0, c, Fill(c, |stream|, word), stream, base, b);
  }

  /** Filling the page buffer leaves flash alone. */
  lemma SamePages(c0: Chip, c: Chip, c': Chip, stream: seq<byte>, base: nat, b: byte)
    requires Partial(c0, c, stream, base) && |stream| < base + c.page
    requires c'.page == c.page && c'.flash == c.flash && BufferOf(c0, c', stream + [b], base)
    requires forall k | 0 <= k < base :: c.flash[k] == Programmed(c0.buffer, c.page, stream + [b], k)
    ensures Partial(c0, c', stream + [b], base)
  {
  }

  /** Where byte k of flash lies in a page that begins at an even address. */
  lemma WordInPage(base: nat, k: nat)
    requires base % 2 == 0 && base <= k
    ensures (k - base) % 2 == k % 2
    ensures var i := (k - base) / 2; k == base + 2 * i + k % 2
    ensures base == 0 ==> (k - base) / 2 == k / 2
  {
  }

  lemma StreamWord(c: Chip, stream: seq<byte>, base: nat, k: nat)
    requires base % 2 == 0 && base <= k && base + 2 * ((k - base) / 2) + 1 < |stream|
    requires var i := (k - base) / 2; i in c.buffer && c.buffer[i] == WordOf(stream[base + 2 * i], stream[base + 2 * i + 1])
    ensures Buffered(c.buffer, k - base) == stream[k]
  {
    WordInPage(base, k);
    var i := (k - base) / 2;
    HalfOfWord(stream[base + 2 * i], stream[base + 2 * i + 1], k - base);
  }

  /** The buffer of a partial page holds what is to be programmed there. */
  lemma BufferedByte(c0: Chip, c: Chip, stream: seq<byte>, base: nat, k: nat)
    requires base <= |stream| && BufferOf(c0, c, stream, base) && base % 2 == 0
    requires base <= k < base + c.page && (base == 0 || c.page <= base) && |stream| <= base + c.page
    ensures Buffered(c.buffer, k - base) == Programmed(c0.buffer, c.page, stream, k)
  {
    var i := (k - base) / 2;
    WordInPage(base, k);
    if base == 0 && i in c0.buffer {
      assert c.buffer[i] == c0.buffer[i];
    } else if base + 2 * i + 1 < |stream| {
      assert c.buffer[i] == WordOf(stream[base + 2 * i], stream[base + 2 * i + 1]);
      StreamWord(c, stream, base, k);
      assert k < 2 * (|stream| / 2);
    } else {
      assert i !in c.buffer;
    }
  }

  /** Writing a page programs its buffer and leaves the buffer empty. */
  lemma ProgramPage(c0: Chip, c: Chip, stream: seq<byte>, base: nat, addr: nat)
    requires Partial(c0, c, stream, base) && PageOf(c, addr) == base
    ensures var c' := Program(c, addr);
            && c'.page == c.page && |c'.flash| == FLASH_SIZE && c'.buffer == map[]
            && (forall k | 0 <= k < base + c.page :: c'.flash[k] == Programmed(c0.buffer, c.page, stream, k))
            && (forall k | base + c.page <= k < FLASH_SIZE :: c'.flash[k] == c0.flash[k])
  {
    var c' := Program(c, addr);
    if base > 0 {
      MultipleIsLarge(base, c.page);
    }
    forall k | base <= k < base + c.page
      ensures c'.flash[k] == Programmed(c0.buffer, c.page, stream, k)
    {
      BufferedByte(c0, c, stream, base, k);
      assert 0xff & Buffered(c.buffer, k - base) == Buffered(c.buffer, k - base);
      assert InPage(c, addr, k);
    }
  }

  lemma NothingBuffered(c0: Chip, c: Chip, stream: seq<byte>)
    requires c.buffer == map[] && |stream| > 0
    ensures BufferOf(c0, c, stream, |stream|)
  {
  }

  lemma EvenPages(c: Chip, n: nat)
    requires ValidChip(c) && n % c.page == 0
    ensures n % 2 == 0
  {
    PageBase(c, n);
  }

  lemma PageDone(c0: Chip, c: Chip, stream: seq<byte>, base: nat, last: byte)
    requires Partial(c0, c, stream, base) && |stream| == base + c.page && c.page > 0
    requires |stream| % c.page == 0
    ensures Image(c0, Writer(Program(c, base), |stream|, last), stream)
  {
    ProgramPage(c0, c, stream, base, base);
    EvenPages(c, |stream|);
    NothingBuffered(c0, Program(c, base), stream);
  }

  /** The page of the next byte is partial once it has been erased if new. */
  lemma Prepared(c0: Chip, w: Writer, stream: seq<byte>)
    requires Image(c0, w, stream) && |stream| < BOOT_ADDR
    ensures var c1 := if w.payload % w.chip.page == 0 then Erase(w.chip, w.payload) else w.chip;
            c1.page == w.chip.page && Partial(c0, c1, stream, PageOf(w.chip, w.payload))
  {
    if w.payload % w.chip.page == 0 {
      EraseStarts(c0, w, stream);
    }
  }

  lemma Taken(c0: Chip, c1: Chip, stream: seq<byte>, base: nat, last: byte, b: byte)
    requires Partial(c0, c1, stream, base) && base == PageOf(c1, |stream|)
    requires |stream| % 2 == 1 ==> last == stream[|stream| - 1]
    ensures var n := |stream|;
            var c2 := if n % 2 == 1 then Fill(c1, n, WordOf(last, b)) else c1;
            c2.page == c1.page && Partial(c0, c2, stream + [b], base)
  {
    if |stream| % 2 == 1 {
      OddByte(c0, c1, stream, base, b);
    } else {
      EvenByte(c0, c1, stream, base, b);
    }
  }

  lemma Closed(c0: Chip, c2: Chip, stream: seq<byte>, base: nat, last: byte)
    requires Partial(c0, c2, stream, base) && base < |stream|
    requires |stream| % c2.page == 0 ==> |stream| == base + c2.page
    requires |stream| % c2.page != 0 ==> base == PageOf(c2, |stream|)
    requires |stream| % 2 == 1 ==> last == stream[|stream| - 1]
    ensures Image(c0, Writer(if |stream| % c2.page == 0 then Program(c2, base) else c2, |stream|, last), stream)
  {
    if |stream| % c2.page == 0 {
      PageDone(c0, c2, stream, base, last);
    }
  }

  /** Every byte keeps the image. */
  lemma ImageByte(c0: Chip, w: Writer, stream: seq<byte>, b: byte)
    requires Image(c0, w, stream) && |stream| < BOOT_ADDR
    ensures Image(c0, WriteByte(w, b), stream + [b])
  {
    Prepared(c0, w, stream);
    ByteIntoPage(c0, w, if w.payload % w.chip.page == 0 then Erase(w.chip, w.payload) else w.chip, stream, b);
  }

  lemma ByteIntoPage(c0: Chip, w: Writer, c1: Chip, stream: seq<byte>, b: byte)
    requires ValidChip(w.chip) && w.payload == |stream| && c1.page == w.chip.page
    requires c1 == if w.payload % w.chip.page == 0 then Erase(w.chip, w.payload) else w.chip
    requires Partial(c0, c1, stream, PageOf(w.chip, |stream|))
    requires |stream| % 2 == 1 ==> w.last == stream[|stream| - 1]
    ensures Image(c0, WriteByte(w, b), stream + [b])
  {
    var n := |stream|;
    Taken(c0, c1, stream, PageOf(w.chip, n), w.last, b);
    ByteDone(c0, w, c1, if n % 2 == 1 then Fill(c1, n, WordOf(w.last, b)) else c1, stream, b);
  }

  lemma ByteDone(c0: Chip, w: Writer, c1: Chip, c2: Chip, stream: seq<byte>, b: byte)
    requires ValidChip(w.chip) && w.payload == |stream| && c2.page == w.chip.page
    requires c1 == if w.payload % w.chip.page == 0 then Erase(w.chip, w.payload) else w.chip
    requires c2 == if w.payload % 2 == 1 then Fill(c1, w.payload, WordOf(w.last, b)) else c1
    requires Partial(c0, c2, stream + [b], PageOf(w.chip, |stream|))
    ensures Image(c0, WriteByte(w, b), stream + [b])
  {
    var n := |stream|;
    var base := PageOf(w.chip, n);
    PageStep(w.chip, n);
    WriteByteShape(w, b, c1, c2, base);
    Closed(c0, c2, stream + [b], base, if n % 2 == 1 then w.last else b);
  }

  lemma WriteByteShape(w: Writer, b: byte, c1: Chip, c2: Chip, base: nat)
    requires ValidChip(w.chip) && base == PageOf(w.chip, w.payload)
    requires c1 == if w.payload % w.chip.page == 0 then Erase(w.chip, w.payload) else w.chip
    requires c2 == if w.payload % 2 == 1 then Fill(c1, w.payload, WordOf(w.last, b)) else c1
    ensures WriteByte(w, b) == Writer(if (w.payload + 1) % w.chip.page == 0 then Program(c2, base) else c2, w.payload + 1,
                                      if w.payload % 2 == 1 then w.last else b)
  {
    PageStep(w.chip, w.payload);
  }

  lemma {:induction false} ImageAll(c0: Chip, w: Writer, stream: seq<byte>, bytes: seq<byte>)
    requires Image(c0, w, stream) && |stream| + |bytes| <= BOOT_ADDR
    ensures Image(c0, WriteAll(w, bytes), stream + bytes)
    decreases |bytes|
  {
    if bytes == [] {
      assert stream + bytes == stream;
    } else {
      ImageByte(c0, w, stream, bytes[0]);
      ImageAll(c0, WriteByte(w, bytes[0]), stream + [bytes[0]], bytes[1..]);
      assert stream + [bytes[0]] + bytes[1..] == stream + bytes;
    }
  }

  // ----- the finished image -------------------------------------------------------

  /** First address behind the last page touched. */
  function Ceiling(page: nat, n: nat): nat
    requires page > 0
  {
    if n % page == 0 then n else n - n % page + page
  }

  /** flash_start, any stream of bytes that fits, flash_end_write: every byte of
      flash is accounted for, and flash can be read again. */
  lemma FlashContents(w0: Writer, stream: seq<byte>)
    requires ValidChip(w0.chip) && |stream| <= BOOT_ADDR
    ensures var w, page := EndWrite(WriteAll(Start(w0), stream)), w0.chip.page;
            && w.payload == |stream| && |w.chip.flash| == FLASH_SIZE && w.chip.page == page
            && w.chip.rwwOpen && w.chip.buffer == map[]
            && (forall k | 0 <= k < Ceiling(page, |stream|) && k < FLASH_SIZE ::
                  w.chip.flash[k] == Programmed(w0.chip.buffer, page, stream, k))
            && (forall k | Ceiling(page, |stream|) <= k < FLASH_SIZE :: w.chip.flash[k] == w0.chip.flash[k])
            && Ceiling(page, |stream|) <= BOOT_ADDR
  {
    ImageStart(w0);
    ImageAll(w0.chip, Start(w0), [], stream);
    assert [] + stream == stream;
    ImageEnds(w0.chip, WriteAll(Start(w0), stream), stream);
  }

  lemma ImageEnds(c0: Chip, w: Writer, stream: seq<byte>)
    requires Image(c0, w, stream)
    ensures var w', n, page := EndWrite(w), |stream|, c0.page;
            && w'.payload == n && |w'.chip.flash| == FLASH_SIZE && w'.chip.page == page
            && w'.chip.rwwOpen && w'.chip.buffer == map[] && Ceiling(page, n) <= BOOT_ADDR
            && (forall k | 0 <= k < Ceiling(page, n) && k < FLASH_SIZE :: w'.chip.flash[k] == Programmed(c0.buffer, page, stream, k))
            && (forall k | Ceiling(page, n) <= k < FLASH_SIZE :: w'.chip.flash[k] == c0.flash[k])
  {
    if |stream| % w.chip.page != 0 {
      ProgramPage(c0, w.chip, stream, PageOf(w.chip, |stream|), |stream|);
    }
  }

  /** The stream is in flash, byte for byte, except for a final odd byte; the
      rest of its last page is erased, all other pages are as in `c0`; flash
      can be read. */
  ghost predicate Holds(c0: Chip, w: Writer, stream: seq<byte>) {
    var even := 2 * (|stream| / 2);
    |stream| <= BOOT_ADDR && c0.page > 0 && |w.chip.flash| == |c0.flash| == FLASH_SIZE &&
    w.payload == |stream| && w.chip.rwwOpen && w.chip.buffer == map[] &&
    w.chip.flash[..even] == stream[..even] &&
    (forall k | even <= k < Ceiling(c0.page, |stream|) && k < FLASH_SIZE :: w.chip.flash[k] == 0xff) &&
    (forall k | Ceiling(c0.page, |stream|) <= k < FLASH_SIZE :: w.chip.flash[k] == c0.flash[k])
  }

  lemma PrefixByByte(a: seq<byte>, b: seq<byte>, n: nat)
    requires n <= |a| && n <= |b| && forall k | 0 <= k < n :: a[k] == b[k]
    ensures a[..n] == b[..n]
  {
  }

  /** With an empty page buffer to begin with. */
  lemma CleanImage(w0: Writer, stream: seq<byte>)
    requires ValidChip(w0.chip) && |stream| <= BOOT_ADDR && w0.chip.buffer == map[]
    ensures Holds(w0.chip, EndWrite(WriteAll(Start(w0), stream)), stream)
  {
    FlashContents(w0, stream);
    CeilingCovers(w0.chip.page, |stream|);
    var w, even := EndWrite(WriteAll(Start(w0), stream)), 2 * (|stream| / 2);
    forall k | 0 <= k < Ceiling(w0.chip.page, |stream|) && k < FLASH_SIZE
      ensures w.chip.flash[k] == if k < even then stream[k] else 0xff
    {
      assert w.chip.flash[k] == Programmed(map[], w0.chip.page, stream, k);
    }
    PrefixByByte(w.chip.flash, stream, even);
  }

  lemma CeilingCovers(page: nat, n: nat)
    requires page > 0
    ensures n <= Ceiling(page, n)
  {
  }

  /** The image property for one length, whatever the stream. */
  ghost predicate ImageCorrect(w0: Writer, n: nat)
    requires ValidChip(w0.chip) && n <= BOOT_ADDR
  {
    forall stream: seq<byte> | |stream| == n ::
      var w := EndWrite(WriteAll(Start(w0), stream));
      |w.chip.flash| == FLASH_SIZE && w.chip.flash[..2 * (n / 2)] == stream[..2 * (n / 2)]
  }

  lemma StaleWordShows(w0: Writer, n: nat, i: nat)
    requires ValidChip(w0.chip) && n <= BOOT_ADDR
    requires i in w0.chip.buffer && 2 * i + 1 < n && 2 * i < w0.chip.page
    ensures !ImageCorrect(w0, n)
  {
    var stream := OtherStream(w0, n, i);
    var w := EndWrite(WriteAll(Start(w0), stream));
    PrefixesDiffer(w.chip.flash, stream, 2 * (n / 2), 2 * i);
  }

  /** A stream that differs from a stale word in its own place. */
  lemma OtherStream(w0: Writer, n: nat, i: nat) returns (stream: seq<byte>)
    requires ValidChip(w0.chip) && n <= BOOT_ADDR
    requires i in w0.chip.buffer && 2 * i + 1 < n && 2 * i < w0.chip.page
    ensures |stream| == n
    ensures var w := EndWrite(WriteAll(Start(w0), stream));
            |w.chip.flash| == FLASH_SIZE && w.chip.flash[2 * i] != stream[2 * i]
  {
    var other: byte := if Half(w0.chip.buffer[i], 2 * i) == 0 then 1 else 0;
    stream := seq(n, _ => other);
    FlashContents(w0, stream);
    CeilingCovers(w0.chip.page, n);
    assert 2 * i / 2 == i;
  }

  lemma PrefixesDiffer(a: seq<byte>, b: seq<byte>, n: nat, k: nat)
    requires k < n <= |b| && n <= |a| && a[k] != b[k]
    ensures a[..n] != b[..n]
  {
    assert a[..n][k] != b[..n][k];
  }

  lemma StaleWordsElsewhere(w0: Writer, stream: seq<byte>)
    requires ValidChip(w0.chip) && |stream| <= BOOT_ADDR
    requires forall i | i in w0.chip.buffer :: 2 * i + 1 >= |stream| || 2 * i >= w0.chip.page
    ensures var w, even := EndWrite(WriteAll(Start(w0), stream)), 2 * (|stream| / 2);
            |w.chip.flash| == FLASH_SIZE && w.chip.flash[..even] == stream[..even]
  {
    FlashContents(w0, stream);
    CeilingCovers(w0.chip.page, |stream|);
    var w, even := EndWrite(WriteAll(Start(w0), stream)), 2 * (|stream| / 2);
    forall k | 0 <= k < even
      ensures w.chip.flash[k] == stream[k]
    {
      assert w.chip.flash[k] == Programmed(w0.chip.buffer, w0.chip.page, stream, k);
      NotStale(w0.chip.buffer, w0.chip.page, stream, k);
    }
  }

  lemma NotStale(stale: map<nat, bv16>, page: nat, stream: seq<byte>, k: nat)
    requires forall i | i in stale :: 2 * i + 1 >= |stream| || 2 * i >= page
    requires k < 2 * (|stream| / 2)
    ensures Programmed(stale, page, stream, k) == stream[k]
  {
    if k / 2 in stale {
      assert 2 * (k / 2) + 1 < |stream|;
    }
  }

  /** Left-over words of an aborted download spoil the next one exactly if one
      of them lies in the part of the first page the new stream covers. */
  lemma StaleWordsSpoil(w0: Writer, n: nat)
    requires ValidChip(w0.chip) && n <= BOOT_ADDR
    ensures ImageCorrect(w0, n) <==> forall i | i in w0.chip.buffer :: 2 * i + 1 >= n || 2 * i >= w0.chip.page
  {
    if i :| i in w0.chip.buffer && 2 * i + 1 < n && 2 * i < w0.chip.page {
      StaleWordShows(w0, n, i);
    } else {
      forall stream: seq<byte> | |stream| == n
        ensures var w := EndWrite(WriteAll(Start(w0), stream));
                |w.chip.flash| == FLASH_SIZE && w.chip.flash[..2 * (n / 2)] == stream[..2 * (n / 2)]
      {
        StaleWordsElsewhere(w0, stream);
      }
    }
  }

  // ----- addresses ------------------------------------------------------------------

  function AddressOf(op: Spm): nat {
    match op
    case PageErase(a) => a
    case PageFill(a) => a
    case PageWrite(a) => a
  }

  /** Nothing at or above BOOT_ADDR has been addressed or changed. */
  ghost predicate BootKept(c0: Chip, c: Chip) {
    ValidChip(c0) && c.page == c0.page && |c.flash| == FLASH_SIZE &&
    (forall i | 0 <= i < |c.log| :: AddressOf(c.log[i]) < BOOT_ADDR) &&
    (forall k | BOOT_ADDR <= k < FLASH_SIZE :: c.flash[k] == c0.flash[k])
  }

  lemma BootKeptByte(c0: Chip, w: Writer, b: byte)
    requires BootKept(c0, w.chip) && w.payload < BOOT_ADDR
    ensures BootKept(c0, WriteByte(w, b).chip)
  {
    var c, n := w.chip, w.payload;
    PageFits(c, n);
    PageStep(c, n);
    var next := n + 1;
    if next % c.page == 0 {
      MultipleIsLarge(next, c.page);
      PageBase(c, n);
      assert next - c.page == PageOf(c, n);
      assert PageOf(c, PageOf(c, n)) == PageOf(c, n);
    }
  }

  lemma {:induction false} BootKeptAll(c0: Chip, w: Writer, bytes: seq<byte>)
    requires BootKept(c0, w.chip) && w.payload + |bytes| <= BOOT_ADDR
    ensures BootKept(c0, WriteAll(w, bytes).chip)
    decreases |bytes|
  {
    if bytes != [] {
      BootKeptByte(c0, w, bytes[0]);
      BootKeptAll(c0, WriteByte(w, bytes[0]), bytes[1..]);
    }
  }

  lemma BootKeptEnd(c0: Chip, w: Writer)
    requires BootKept(c0, w.chip) && w.payload <= BOOT_ADDR
    ensures BootKept(c0, EndWrite(w).chip)
  {
    var c := w.chip;
    if w.payload % c.page != 0 {
      assert w.payload < BOOT_ADDR;
      PageFits(c, w.payload);
      PageBase(c, w.payload);
    }
  }

  lemma {:induction false} LogGrows(w: Writer, bytes: seq<byte>)
    requires w.chip.page > 0
    ensures w.chip.log <= WriteAll(w, bytes).chip.log
    decreases |bytes|
  {
    if bytes != [] {
      LogGrows(WriteByte(w, bytes[0]), bytes[1..]);
    }
  }

  /** The byte at BOOT_ADDR would begin by erasing its page. */
  lemma FirstBootByte(w: Writer, b: byte)
    requires ValidChip(w.chip) && w.payload == BOOT_ADDR
    ensures PageErase(BOOT_ADDR) in WriteByte(w, b).chip.log
  {
    var log := Erase(w.chip, w.payload).log;
    assert log[|w.chip.log|] == PageErase(BOOT_ADDR);
    assert log <= WriteByte(w, b).chip.log;
    assert WriteByte(w, b).chip.log[|w.chip.log|] == PageErase(BOOT_ADDR);
  }

  lemma BeyondBoot(c0: Chip, w: Writer, bytes: seq<byte>)
    requires BootKept(c0, w.chip) && w.payload <= BOOT_ADDR < w.payload + |bytes|
    ensures !BootKept(c0, WriteAll(w, bytes).chip)
  {
    var k := BOOT_ADDR - w.payload;
    var v := WriteAll(w, bytes[..k]);
    BootKeptAll(c0, w, bytes[..k]);
    assert bytes == bytes[..k] + [bytes[k]] + bytes[k + 1..];
    WriteAllAppend(w, bytes[..k] + [bytes[k]], bytes[k + 1..]);
    WriteAllSnoc(w, bytes[..k], bytes[k]);
    FirstBootByte(v, bytes[k]);
    LogGrows(WriteByte(v, bytes[k]), bytes[k + 1..]);
    NotKept(c0, WriteByte(v, bytes[k]).chip, WriteAll(w, bytes).chip);
  }

  lemma NotKept(c0: Chip, c: Chip, c': Chip)
    requires PageErase(BOOT_ADDR) in c.log && c.log <= c'.log
    ensures !BootKept(c0, c')
  {
    var i :| 0 <= i < |c.log| && c.log[i] == PageErase(BOOT_ADDR);
    assert c'.log[i] == PageErase(BOOT_ADDR);
    assert AddressOf(c'.log[i]) == BOOT_ADDR;
  }

  /** flash_can_write asks the right question: writing the bytes leaves the boot
      region alone if and only if it says so. */
  lemma CanWriteIsExact(c0: Chip, w: Writer, bytes: seq<byte>)
    requires BootKept(c0, w.chip) && w.payload <= BOOT_ADDR
    ensures CanWrite(w, |bytes|) <==> BootKept(c0, WriteAll(w, bytes).chip)
  {
    if CanWrite(w, |bytes|) {
      BootKeptAll(c0, w, bytes);
    } else {
      BeyondBoot(c0, w, bytes);
    }
  }
}
