/** What a write through one buffer does to the flash: the chunks it programs, the bytes it changes, and the
    bytes that it changes without being asked to.
 */
module FlashWrite {
  import opened PagedFlash

  function Min(x: nat, y: nat): nat {
    if x < y then x else y
  }

  /** A range is refused when it is longer than the flash, or when its end, computed in 32 bits, lies beyond it. */
  predicate Accepted(n: nat, offset: nat, len: nat) {
    len <= Size(n) && (len + offset) % U32 <= Size(n)
  }

  /** The page number is kept in 16 bits, and the address bytes hold 12 of them. */
  function ChipPage(n: nat, offset: nat): (r: nat)
    requires 0 < n
    ensures r < PAGES
  {
    PageAt(offset, n) % U16 % PAGES
  }

  /** The loop: `data` in chunks, the first of `w` bytes and each later one of a page or what is left. */
  function ProgramAll(d: Dev, b: nat, data: seq<Byte>, offset: nat, w: nat): (r: Dev)
    requires Valid(d) && b < 2 && w <= d.n && w <= |data| && (data == [] <==> w == 0)
    ensures Valid(r) && r.n == d.n
    decreases |data|
  {
    if data == [] then d
    else ProgramAll(Program(d, b, ChipPage(d.n, offset), PosAt(offset, d.n), data[..w]), b, data[w..],
                    (offset + w) % U32, Min(d.n, |data| - w))
  }

  /** An accepted write: the page of the first byte is loaded, then the chunks are programmed. */
  function Write(d: Dev, b: nat, data: seq<Byte>, offset: nat): (r: Dev)
    requires Valid(d) && b < 2
    ensures Valid(r) && r.n == d.n
  {
    ProgramAll(Load(d, b, ChipPage(d.n, offset)), b, data, offset, Min(d.n - PosAt(offset, d.n), |data|))
  }

  /** The address that the device decodes. */
  function ChipAddress(n: nat, offset: nat): nat
    requires 0 < n
  {
    Start(ChipPage(n, offset), n) + PosAt(offset, n)
  }

  /** A read runs on from page to page, and from the last page to the first. */
  function Read(d: Dev, offset: nat, len: nat): (r: seq<Byte>)
    requires Valid(d)
    ensures |r| == len
  {
    seq(len, i requires 0 <= i < len => ReadByte(d, offset, i))
  }

  function ReadByte(d: Dev, offset: nat, i: nat): Byte
    requires Valid(d)
  {
    hide Start, PageAt, PosAt;
    SizeFits(d.n);
    Cell(d, (ChipAddress(d.n, offset) + i) % Size(d.n))
  }

  /** The range lies in the flash. */
  predicate InRange(n: nat, offset: nat, len: nat) {
    offset + len <= Size(n)
  }

  // ----- From addresses to places -----

  lemma PlaceInRange(n: nat, offset: nat)
    requires 0 < n < 1024 && offset < Size(n)
    ensures ChipPage(n, offset) == PageAt(offset, n) && ChipAddress(n, offset) == offset && offset < U32
  {
    hide Start, PageAt, PosAt;
    PageBound(offset, n);
    Split(offset, n);
    SizeFits(n);
  }

  /** The byte of page `p` at `at` after `data` has been programmed from position 0 of page `first` on, with `buffer`
      the buffer before and `was` the byte before: the data, then the tail of the last page from what the buffer
      still held, then as before. */
  function AlignedByte(n: nat, data: seq<Byte>, buffer: seq<Byte>, was: Byte, i: int, at: nat): Byte
    requires |buffer| == n && at < n
  {
    if 0 <= i < |data| then data[i]
    else if i - at < 0 || |data| <= i - at then was
    else if 0 <= i - n < |data| then data[i - n]
    else buffer[at]
  }

  lemma Overlaid(buffer: seq<Byte>, data: seq<Byte>, at: nat)
    requires at < |buffer| && |data| <= |buffer|
    ensures Overlay(buffer, 0, data)[at] == if at < |data| then data[at] else buffer[at]
  {
  }

  lemma ProgramByte(d: Dev, b: nat, page: nat, data: seq<Byte>, p: nat, at: nat)
    requires Valid(d) && b < 2 && page < PAGES && |data| <= d.n && p < PAGES && at < d.n
    ensures var d1 := Program(d, b, page, 0, data);
            && d1.buffers[b][at] == (if at < |data| then data[at] else d.buffers[b][at])
            && d1.pages[p][at] == if p == page then d1.buffers[b][at] else d.pages[p][at]
  {
    hide Overlay;
    Overlaid(d.buffers[b], data, at);
  }

  lemma AlignedStep(n: nat, data: seq<Byte>, buffer: seq<Byte>, buffer1: seq<Byte>, was: Byte, was1: Byte,
                    i: int, at: nat)
    requires |buffer| == n && |buffer1| == n && at < n < |data| && buffer1[at] == data[at]
    requires if i == at then was1 == data[at] else was1 == was && (i + n <= at || i == at + n || at + n + n <= i)
    ensures AlignedByte(n, data, buffer, was, i, at) == AlignedByte(n, data[n..], buffer1, was1, i - n, at)
  {
  }

  lemma AlignedEnd(n: nat, data: seq<Byte>, buffer: seq<Byte>, was: Byte, i: int, at: nat)
    requires |buffer| == n && at < n && |data| <= n && (i == at || i + n <= at || at + n <= i)
    ensures AlignedByte(n, data, buffer, was, i, at)
            == if i != at || data == [] then was else if at < |data| then data[at] else buffer[at]
  {
  }

  lemma PagesApart(p: nat, page: nat, n: nat)
    ensures p < page ==> Start(p, n) + n <= Start(page, n)
    ensures page + 1 < p ==> Start(page, n) + n + n <= Start(p, n)
    ensures p == page + 1 ==> Start(p, n) == Start(page, n) + n
  {
    hide Start;
    NextStart(p, n);
    NextStart(page, n);
    if p < page {
      StartOrder(p + 1, page, n);
    } else if page + 1 < p {
      NextStart(page + 1, n);
      StartOrder(page + 2, p, n);
    }
  }

  lemma ChunkPlace(n: nat, page: nat, len: nat, w: nat)
    requires 0 < n < 1024 && 0 < len && w <= len && InRange(n, Start(page, n), len)
    ensures page < PAGES && ChipPage(n, Start(page, n)) == page && PosAt(Start(page, n), n) == 0
    ensures (Start(page, n) + w) % U32 == Start(page, n) + w
  {
    hide Start, PageAt, PosAt, ChipPage, Size;
    PlaceInRange(n, Start(page, n));
    PlaceOf(page, 0, n);
    PageBound(Start(page, n), n);
    SizeFits(n);
  }

  lemma FirstChunk(d: Dev, b: nat, data: seq<Byte>, page: nat)
    requires Valid(d) && b < 2 && data != [] && InRange(d.n, Start(page, d.n), |data|)
    ensures page < PAGES
    ensures var w := Min(d.n, |data|);
            ProgramAll(d, b, data, Start(page, d.n), w)
            == ProgramAll(Program(d, b, page, 0, data[..w]), b, data[w..], Start(page, d.n) + w, Min(d.n, |data| - w))
  {
    hide Program, Start, PageAt, PosAt, ChipPage, Size, InRange;
    ChunkPlace(d.n, page, |data|, Min(d.n, |data|));
  }

  /** From a page start on. */
  lemma {:induction false} AlignedWrite(d: Dev, b: nat, data: seq<Byte>, page: nat, p: nat, at: nat)
    requires Valid(d) && b < 2 && InRange(d.n, Start(page, d.n), |data|) && p < PAGES && at < d.n
    ensures ProgramAll(d, b, data, Start(page, d.n), Min(d.n, |data|)).pages[p][at]
            == AlignedByte(d.n, data, d.buffers[b], d.pages[p][at], Start(p, d.n) - Start(page, d.n) + at, at)
    decreases |data|
  {
    hide Start, PageAt, PosAt, ChipPage, Program, ProgramAll, AlignedByte, Size;
    var n := d.n;
    var i := Start(p, n) - Start(page, n) + at;
    PagesApart(p, page, n);
    if |data| <= n {
      LastWrite(d, b, data, page, p, at);
      AlignedEnd(n, data, d.buffers[b], d.pages[p][at], i, at);
    } else {
      FirstChunk(d, b, data, page);
      ProgramByte(d, b, page, data[..n], p, at);
      NextStart(page, n);
      var d1 := Program(d, b, page, 0, data[..n]);
      AlignedWrite(d1, b, data[n..], page + 1, p, at);
      AlignedStep(n, data, d.buffers[b], d1.buffers[b], d.pages[p][at], d1.pages[p][at], i, at);
    }
  }

  lemma LastWrite(d: Dev, b: nat, data: seq<Byte>, page: nat, p: nat, at: nat)
    requires Valid(d) && b < 2 && InRange(d.n, Start(page, d.n), |data|) && p < PAGES && at < d.n && |data| <= d.n
    ensures ProgramAll(d, b, data, Start(page, d.n), |data|).pages[p][at]
            == if p != page || data == [] then d.pages[p][at] else if at < |data| then data[at] else d.buffers[b][at]
  {
    hide Start, PageAt, PosAt, ChipPage, Program, Size, ProgramAll;
    if data == [] {
      Done(d, b, Start(page, d.n));
    } else {
      LastChunk(d, b, data, page);
      ProgramByte(d, b, page, data, p, at);
    }
  }

  lemma LastChunk(d: Dev, b: nat, data: seq<Byte>, page: nat)
    requires Valid(d) && b < 2 && 0 < |data| <= d.n && InRange(d.n, Start(page, d.n), |data|)
    ensures page < PAGES && ProgramAll(d, b, data, Start(page, d.n), |data|) == Program(d, b, page, 0, data)
  {
    hide Start, PageAt, PosAt, ChipPage, Program, Size, InRange;
    ChunkPlace(d.n, page, |data|, |data|);
    assert data[..|data|] == data;
  }

  lemma Done(d: Dev, b: nat, offset: nat)
    requires Valid(d) && b < 2
    ensures ProgramAll(d, b, [], offset, 0) == d
  {
  }

  // ----- The whole write -----

  /** Byte `a` lies past the end of the written range, on a page that the range entered from the page before. */
  predicate InTail(n: nat, offset: nat, len: nat, a: nat)
    requires 0 < n
  {
    offset < Start(PageAt(a, n), n) < offset + len <= a
  }

  lemma TailHasPageBefore(n: nat, offset: nat, len: nat, a: nat)
    requires 0 < n && InTail(n, offset, len, a)
    ensures 0 < PageAt(a, n) && n <= a && a - n < offset + len
    ensures PageAt(a - n, n) == PageAt(a, n) - 1 && PosAt(a - n, n) == PosAt(a, n)
  {
    hide Start, PageAt, PosAt;
    Split(a, n);
    StartOfNone(n);
    NextStart(PageAt(a, n) - 1, n);
    PlaceOf(PageAt(a, n) - 1, PosAt(a, n), n);
  }

  lemma StartOfNone(n: nat)
    ensures Start(0, n) == 0
  {
  }

  /** Byte `a` after a write.  In the tail of the last page stands what the page before now holds at the same place. */
  function ByteAfter(d: Dev, data: seq<Byte>, offset: nat, a: nat): Byte
    requires Valid(d) && a < Size(d.n)
  {
    hide Start, PageAt, PosAt;
    if offset <= a < offset + |data| then data[a - offset]
    else if !InTail(d.n, offset, |data|, a) then Cell(d, a)
    else
      TailHasPageBefore(d.n, offset, |data|, a);
      if offset <= a - d.n then data[a - d.n - offset] else Cell(d, a - d.n)
  }

  lemma FirstProgram(d: Dev, b: nat, page: nat, s: nat, data: seq<Byte>, p: nat, at: nat)
    requires Valid(d) && b < 2 && page < PAGES && s + |data| <= d.n && s < d.n && p < PAGES && at < d.n
    ensures var d1 := Program(Load(d, b, page), b, page, s, data);
            && d1.buffers[b] == d1.pages[page]
            && d1.pages[p][at] == if p == page && s <= at < s + |data| then data[at - s] else d.pages[p][at]
  {
  }

  lemma FirstPlace(n: nat, offset: nat, len: nat, w: nat)
    requires 0 < n < 1024 && 0 < len && w <= len && InRange(n, offset, len)
    ensures PageAt(offset, n) < PAGES && ChipPage(n, offset) == PageAt(offset, n) && (offset + w) % U32 == offset + w
  {
    hide Start, PageAt, PosAt, ChipPage, Size;
    PageBound(offset, n);
    PlaceInRange(n, offset);
    SizeFits(n);
  }

  lemma WriteUnfolds(d: Dev, b: nat, data: seq<Byte>, offset: nat)
    requires Valid(d) && b < 2 && data != [] && InRange(d.n, offset, |data|)
    ensures PageAt(offset, d.n) < PAGES
    ensures var f, s := PageAt(offset, d.n), PosAt(offset, d.n);
            var w := Min(d.n - s, |data|);
            Write(d, b, data, offset)
            == ProgramAll(Program(Load(d, b, f), b, f, s, data[..w]), b, data[w..], offset + w, Min(d.n, |data| - w))
  {
    hide Start, PageAt, PosAt, Program, Load, ChipPage, Size, InRange;
    FirstPlace(d.n, offset, |data|, Min(d.n - PosAt(offset, d.n), |data|));
  }

  /** `ByteAfter` in terms of the start of the page, the bytes before, and the position on the page. */
  function Mixed(n: nat, data: seq<Byte>, offset: nat, start: nat, at: nat, was: Byte, before: Byte): Byte
    requires at < n
  {
    var a := start + at;
    if offset <= a < offset + |data| then data[a - offset]
    else if offset < start < offset + |data| <= a then if offset <= a - n then data[a - n - offset] else before
    else was
  }

  lemma OneChunk(n: nat, data: seq<Byte>, first: nat, s: nat, start: nat, at: nat, was: Byte, before: Byte)
    requires s < n && at < n && |data| <= n - s && (start == first || start + n <= first || first + n <= start)
    ensures Mixed(n, data, first + s, start, at, was, before)
            == if start == first && s <= at < s + |data| then data[at - s] else was
  {
  }

  lemma ManyChunks(n: nat, data: seq<Byte>, first: nat, s: nat, start: nat, at: nat, was: Byte, before: Byte,
                   buffer: seq<Byte>, was1: Byte)
    requires s < n && at < n && n - s < |data| && |buffer| == n
    requires start == first || start + n <= first || start == first + n || first + n + n <= start
    requires was1 == if start == first && s <= at then data[at - s] else was
    requires start == first + n ==> buffer[at] == if s <= at then data[at - s] else before
    ensures AlignedByte(n, data[n - s..], buffer, was1, start - (first + n) + at, at)
            == Mixed(n, data, first + s, start, at, was, before)
  {
  }

  /** The byte that stood one page before byte `at` of page `p`. */
  function Before(d: Dev, p: nat, at: nat): Byte
    requires Valid(d) && p < PAGES && at < d.n
  {
    if p == 0 then 0 else d.pages[p - 1][at]
  }

  lemma ShortPlace(d: Dev, b: nat, data: seq<Byte>, offset: nat, p: nat, at: nat)
    requires Valid(d) && b < 2 && data != [] && InRange(d.n, offset, |data|) && p < PAGES && at < d.n
    requires |data| <= d.n - PosAt(offset, d.n)
    ensures Write(d, b, data, offset).pages[p][at]
            == Mixed(d.n, data, offset, Start(p, d.n), at, d.pages[p][at], Before(d, p, at))
  {
    hide Start, PageAt, PosAt, Program, Load, ChipPage, Size, Write, Mixed, InRange, ProgramAll;
    var n, f, s := d.n, PageAt(offset, d.n), PosAt(offset, d.n);
    Split(offset, n);
    PagesApart(p, f, n);
    WriteUnfolds(d, b, data, offset);
    FirstProgram(d, b, f, s, data, p, at);
    Done(Program(Load(d, b, f), b, f, s, data), b, offset + |data|);
    assert data[..|data|] == data && data[|data|..] == [];
    OneChunk(n, data, Start(f, n), s, Start(p, n), at, d.pages[p][at], Before(d, p, at));
  }

  lemma LongPlace(d: Dev, b: nat, data: seq<Byte>, offset: nat, p: nat, at: nat)
    requires Valid(d) && b < 2 && InRange(d.n, offset, |data|) && p < PAGES && at < d.n
    requires d.n - PosAt(offset, d.n) < |data|
    ensures Write(d, b, data, offset).pages[p][at]
            == Mixed(d.n, data, offset, Start(p, d.n), at, d.pages[p][at], Before(d, p, at))
  {
    hide Start, PageAt, PosAt, Program, Load, ChipPage, Size, Write, AlignedByte, Mixed, ProgramAll;
    var n, f, s := d.n, PageAt(offset, d.n), PosAt(offset, d.n);
    var w := n - s;
    Split(offset, n);
    NextStart(f, n);
    PagesApart(p, f, n);
    WriteUnfolds(d, b, data, offset);
    FirstProgram(d, b, f, s, data[..w], p, at);
    FirstProgram(d, b, f, s, data[..w], f, at);
    var d1 := Program(Load(d, b, f), b, f, s, data[..w]);
    AlignedWrite(d1, b, data[w..], f + 1, p, at);
    ManyChunks(n, data, Start(f, n), s, Start(p, n), at,
               d.pages[p][at], Before(d, p, at), d1.buffers[b], d1.pages[p][at]);
  }

  lemma WritePlace(d: Dev, b: nat, data: seq<Byte>, offset: nat, p: nat, at: nat)
    requires Valid(d) && b < 2 && data != [] && InRange(d.n, offset, |data|) && p < PAGES && at < d.n
    ensures Write(d, b, data, offset).pages[p][at]
            == Mixed(d.n, data, offset, Start(p, d.n), at, d.pages[p][at], Before(d, p, at))
  {
    hide Start, PageAt, PosAt, Write, Mixed, InRange;
    if |data| <= d.n - PosAt(offset, d.n) {
      ShortPlace(d, b, data, offset, p, at);
    } else {
      LongPlace(d, b, data, offset, p, at);
    }
  }

  lemma ByteAfterIsMixed(d: Dev, data: seq<Byte>, offset: nat, a: nat)
    requires Valid(d) && a < Size(d.n)
    ensures PageAt(a, d.n) < PAGES
    ensures var p, at := PageAt(a, d.n), PosAt(a, d.n);
            ByteAfter(d, data, offset, a)
            == Mixed(d.n, data, offset, Start(p, d.n), at, d.pages[p][at], Before(d, p, at))
  {
    hide Start, PageAt, PosAt, Size;
    PageBound(a, d.n);
    Split(a, d.n);
    if InTail(d.n, offset, |data|, a) {
      TailHasPageBefore(d.n, offset, |data|, a);
    }
  }

  /** Every byte of the flash after a write of any range in the flash, over any number of pages. */
  lemma WriteByte(d: Dev, b: nat, data: seq<Byte>, offset: nat, a: nat)
    requires Valid(d) && b < 2 && InRange(d.n, offset, |data|) && a < Size(d.n)
    ensures Cell(Write(d, b, data, offset), a) == ByteAfter(d, data, offset, a)
  {
    hide Start, PageAt, PosAt, Size, Mixed, ByteAfter;
    PageBound(a, d.n);
    if data == [] {
      NothingWritten(d, b, data, offset, a);
    } else {
      WritePlace(d, b, data, offset, PageAt(a, d.n), PosAt(a, d.n));
      ByteAfterIsMixed(d, data, offset, a);
    }
  }

  lemma NothingWritten(d: Dev, b: nat, data: seq<Byte>, offset: nat, a: nat)
    requires Valid(d) && b < 2 && data == [] && a < Size(d.n)
    ensures Cell(Write(d, b, data, offset), a) == Cell(d, a) == ByteAfter(d, data, offset, a)
  {
    hide Start, PageAt, PosAt, Size, ChipPage;
    PageBound(a, d.n);
  }
}
