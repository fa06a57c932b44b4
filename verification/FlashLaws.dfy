/** The flash against a flat array of bytes: what is written is read back, what lies outside stays, and when it
    does not. */
module FlashLaws {
  import opened PagedFlash
  import opened FlashWrite

  lemma SmallModulo(x: nat, y: nat)
    requires x < y
    ensures x % y == x
  {
  }

  lemma ReadInRange(d: Dev, offset: nat, i: nat)
    requires Valid(d) && offset + i < Size(d.n)
    ensures ReadByte(d, offset, i) == Cell(d, offset + i)
  {
    hide Start, PageAt, PosAt, Size, Cell, ChipAddress;
    PlaceInRange(d.n, offset);
    SmallModulo(offset + i, Size(d.n));
  }

  /** Reading back any range that was written gives the data. */
  lemma WriteThenRead(d: Dev, b: nat, data: seq<Byte>, offset: nat)
    requires Valid(d) && b < 2 && InRange(d.n, offset, |data|)
    ensures Read(Write(d, b, data, offset), offset, |data|) == data
  {
    hide Start, PageAt, PosAt, Size, Write, Cell, ReadByte;
    var d' := Write(d, b, data, offset);
    forall i | 0 <= i < |data|
      ensures Read(d', offset, |data|)[i] == data[i]
    {
      ReadInRange(d', offset, i);
      WriteByte(d, b, data, offset, offset + i);
    }
  }

  /** Every byte outside the written range is as before. */
  ghost predicate OutsideKept(d: Dev, d': Dev, offset: nat, len: nat)
    requires Valid(d) && Valid(d') && d.n == d'.n
  {
    forall a: nat | a < Size(d.n) && !(offset <= a < offset + len) :: Cell(d', a) == Cell(d, a)
  }

  /** The tail already held what the page before will hold. */
  ghost predicate TailMatches(d: Dev, data: seq<Byte>, offset: nat)
    requires Valid(d)
  {
    forall a: nat | a < Size(d.n) && InTail(d.n, offset, |data|, a) :: Cell(d, a) == ByteAfter(d, data, offset, a)
  }

  /** A write keeps everything outside its range if and only if the tail of its last page already matched. */
  lemma KeptIffTailMatches(d: Dev, b: nat, data: seq<Byte>, offset: nat)
    requires Valid(d) && b < 2 && InRange(d.n, offset, |data|)
    ensures OutsideKept(d, Write(d, b, data, offset), offset, |data|) <==> TailMatches(d, data, offset)
  {
    hide Start, PageAt, PosAt, Size, Write, Cell;
    forall a: nat | a < Size(d.n)
      ensures Cell(Write(d, b, data, offset), a) == ByteAfter(d, data, offset, a)
    {
      WriteByte(d, b, data, offset, a);
    }
  }

  /** The write stays in one page, or ends where a page ends. */
  predicate WholeTail(n: nat, offset: nat, len: nat)
    requires 0 < n
  {
    PosAt(offset, n) + len <= n || PosAt(offset + len, n) == 0
  }

  lemma WholeHasNoTail(n: nat, offset: nat, len: nat, a: nat)
    requires 0 < n && WholeTail(n, offset, len)
    ensures !InTail(n, offset, len, a)
  {
    hide Start, PageAt, PosAt;
    Split(offset, n);
    Split(a, n);
    Split(offset + len, n);
    PagesApart(PageAt(a, n), PageAt(offset, n), n);
    PagesApart(PageAt(a, n), PageAt(offset + len, n), n);
  }

  /** So such a write is a write to a flat array. */
  lemma WriteIsFlat(d: Dev, b: nat, data: seq<Byte>, offset: nat)
    requires Valid(d) && b < 2 && InRange(d.n, offset, |data|) && WholeTail(d.n, offset, |data|)
    ensures Flat(Write(d, b, data, offset)) == Flat(d)[..offset] + data + Flat(d)[offset + |data|..]
  {
    hide Start, PageAt, PosAt, Size, Write, Cell, WholeTail;
    var d' := Write(d, b, data, offset);
    forall a: nat | a < Size(d.n)
      ensures Flat(d')[a] == if offset <= a < offset + |data| then data[a - offset] else Flat(d)[a]
    {
      WriteByte(d, b, data, offset, a);
      WholeHasNoTail(d.n, offset, |data|, a);
    }
  }

  /** Which of the two buffers is used makes no difference to the flash. */
  lemma EitherBuffer(d: Dev, data: seq<Byte>, offset: nat)
    requires Valid(d) && InRange(d.n, offset, |data|)
    ensures Flat(Write(d, 0, data, offset)) == Flat(Write(d, 1, data, offset))
  {
    hide Start, PageAt, PosAt, Size, Write, Cell, ByteAfter;
    forall a: nat | a < Size(d.n)
      ensures Flat(Write(d, 0, data, offset))[a] == Flat(Write(d, 1, data, offset))[a]
    {
      WriteByte(d, 0, data, offset, a);
      WriteByte(d, 1, data, offset, a);
    }
  }

  /** A write of one page and one byte more does change what it was not asked to. */
  lemma TailIsOverwritten(d: Dev, b: nat, x: Byte, y: Byte)
    requires Valid(d) && b < 2 && 2 <= d.n && d.pages[1][1] != x
    ensures var data := seq(d.n, _ => x) + [y];
            Write(d, b, data, 0).pages[1][1] == x
  {
    hide Start, PageAt, PosAt, Size, Write, Cell, ByteAfter;
    var data := seq(d.n, _ => x) + [y];
    StartOfNone(d.n);
    NextStart(0, d.n);
    NextStart(1, d.n);
    StartOrder(2, PAGES, d.n);
    assert InRange(d.n, 0, |data|) by {
      hide Size, Valid;
      TwoPagesFit(d.n, |data|);
    }
    WritePlace(d, b, data, 0, 1, 1);
  }

  lemma TwoPagesFit(n: nat, len: nat)
    requires len <= 2 * n
    ensures InRange(n, 0, len)
  {
  }

  // ----- The chunks -----

  /** Consecutive pieces from byte `from` to byte `to`, none empty and each within one page. */
  predicate Chained(n: nat, pieces: seq<Piece>, from: nat, to: nat)
    decreases |pieces|
  {
    if pieces == [] then from == to
    else
      var c := pieces[0];
      && c.page < PAGES && 0 < c.size && c.at + c.size <= n && Start(c.page, n) + c.at == from
      && Chained(n, pieces[1..], from + c.size, to)
  }

  function AlignedPieces(n: nat, page: nat, len: nat): seq<Piece>
    requires 0 < n
    decreases len
  {
    if len == 0 then []
    else [Piece(page, 0, Min(n, len))] + AlignedPieces(n, page + 1, len - Min(n, len))
  }

  lemma {:induction false} AlignedPiecesChained(n: nat, page: nat, len: nat)
    requires 0 < n < 1024 && InRange(n, Start(page, n), len)
    ensures Chained(n, AlignedPieces(n, page, len), Start(page, n), Start(page, n) + len)
    decreases len
  {
    hide Start, PageAt, PosAt, ChipPage, Size;
    if len != 0 {
      ChunkPlace(n, page, len, Min(n, len));
      NextStart(page, n);
      if len > n {
        AlignedPiecesChained(n, page + 1, len - n);
      }
    }
  }

  lemma ProgramLogs(d: Dev, b: nat, page: nat, at: nat, data: seq<Byte>)
    requires Valid(d) && b < 2 && page < PAGES && at < d.n && |data| <= d.n
    ensures Program(d, b, page, at, data).pieces == d.pieces + [Piece(page, at, |data|)]
  {
    hide Overlay;
  }

  lemma {:induction false} AlignedLogs(d: Dev, b: nat, data: seq<Byte>, page: nat)
    requires Valid(d) && b < 2 && InRange(d.n, Start(page, d.n), |data|)
    ensures ProgramAll(d, b, data, Start(page, d.n), Min(d.n, |data|)).pieces
            == d.pieces + AlignedPieces(d.n, page, |data|)
    decreases |data|
  {
    hide Start, PageAt, PosAt, ChipPage, Size, Program;
    if data != [] {
      var n, w := d.n, Min(d.n, |data|);
      FirstChunk(d, b, data, page);
      var d1 := Program(d, b, page, 0, data[..w]);
      ProgramLogs(d, b, page, 0, data[..w]);
      if |data| > n {
        NextStart(page, n);
        AlignedLogs(d1, b, data[w..], page + 1);
      }
    }
  }

  lemma LoadLogsNothing(d: Dev, b: nat, page: nat)
    requires Valid(d) && b < 2 && page < PAGES
    ensures Load(d, b, page).pieces == d.pieces
  {
  }

  /** The pieces that a write programs. */
  function Pieces(n: nat, offset: nat, len: nat): seq<Piece>
    requires 0 < n
  {
    var w := Min(n - PosAt(offset, n), len);
    if len == 0 then []
    else [Piece(PageAt(offset, n), PosAt(offset, n), w)] + AlignedPieces(n, PageAt(offset, n) + 1, len - w)
  }

  lemma EmptyLogs(d: Dev, b: nat, offset: nat)
    requires Valid(d) && b < 2
    ensures Write(d, b, [], offset).pieces == d.pieces
  {
    hide Start, PageAt, PosAt, ChipPage, Size, Load;
    LoadLogsNothing(d, b, ChipPage(d.n, offset));
  }

  lemma ShortLogs(d: Dev, b: nat, data: seq<Byte>, offset: nat)
    requires Valid(d) && b < 2 && data != [] && InRange(d.n, offset, |data|) && |data| <= d.n - PosAt(offset, d.n)
    ensures Write(d, b, data, offset).pieces == d.pieces + Pieces(d.n, offset, |data|)
  {
    hide Start, PageAt, PosAt, ChipPage, Size, Program, Load, Write, AlignedPieces, InRange;
    var n, f, s := d.n, PageAt(offset, d.n), PosAt(offset, d.n);
    WriteUnfolds(d, b, data, offset);
    LoadLogsNothing(d, b, f);
    ProgramLogs(Load(d, b, f), b, f, s, data);
    NoMorePieces(n, f + 1);
    assert data[..|data|] == data && data[|data|..] == [];
  }

  lemma LongLogs(d: Dev, b: nat, data: seq<Byte>, offset: nat)
    requires Valid(d) && b < 2 && InRange(d.n, offset, |data|) && d.n - PosAt(offset, d.n) < |data|
    ensures Write(d, b, data, offset).pieces == d.pieces + Pieces(d.n, offset, |data|)
  {
    hide Start, PageAt, PosAt, ChipPage, Size, Program, Load, Write, AlignedPieces, ProgramAll;
    var n, f, s := d.n, PageAt(offset, d.n), PosAt(offset, d.n);
    var w := n - s;
    Split(offset, n);
    NextStart(f, n);
    WriteUnfolds(d, b, data, offset);
    LoadLogsNothing(d, b, f);
    ProgramLogs(Load(d, b, f), b, f, s, data[..w]);
    AlignedLogs(Program(Load(d, b, f), b, f, s, data[..w]), b, data[w..], f + 1);
  }

  lemma WriteLogs(d: Dev, b: nat, data: seq<Byte>, offset: nat)
    requires Valid(d) && b < 2 && InRange(d.n, offset, |data|)
    ensures Write(d, b, data, offset).pieces == d.pieces + Pieces(d.n, offset, |data|)
  {
    hide Start, PageAt, PosAt, Size, Write, AlignedPieces, InRange;
    if data == [] {
      EmptyLogs(d, b, offset);
    } else if |data| <= d.n - PosAt(offset, d.n) {
      ShortLogs(d, b, data, offset);
    } else {
      LongLogs(d, b, data, offset);
    }
  }

  lemma NoMorePieces(n: nat, page: nat)
    requires 0 < n
    ensures AlignedPieces(n, page, 0) == []
  {
  }

  /** They follow one another and make up exactly the written range, each within one page. */
  lemma PiecesPartition(n: nat, offset: nat, len: nat)
    requires 0 < n < 1024 && InRange(n, offset, len)
    ensures Chained(n, Pieces(n, offset, len), offset, offset + len)
  {
    hide Start, PageAt, PosAt, ChipPage, Size;
    if len != 0 {
      FirstPlace(n, offset, len, len);
      Split(offset, n);
      NextStart(PageAt(offset, n), n);
      if len > n - PosAt(offset, n) {
        AlignedPiecesChained(n, PageAt(offset, n) + 1, len - (n - PosAt(offset, n)));
      }
    }
  }

  // ----- Which ranges are accepted -----

  /** The 32-bit sum lets through, besides the ranges in the flash, those that run over the end of the 32-bit
      offsets. */
  lemma AcceptedIff(n: nat, offset: nat, len: nat)
    requires n < 1024 && offset < U32 && len < U32
    ensures Accepted(n, offset, len) <==>
            InRange(n, offset, len) || (len <= Size(n) && U32 <= offset + len <= U32 + Size(n))
  {
    hide Start;
    SizeFits(n);
  }

  lemma PastTheEndAccepted()
    ensures Accepted(264, 0xFFFF_FFFC, 8) && !InRange(264, 0xFFFF_FFFC, 8)
  {
    assert Size(264) == 1081344;
  }
}
