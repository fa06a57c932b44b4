/** The flash device: 4096 pages, and two page-sized buffers through which every program command goes.

    A page and a position travel in three address bytes.  Loading copies a page into a buffer; programming
    overwrites part of a buffer and then stores the whole buffer in the page.  The device reads ten bits of position, as
    the chip with pages of 528 bytes does.
 */
module PagedFlash {

  type Byte = x: int | 0 <= x < 256

  const PAGES: nat := 4096
  const U16: nat := 0x1_0000
  const U32: nat := 0x1_0000_0000

  /** The commands, in their form for buffer 1 and buffer 2. */
  const LOAD_1: Byte := 0x53
  const LOAD_2: Byte := 0x55
  const PROGRAM_1: Byte := 0x82
  const PROGRAM_2: Byte := 0x85

  /** A stretch that was programmed: `size` bytes from position `at` of a page. */
  datatype Piece = Piece(page: nat, at: nat, size: nat)

  datatype Dev = Dev(n: nat, pages: seq<seq<Byte>>, buffers: seq<seq<Byte>>, pieces: seq<Piece>)

  ghost predicate Valid(d: Dev) {
    && 0 < d.n < 1024
    && |d.pages| == PAGES && (forall p | 0 <= p < PAGES :: |d.pages[p]| == d.n)
    && |d.buffers| == 2 && |d.buffers[0]| == d.n && |d.buffers[1]| == d.n
  }

  // ----- Address bytes -----

  datatype Address = Address(high: Byte, mid: Byte, low: Byte)

  /** The high byte holds six bits of the page, the middle one the other six and two of the position. */
  function Encode(page: nat, at: nat): Address {
    Address(page / 64 % 64, page % 64 * 4 + at / 256 % 4, at % 256)
  }

  function PageOf(a: Address): (p: nat)
    ensures p < 0x4000
  {
    a.high * 64 + a.mid / 4
  }

  function AtOf(a: Address): (r: nat)
    ensures r < 1024
  {
    a.mid % 4 * 256 + a.low
  }

  lemma PageDigits(page: nat)
    ensures page / 64 % 64 * 64 + page % 64 == page % PAGES
  {
    assert page == page / 4096 * 4096 + page / 64 % 64 * 64 + page % 64;
  }

  lemma MiddleByte(six: nat, two: nat)
    requires two < 4
    ensures (six * 4 + two) / 4 == six && (six * 4 + two) % 4 == two
  {
  }

  /** The device reads back the page modulo 4096 and any position below 1024. */
  lemma AddressRoundTrip(page: nat, at: nat)
    requires at < 1024
    ensures PageOf(Encode(page, at)) == page % PAGES && AtOf(Encode(page, at)) == at
  {
    PageDigits(page);
    MiddleByte(page % 64, at / 256);
  }

  /** So no two places on the device share their address bytes. */
  lemma AddressesDiffer(page: nat, at: nat, page': nat, at': nat)
    requires page < PAGES && page' < PAGES && at < 1024 && at' < 1024 && Encode(page, at) == Encode(page', at')
    ensures page == page' && at == at'
  {
    hide Encode, PageOf, AtOf;
    AddressRoundTrip(page, at);
    AddressRoundTrip(page', at');
  }

  // ----- Commands -----

  /** `data` laid over `buffer` from position `at`, continuing at the start when it reaches the end. */
  function Overlay(buffer: seq<Byte>, at: nat, data: seq<Byte>): (r: seq<Byte>)
    requires at < |buffer| && |data| <= |buffer|
    ensures |r| == |buffer|
  {
    seq(|buffer|, j requires 0 <= j < |buffer| =>
      var k := if at <= j then j - at else j + |buffer| - at;
      if k < |data| then data[k] else buffer[j])
  }

  function Load(d: Dev, b: nat, page: nat): (r: Dev)
    requires Valid(d) && b < 2 && page < PAGES
    ensures Valid(r) && r.n == d.n
  {
    d.(buffers := d.buffers[b := d.pages[page]])
  }

  function Program(d: Dev, b: nat, page: nat, at: nat, data: seq<Byte>): (r: Dev)
    requires Valid(d) && b < 2 && page < PAGES && at < d.n && |data| <= d.n
    ensures Valid(r) && r.n == d.n
  {
    var whole := Overlay(d.buffers[b], at, data);
    d.(buffers := d.buffers[b := whole], pages := d.pages[page := whole],
       pieces := d.pieces + [Piece(page, at, |data|)])
  }

  // ----- Places and addresses -----

  /** The address of the first byte of a page, and the page and the position of an address. */
  function Start(page: nat, n: nat): nat {
    page * n
  }

  function PageAt(a: nat, n: nat): nat
    requires 0 < n
  {
    a / n
  }

  function PosAt(a: nat, n: nat): (r: nat)
    requires 0 < n
    ensures r < n
  {
    a % n
  }

  function Size(n: nat): nat {
    Start(PAGES, n)
  }

  lemma Split(a: nat, n: nat)
    requires 0 < n
    ensures a == Start(PageAt(a, n), n) + PosAt(a, n)
  {
  }

  lemma NextStart(page: nat, n: nat)
    ensures Start(page + 1, n) == Start(page, n) + n
  {
  }

  lemma StartOrder(page: nat, page': nat, n: nat)
    requires page <= page'
    ensures Start(page, n) <= Start(page', n)
  {
  }

  lemma PlaceOf(page: nat, at: nat, n: nat)
    requires at < n
    ensures PageAt(Start(page, n) + at, n) == page && PosAt(Start(page, n) + at, n) == at
  {
    hide Start, PageAt, PosAt;
    var a := Start(page, n) + at;
    Split(a, n);
    NextStart(page, n);
    NextStart(PageAt(a, n), n);
    if PageAt(a, n) < page {
      StartOrder(PageAt(a, n) + 1, page, n);
    } else if page < PageAt(a, n) {
      StartOrder(page + 1, PageAt(a, n), n);
    }
  }

  lemma PageBound(a: nat, n: nat)
    requires 0 < n && a < Size(n)
    ensures PageAt(a, n) < PAGES
  {
    hide Start, PageAt, PosAt;
    Split(a, n);
    if PAGES <= PageAt(a, n) {
      StartOrder(PAGES, PageAt(a, n), n);
    }
  }

  lemma SizeFits(n: nat)
    requires n < 1024
    ensures Size(n) < U32 && (0 < n ==> 0 < Size(n))
  {
  }

  // ----- The flat view -----

  /** The byte at address `a`, counting the pages one after another. */
  function Cell(d: Dev, a: nat): Byte
    requires Valid(d) && a < Size(d.n)
  {
    PageBound(a, d.n);
    d.pages[PageAt(a, d.n)][PosAt(a, d.n)]
  }

  function Flat(d: Dev): (r: seq<Byte>)
    requires Valid(d)
    ensures |r| == Size(d.n) && forall a | 0 <= a < |r| :: r[a] == Cell(d, a)
  {
    seq(Size(d.n), a requires 0 <= a < Size(d.n) => Cell(d, a))
  }
}
