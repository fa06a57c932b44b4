/** The chips in the table of the driver.  They differ in the number of position bits, which the driver does not heed:
    it always sends ten.
 */
module FlashChips {
  import opened PagedFlash
  import opened FlashDriver

  /** A chip with pages of `n` bytes that reads `width` bits as the position. */
  datatype Chip = Chip(n: nat, width: nat)

  const CHIPS: seq<Chip> := [Chip(264, 9), Chip(256, 8), Chip(528, 10), Chip(512, 9)]

  /** The places a chip tells apart within a page. */
  function Places(chip: Chip): nat {
    if chip.width == 8 then 256 else if chip.width == 9 then 512 else 1024
  }

  function Number(a: Address): nat {
    (a.high * 256 + a.mid) * 256 + a.low
  }

  /** The page and the position that a chip reads from the three bytes. */
  function ChipReadsPage(chip: Chip, a: Address): nat {
    Number(a) / Places(chip) % PAGES
  }

  function ChipReadsAt(chip: Chip, a: Address): nat {
    Number(a) % Places(chip)
  }

  lemma NumberParts(a: Address)
    ensures Number(a) == PageOf(a) * 1024 + AtOf(a)
  {
    assert a.mid == a.mid / 4 * 4 + a.mid % 4;
  }

  lemma Divided1024(page: nat, at: nat)
    requires at < 1024
    ensures (page * 1024 + at) / 1024 == page && (page * 1024 + at) % 1024 == at
  {
  }

  /** With ten bits they are what the device of module PagedFlash reads. */
  lemma TenBits(chip: Chip, a: Address)
    requires chip.width == 10
    ensures ChipReadsPage(chip, a) == PageOf(a) % PAGES && ChipReadsAt(chip, a) == AtOf(a)
  {
    hide Number, PageOf, AtOf;
    NumberParts(a);
    Divided1024(PageOf(a), AtOf(a));
  }

  lemma EncodedNumber(page: nat, at: nat)
    requires page < PAGES && at < 1024
    ensures Number(Encode(page, at)) == page * 1024 + at
  {
    hide Number, PageOf, AtOf, Encode;
    NumberParts(Encode(page, at));
    AddressRoundTrip(page, at);
  }

  lemma TableChips(chip: Chip)
    requires chip in CHIPS
    ensures 0 < chip.n <= Places(chip) && chip.n < 1024
    ensures Places(chip) == 1024 || Places(chip) == 512 || Places(chip) == 256
    ensures chip.width == 10 <==> chip.n == 528
    ensures chip.width == 10 <==> Places(chip) == 1024
  {
  }

  lemma Divided(page: nat, at: nat, places: nat)
    requires at < places && (places == 1024 || places == 512 || places == 256)
    ensures (page * 1024 + at) / places == page * (1024 / places) && (page * 1024 + at) % places == at
  {
  }

  /** The page that a chip reaches for an offset, and the position, which is always the one meant. */
  lemma ChipReaches(chip: Chip, offset: nat)
    requires chip in CHIPS && offset < Size(chip.n)
    ensures var a := AddressOf(chip.n, offset);
            && ChipReadsPage(chip, a) == PageAt(offset, chip.n) * (1024 / Places(chip)) % PAGES
            && ChipReadsAt(chip, a) == PosAt(offset, chip.n)
  {
    hide PageAt, PosAt, Size, Encode, Number, Places, CHIPS;
    TableChips(chip);
    PageBound(offset, chip.n);
    EncodedNumber(PageAt(offset, chip.n), PosAt(offset, chip.n));
    Divided(PageAt(offset, chip.n), PosAt(offset, chip.n), Places(chip));
    SmallPage(PageAt(offset, chip.n));
  }

  lemma SmallPage(page: nat)
    requires page < PAGES
    ensures page % U16 == page
  {
  }

  lemma Doubled(page: nat)
    ensures page * 2 % 4096 == page % 2048 * 2
  {
  }

  lemma Quadrupled(page: nat)
    ensures page * 4 % 4096 == page % 1024 * 4
  {
  }

  lemma Multiple(page: nat, page': nat, k: nat)
    requires page < PAGES && page' < PAGES && (k == 1 || k == 2 || k == 4)
    ensures page * k % PAGES == page <==> k == 1 || page == 0
    ensures page * k % PAGES == page' * k % PAGES <==> page % (PAGES / k) == page' % (PAGES / k)
  {
    if k == 2 {
      Doubled(page);
      Doubled(page');
    } else if k == 4 {
      Quadrupled(page);
      Quadrupled(page');
    }
  }

  /** A chip reaches the page meant if and only if it is the one with pages of 528 bytes, or the page is the first. */
  lemma ChipDecodesIff(chip: Chip, offset: nat)
    requires chip in CHIPS && offset < Size(chip.n)
    ensures ChipReadsPage(chip, AddressOf(chip.n, offset)) == PageAt(offset, chip.n)
            <==> chip.n == 528 || PageAt(offset, chip.n) == 0
  {
    hide PageAt, PosAt, Size, Encode, Number, Places, CHIPS, AddressOf, ChipReadsPage, ChipReadsAt;
    TableChips(chip);
    PageBound(offset, chip.n);
    ChipReaches(chip, offset);
    Multiple(PageAt(offset, chip.n), 0, 1024 / Places(chip));
  }

  /** Two offsets reach the same place if and only if they have the same position, and pages that differ by a multiple
      of four times the places: so of the other chips only half or a quarter is reached. */
  lemma ChipSharesIff(chip: Chip, offset: nat, offset': nat)
    requires chip in CHIPS && offset < Size(chip.n) && offset' < Size(chip.n)
    ensures var a, a' := AddressOf(chip.n, offset), AddressOf(chip.n, offset');
            ChipReadsPage(chip, a) == ChipReadsPage(chip, a') && ChipReadsAt(chip, a) == ChipReadsAt(chip, a') <==>
              && PosAt(offset, chip.n) == PosAt(offset', chip.n)
              && PageAt(offset, chip.n) % (4 * Places(chip)) == PageAt(offset', chip.n) % (4 * Places(chip))
  {
    hide PageAt, PosAt, Size, Encode, Number, Places, CHIPS, AddressOf, ChipReadsPage, ChipReadsAt;
    TableChips(chip);
    PageBound(offset, chip.n);
    PageBound(offset', chip.n);
    ChipReaches(chip, offset);
    ChipReaches(chip, offset');
    Multiple(PageAt(offset, chip.n), PageAt(offset', chip.n), 1024 / Places(chip));
    assert PAGES / (1024 / Places(chip)) == 4 * Places(chip);
  }
}
