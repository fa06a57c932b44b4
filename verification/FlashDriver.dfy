/** The driver: it cuts a write into commands for the device and sends them one after another. */
module FlashDriver {
  import opened PagedFlash
  import opened FlashWrite

  /** What the device does on a command. */
  function Command(d: Dev, op: Byte, a: Address, data: seq<Byte>): (r: Dev)
    requires Valid(d) && AtOf(a) < d.n && |data| <= d.n
    ensures Valid(r) && r.n == d.n
  {
    if op == LOAD_1 then Load(d, 0, PageOf(a) % PAGES)
    else if op == LOAD_2 then Load(d, 1, PageOf(a) % PAGES)
    else if op == PROGRAM_1 then Program(d, 0, PageOf(a) % PAGES, AtOf(a), data)
    else if op == PROGRAM_2 then Program(d, 1, PageOf(a) % PAGES, AtOf(a), data)
    else d
  }

  /** The four commands by their numbers: 53 and 55 load a page into the first and the second buffer, 82 and 85
      program through them; page and position stand in the three bytes after the command, 12 and 10 bits from
      the top but two. */
  lemma CommandNumbers(d: Dev, high: Byte, mid: Byte, low: Byte, data: seq<Byte>)
    requires Valid(d) && mid % 4 * 256 + low < d.n && |data| <= d.n
    ensures var a, page, at := Address(high, mid, low), (high * 64 + mid / 4) % 4096, mid % 4 * 256 + low;
            && Command(d, 0x53, a, data) == d.(buffers := [d.pages[page], d.buffers[1]])
            && Command(d, 0x55, a, data) == d.(buffers := [d.buffers[0], d.pages[page]])
            && Command(d, 0x82, a, data) == Program(d, 0, page, at, data)
            && Command(d, 0x85, a, data) == Program(d, 1, page, at, data)
  {
    hide Program;
  }

  /** The address bytes that the driver sends for an offset. */
  function AddressOf(n: nat, offset: nat): Address
    requires 0 < n
  {
    Encode(PageAt(offset, n) % U16, PosAt(offset, n))
  }

  /** The device decodes them as the page and the position meant. */
  lemma AddressDecodes(n: nat, offset: nat)
    requires 0 < n < 1024
    ensures PageOf(AddressOf(n, offset)) % PAGES == ChipPage(n, offset)
    ensures AtOf(AddressOf(n, offset)) == PosAt(offset, n)
  {
    hide Encode, PageOf, AtOf, PageAt, PosAt;
    AddressRoundTrip(PageAt(offset, n) % U16, PosAt(offset, n));
  }

  class Flash {
    var pageSize: nat
    var totalSize: nat
    var pageSizeChanged: bool
    var pages: seq<seq<Byte>>
    var buffers: seq<seq<Byte>>
    var pieces: seq<Piece>

    function View(): Dev
      reads this
    {
      Dev(pageSize, pages, buffers, pieces)
    }

    ghost predicate Ready()
      reads this
    {
      0 < pageSize < 1024 && totalSize == Size(pageSize) && Valid(View())
    }

    method SetAddressBytes(addr: array<Byte>, offset: nat)
      requires Ready() && 4 <= addr.Length
      modifies addr
      ensures Address(addr[1], addr[2], addr[3]) == AddressOf(pageSize, offset) && addr[0] == old(addr[0])
    {
      hide PageAt, PosAt, Size;
      var page, off := PageAt(offset, pageSize) % U16, PosAt(offset, pageSize);
      addr[3] := off % 256;
      addr[2] := off / 256 % 4;
      addr[2] := addr[2] + page * 4 % 256;
      addr[1] := page / 64 % 64;
    }

    /** One transaction with the device: four bytes of command, then the data. */
    method Transact(addr: array<Byte>, data: seq<Byte>)
      requires Ready() && 4 <= addr.Length && AtOf(Address(addr[1], addr[2], addr[3])) < pageSize && |data| <= pageSize
      modifies this`pages, this`buffers, this`pieces
      ensures Ready() && View() == Command(old(View()), addr[0], Address(addr[1], addr[2], addr[3]), data)
    {
      hide Size, Overlay;
      var a := Address(addr[1], addr[2], addr[3]);
      var page, at := PageOf(a) % PAGES, AtOf(a);
      var b := if addr[0] == LOAD_1 || addr[0] == PROGRAM_1 then 0 else 1;
      if addr[0] == LOAD_1 || addr[0] == LOAD_2 {
        buffers := buffers[b := pages[page]];
      } else if addr[0] == PROGRAM_1 || addr[0] == PROGRAM_2 {
        var whole := Overlay(buffers[b], at, data);
        buffers := buffers[b := whole];
        pages := pages[page := whole];
        pieces := pieces + [Piece(page, at, |data|)];
      }
    }

    method LoadPage(dfbuff: int, addr: array<Byte>, offset: nat)
      requires Ready() && 4 <= addr.Length
      modifies addr, this`pages, this`buffers, this`pieces
      ensures Ready() && View() == Load(old(View()), if dfbuff == 1 then 0 else 1, ChipPage(pageSize, offset))
    {
      hide Size, Load, Program, PageOf, AtOf, Encode, PageAt, PosAt, ChipPage, AddressOf, Valid;
      AddressDecodes(pageSize, offset);
      if dfbuff == 1 {
        addr[0] := LOAD_1;
      } else {
        addr[0] := LOAD_2;
      }
      SetAddressBytes(addr, offset);
      Transact(addr, []);
    }

    method ProgramChunk(dfbuff: int, addr: array<Byte>, offset: nat, data: seq<Byte>)
      requires Ready() && 4 <= addr.Length && |data| <= pageSize
      modifies addr, this`pages, this`buffers, this`pieces
      ensures Ready()
      ensures View() == Program(old(View()), if dfbuff == 1 then 0 else 1,
                                ChipPage(pageSize, offset), PosAt(offset, pageSize), data)
    {
      hide Size, Load, Program, PageOf, AtOf, Encode, PageAt, PosAt, ChipPage, AddressOf, Valid;
      AddressDecodes(pageSize, offset);
      if dfbuff == 1 {
        addr[0] := PROGRAM_1;
      } else {
        addr[0] := PROGRAM_2;
      }
      SetAddressBytes(addr, offset);
      Transact(addr, data);
    }

    /** The loop of a write, from a first chunk of `first` bytes. */
    method ProgramChunks(dfbuff: int, addr: array<Byte>, buf: array<Byte>, offset: nat, len: nat, first: nat)
        returns (written: nat)
      requires Ready() && 4 <= addr.Length && addr != buf && len <= buf.Length
      requires first <= pageSize && first <= len && (len == 0 <==> first == 0)
      modifies addr, this`pages, this`buffers, this`pieces
      ensures Ready() && written == len
      ensures View() == ProgramAll(old(View()), if dfbuff == 1 then 0 else 1, buf[..len], offset, first)
    {
      hide Size, Load, Program, PageAt, PosAt, ChipPage, Valid;
      ghost var b, data := if dfbuff == 1 then 0 else 1, buf[..len];
      var left: nat, to: nat, wLen: nat := len, offset, first;
      written := 0;
      while left != 0
        invariant Ready() && written + left == len && wLen <= left && wLen <= pageSize && (left == 0 <==> wLen == 0)
        invariant ProgramAll(View(), b, data[written..], to, wLen) == ProgramAll(old(View()), b, data, offset, first)
      {
        ProgramChunk(dfbuff, addr, to, buf[written..written + wLen]);
        assert data[written..][..wLen] == buf[written..written + wLen];
        assert data[written..][wLen..] == data[written + wLen..];
        left := left - wLen;
        written := written + wLen;
        to := (to + wLen) % U32;
        wLen := Min(pageSize, left);
      }
    }

    method Flash0Write(dfbuff: int, buf: array<Byte>, offset: nat, len: nat) returns (written: nat)
      requires Ready() && offset < U32 && len < U32 && len <= buf.Length
      modifies this`pages, this`buffers, this`pieces
      ensures Ready()
      ensures if Accepted(pageSize, offset, len) && !pageSizeChanged
              then written == len && View() == Write(old(View()), if dfbuff == 1 then 0 else 1, buf[..len], offset)
              else written == 0 && View() == old(View())
    {
      hide Size, Load, ProgramAll, PageAt, PosAt, ChipPage, Valid;
      written := 0;
      if len > totalSize || (len + offset) % U32 > totalSize {
        return;
      }
      if pageSizeChanged {
        return;
      }
      var addr := new Byte[4];
      LoadPage(dfbuff, addr, offset);
      written := ProgramChunks(dfbuff, addr, buf, offset, len, Min(pageSize - PosAt(offset, pageSize), len));
    }

    method Flash0Read(buf: array<Byte>, offset: nat, len: nat) returns (count: nat)
      requires Ready() && offset < U32 && len < U32 && len <= buf.Length
      modifies buf
      ensures if Accepted(pageSize, offset, len) && !pageSizeChanged
              then count == len && buf[..] == Read(View(), offset, len) + old(buf[len..])
              else count == 0 && buf[..] == old(buf[..])
    {
      hide Start, Encode, PageOf, AtOf, PageAt, PosAt, ChipPage, Valid, AddressOf;
      count := 0;
      if len > totalSize || (len + offset) % U32 > totalSize {
        return;
      }
      if pageSizeChanged {
        return;
      }
      var addr := new Byte[4];
      SetAddressBytes(addr, offset);
      AddressDecodes(pageSize, offset);
      SizeFits(pageSize);
      var a := Address(addr[1], addr[2], addr[3]);
      var from := Start(PageOf(a) % PAGES, pageSize) + AtOf(a);
      for i := 0 to len
        invariant forall k | 0 <= k < i :: buf[k] == ReadByte(View(), offset, k)
        invariant forall k | i <= k < buf.Length :: buf[k] == old(buf[k])
      {
        buf[i] := Cell(View(), (from + i) % totalSize);
      }
      count := len;
    }
  }
}
