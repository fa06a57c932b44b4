/** The constant tables of the cipher.

    A byte table is kept as sixteen rows of sixteen entries, one 128-bit literal per row, first entry
    leftmost.  Reading it at index `x` selects the row by the high nibble and the byte by the low one.
 */
module AesTables {

  /** The forward table at index `x`. */
  function Sbox(x: bv8): bv8 {
    var row: bv128 :=
      if x & 0x80 == 0 then
        if x & 0x40 == 0 then
          if x & 0x20 == 0 then
            if x & 0x10 == 0 then
              0x637c777bf26b6fc53001672bfed7ab76
            else
              0xca82c97dfa5947f0add4a2af9ca472c0
          else
            if x & 0x10 == 0 then
              0xb7fd9326363ff7cc34a5e5f171d83115
            else
              0x04c723c31896059a071280e2eb27b275
        else
          if x & 0x20 == 0 then
            if x & 0x10 == 0 then
              0x09832c1a1b6e5aa0523bd6b329e32f84
            else
              0x53d100ed20fcb15b6acbbe394a4c58cf
          else
            if x & 0x10 == 0 then
              0xd0efaafb434d338545f9027f503c9fa8
            else
              0x51a3408f929d38f5bcb6da2110fff3d2
      else
        if x & 0x40 == 0 then
          if x & 0x20 == 0 then
            if x & 0x10 == 0 then
              0xcd0c13ec5f974417c4a77e3d645d1973
            else
              0x60814fdc222a908846eeb814de5e0bdb
          else
            if x & 0x10 == 0 then
              0xe0323a0a4906245cc2d3ac629195e479
            else
              0xe7c8376d8dd54ea96c56f4ea657aae08
        else
          if x & 0x20 == 0 then
            if x & 0x10 == 0 then
              0xba78252e1ca6b4c6e8dd741f4bbd8b8a
            else
              0x703eb5664803f60e613557b986c11d9e
          else
            if x & 0x10 == 0 then
              0xe1f8981169d98e949b1e87e9ce5528df
            else
              0x8ca1890dbfe6426841992d0fb054bb16;
    ((row >> (120 - 8 * (x & 0xf))) & 0xff) as bv8
  }

  /** The inverse table at index `x`. */
  function Rsbox(x: bv8): bv8 {
    var row: bv128 :=
      if x & 0x80 == 0 then
        if x & 0x40 == 0 then
          if x & 0x20 == 0 then
            if x & 0x10 == 0 then
              0x52096ad53036a538bf40a39e81f3d7fb
            else
              0x7ce339829b2fff87348e4344c4dee9cb
          else
            if x & 0x10 == 0 then
              0x547b9432a6c2233dee4c950b42fac34e
            else
              0x082ea16628d924b2765ba2496d8bd125
        else
          if x & 0x20 == 0 then
            if x & 0x10 == 0 then
              0x72f8f66486689816d4a45ccc5d65b692
            else
              0x6c704850fdedb9da5e154657a78d9d84
          else
            if x & 0x10 == 0 then
              0x90d8ab008cbcd30af7e45805b8b34506
            else
              0xd02c1e8fca3f0f02c1afbd0301138a6b
      else
        if x & 0x40 == 0 then
          if x & 0x20 == 0 then
            if x & 0x10 == 0 then
              0x3a9111414f67dcea97f2cfcef0b4e673
            else
              0x96ac7422e7ad3585e2f937e81c75df6e
          else
            if x & 0x10 == 0 then
              0x47f11a711d29c5896fb7620eaa18be1b
            else
              0xfc563e4bc6d279209adbc0fe78cd5af4
        else
          if x & 0x20 == 0 then
            if x & 0x10 == 0 then
              0x1fdda8338807c731b11210592780ec5f
            else
              0x60517fa919b54a0d2de57a9f93c99cef
          else
            if x & 0x10 == 0 then
              0xa0e03b4dae2af5b0c8ebbb3c83539961
            else
              0x172b047eba77d626e169146355210c7d;
    ((row >> (120 - 8 * (x & 0xf))) & 0xff) as bv8
  }

  /** The round constants.  The key expansion never reads entry 0. */
  const RCON: seq<bv8> := [0x8d, 0x01, 0x02, 0x04, 0x08, 0x10, 0x20, 0x40, 0x80, 0x1b, 0x36]
}
