/** X-Gorgon of the request in testdata/vector_007.json, for every MD5 with the digests the vector rests on. */
module GorgonExample {
  import opened Bytes
  import opened CryptoHelpers
  import opened Gorgon

  const TIME := 1700000002

  /** The layout, and what masking and the pass make of it. */
  const LAYOUT: Cells := [
    0x59, 0x52, 0x95, 0xD3, 0x5A, 0x8A, 0x83, 0xC4, 0x00, 0x00,
    0x00, 0x00, 0x00, 0x06, 0x0B, 0x1C, 0x65, 0x53, 0xF1, 0x02
  ]
  const CELLS: Cells := [
    0x59, 0x95, 0x61, 0xB0, 0x1F, 0x83, 0x07, 0x4E, 0xCE, 0xE1,
    0x5D, 0xBC, 0x36, 0x94, 0xA6, 0x17, 0x7C, 0xA7, 0x6D, 0x49
  ]

  lemma Mix0() ensures Mix(XorByte(0x59, 0xDF), XorByte(0x52, 0x77)) == 0x59 {}
  lemma Mix1() ensures Mix(XorByte(0x52, 0x77), XorByte(0x95, 0xB9)) == 0x95 {}
  lemma Mix2() ensures Mix(XorByte(0x95, 0xB9), XorByte(0xD3, 0x40)) == 0x61 {}
  lemma Mix3() ensures Mix(XorByte(0xD3, 0x40), XorByte(0x5A, 0xB9)) == 0xB0 {}
  lemma Mix4() ensures Mix(XorByte(0x5A, 0xB9), XorByte(0x8A, 0x9B)) == 0x1F {}
  lemma Mix5() ensures Mix(XorByte(0x8A, 0x9B), XorByte(0x83, 0x84)) == 0x83 {}
  lemma Mix6() ensures Mix(XorByte(0x83, 0x84), XorByte(0xC4, 0x83)) == 0x07 {}
  lemma Mix7() ensures Mix(XorByte(0xC4, 0x83), XorByte(0x00, 0xD1)) == 0x4E {}
  lemma Mix8() ensures Mix(XorByte(0x00, 0xD1), XorByte(0x00, 0xB9)) == 0xCE {}
  lemma Mix9() ensures Mix(XorByte(0x00, 0xB9), XorByte(0x00, 0xCB)) == 0xE1 {}
  lemma Mix10() ensures Mix(XorByte(0x00, 0xCB), XorByte(0x00, 0xD1)) == 0x5D {}
  lemma Mix11() ensures Mix(XorByte(0x00, 0xD1), XorByte(0x00, 0xF7)) == 0xBC {}
  lemma Mix12() ensures Mix(XorByte(0x00, 0xF7), XorByte(0x06, 0xC2)) == 0x36 {}
  lemma Mix13() ensures Mix(XorByte(0x06, 0xC2), XorByte(0x0B, 0xB9)) == 0x94 {}
  lemma Mix14() ensures Mix(XorByte(0x0B, 0xB9), XorByte(0x1C, 0x85)) == 0xA6 {}
  lemma Mix15() ensures Mix(XorByte(0x1C, 0x85), XorByte(0x65, 0xC3)) == 0x17 {}
  lemma Mix16() ensures Mix(XorByte(0x65, 0xC3), XorByte(0x53, 0xD0)) == 0x7C {}
  lemma Mix17() ensures Mix(XorByte(0x53, 0xD0), XorByte(0xF1, 0xFB)) == 0xA7 {}
  lemma Mix18() ensures Mix(XorByte(0xF1, 0xFB), XorByte(0x02, 0xC3)) == 0x6D {}
  lemma Mix19() ensures Mix(XorByte(0x02, 0xC3), 0x59) == 0x49 {}

  lemma TimeBytes()
    ensures BeBytes(TIME % TWO32, 4) == [0x65, 0x53, 0xF1, 0x02]
  {
    assert BeBytes(0, 0) == [];
    assert BeBytes(0x65, 1) == [0x65];
    assert BeBytes(0x6553, 2) == [0x65, 0x53];
    assert BeBytes(0x6553F1, 3) == [0x65, 0x53, 0xF1];
  }

  lemma ScrambledIs()
    ensures Scrambled(Masked(LAYOUT), 20) == CELLS
  {
    ScrambledIsClosedForm(Masked(LAYOUT));
    hide Mix, XorByte, Scrambled, Masked;
    Mix0(); Mix1(); Mix2(); Mix3(); Mix4(); Mix5(); Mix6(); Mix7(); Mix8(); Mix9();
    Mix10(); Mix11(); Mix12(); Mix13(); Mix14(); Mix15(); Mix16(); Mix17(); Mix18(); Mix19();
  }

  lemma LayoutIs(md5: Md5, query: seq<byte>, body: seq<byte>)
    requires md5(query)[..4] == [0x59, 0x52, 0x95, 0xD3] && md5(body)[..4] == [0x5A, 0x8A, 0x83, 0xC4] && body != []
    ensures Layout(md5, query, body, [], MARK2, TIME) == LAYOUT
  {
    hide BeBytes;
    TimeBytes();
    assert Zeros(4) == [0, 0, 0, 0];
  }

  // The cells are spelled "599561b01f83074ecee15dbc3694a6177ca76d49".

  /** The value is "840280416000" and the spelled cells. */
  lemma Vector007(md5: Md5, query: seq<byte>, body: seq<byte>)
    requires md5(query)[..4] == [0x59, 0x52, 0x95, 0xD3] && md5(body)[..4] == [0x5A, 0x8A, 0x83, 0xC4] && body != []
    ensures V2(md5, query, body, [], TIME).gorgonVal
            == [0x38, 0x34, 0x30, 0x32, 0x38, 0x30, 0x34, 0x31, 0x36, 0x30, 0x30, 0x30] + HexText(CELLS)
  {
    hide Masked, Scrambled, HexText, Layout, LAYOUT, CELLS;
    LayoutIs(md5, query, body);
    ScrambledIs();
  }
}
