/** Example A.1 of GB/T 32905-2016, which hashes "abc": every expanded word, the state after every round, the digest. */
module Sm3Example {
  import opened Bytes
  import opened Words32
  import opened Sm3

  // ---------------------------------------------------------------- the expanded words

  ghost predicate Listed0(w: seq<Word>) {
    && |w| == 68
    && w[0] == 0x61626380 && w[1] == 0x00000000 && w[2] == 0x00000000 && w[3] == 0x00000000
    && w[4] == 0x00000000 && w[5] == 0x00000000 && w[6] == 0x00000000 && w[7] == 0x00000000
    && w[8] == 0x00000000 && w[9] == 0x00000000 && w[10] == 0x00000000 && w[11] == 0x00000000
    && w[12] == 0x00000000 && w[13] == 0x00000000 && w[14] == 0x00000000 && w[15] == 0x00000018
  }

  ghost predicate Listed16(w: seq<Word>) {
    && |w| == 68
    && w[16] == 0x9092E200 && w[17] == 0x00000000 && w[18] == 0x000C0606 && w[19] == 0x719C70ED
    && w[20] == 0x00000000 && w[21] == 0x8001801F && w[22] == 0x939F7DA9 && w[23] == 0x00000000
    && w[24] == 0x2C6FA1F9 && w[25] == 0xADAAEF14 && w[26] == 0x00000000 && w[27] == 0x0001801E
    && w[28] == 0x9A965F89 && w[29] == 0x49710048 && w[30] == 0x23CE86A1 && w[31] == 0xB2D12F1B
  }

  ghost predicate Listed32(w: seq<Word>) {
    && |w| == 68
    && w[32] == 0xE1DAE338 && w[33] == 0xF8061807 && w[34] == 0x055D68BE && w[35] == 0x86CFD481
    && w[36] == 0x1F447D83 && w[37] == 0xD9023DBF && w[38] == 0x185898E0 && w[39] == 0xE0061807
    && w[40] == 0x050DF55C && w[41] == 0xCDE0104C && w[42] == 0xA5B9C955 && w[43] == 0xA7DF0184
    && w[44] == 0x6E46CD08 && w[45] == 0xE3BABDF8 && w[46] == 0x70CAA422 && w[47] == 0x0353AF50
  }

  ghost predicate Listed48(w: seq<Word>) {
    && |w| == 68
    && w[48] == 0xA92DBCA1 && w[49] == 0x5F33CFD2 && w[50] == 0xE16F6E89 && w[51] == 0xF70FE941
    && w[52] == 0xCA5462DC && w[53] == 0x85A90152 && w[54] == 0x76AF6296 && w[55] == 0xC922BDB2
    && w[56] == 0x68378CF5 && w[57] == 0x97585344 && w[58] == 0x09008723 && w[59] == 0x86FAEE74
    && w[60] == 0x2AB908B0 && w[61] == 0x4A64BC50 && w[62] == 0x864E6E08 && w[63] == 0xF07E6590
  }

  ghost predicate Listed64(w: seq<Word>) {
    && |w| == 68
    && w[64] == 0x325C8F78 && w[65] == 0xACCB8011 && w[66] == 0xE11DB9DD && w[67] == 0xB99C0545
  }

  lemma Word16() ensures Expanded(0x61626380, 0x00000000, 0x00000000, 0x00000000, 0x00000000) == 0x9092E200 {}
  lemma Word17() ensures Expanded(0x00000000, 0x00000000, 0x00000000, 0x00000000, 0x00000000) == 0x00000000 {}
  lemma Word18() ensures Expanded(0x00000000, 0x00000000, 0x00000000, 0x00000000, 0x00000018) == 0x000C0606 {}
  lemma Word19() ensures Expanded(0x00000000, 0x00000000, 0x00000000, 0x00000000, 0x9092E200) == 0x719C70ED {}
  lemma Word20() ensures Expanded(0x00000000, 0x00000000, 0x00000000, 0x00000000, 0x00000000) == 0x00000000 {}
  lemma Word21() ensures Expanded(0x00000000, 0x00000000, 0x00000000, 0x00000018, 0x000C0606) == 0x8001801F {}
  lemma Word22() ensures Expanded(0x00000000, 0x00000000, 0x00000000, 0x9092E200, 0x719C70ED) == 0x939F7DA9 {}
  lemma Word23() ensures Expanded(0x00000000, 0x00000000, 0x00000000, 0x00000000, 0x00000000) == 0x00000000 {}
  lemma Word24() ensures Expanded(0x00000000, 0x00000000, 0x00000018, 0x000C0606, 0x8001801F) == 0x2C6FA1F9 {}
  lemma Word25() ensures Expanded(0x00000000, 0x00000000, 0x9092E200, 0x719C70ED, 0x939F7DA9) == 0xADAAEF14 {}
  lemma Word26() ensures Expanded(0x00000000, 0x00000000, 0x00000000, 0x00000000, 0x00000000) == 0x00000000 {}
  lemma Word27() ensures Expanded(0x00000000, 0x00000000, 0x000C0606, 0x8001801F, 0x2C6FA1F9) == 0x0001801E {}
  lemma Word28() ensures Expanded(0x00000000, 0x00000018, 0x719C70ED, 0x939F7DA9, 0xADAAEF14) == 0x9A965F89 {}
  lemma Word29() ensures Expanded(0x00000000, 0x9092E200, 0x00000000, 0x00000000, 0x00000000) == 0x49710048 {}
  lemma Word30() ensures Expanded(0x00000000, 0x00000000, 0x8001801F, 0x2C6FA1F9, 0x0001801E) == 0x23CE86A1 {}
  lemma Word31() ensures Expanded(0x00000018, 0x000C0606, 0x939F7DA9, 0xADAAEF14, 0x9A965F89) == 0xB2D12F1B {}
  lemma Word32() ensures Expanded(0x9092E200, 0x719C70ED, 0x00000000, 0x00000000, 0x49710048) == 0xE1DAE338 {}
  lemma Word33() ensures Expanded(0x00000000, 0x00000000, 0x2C6FA1F9, 0x0001801E, 0x23CE86A1) == 0xF8061807 {}
  lemma Word34() ensures Expanded(0x000C0606, 0x8001801F, 0xADAAEF14, 0x9A965F89, 0xB2D12F1B) == 0x055D68BE {}
  lemma Word35() ensures Expanded(0x719C70ED, 0x939F7DA9, 0x00000000, 0x49710048, 0xE1DAE338) == 0x86CFD481 {}
  lemma Word36() ensures Expanded(0x00000000, 0x00000000, 0x0001801E, 0x23CE86A1, 0xF8061807) == 0x1F447D83 {}
  lemma Word37() ensures Expanded(0x8001801F, 0x2C6FA1F9, 0x9A965F89, 0xB2D12F1B, 0x055D68BE) == 0xD9023DBF {}
  lemma Word38() ensures Expanded(0x939F7DA9, 0xADAAEF14, 0x49710048, 0xE1DAE338, 0x86CFD481) == 0x185898E0 {}
  lemma Word39() ensures Expanded(0x00000000, 0x00000000, 0x23CE86A1, 0xF8061807, 0x1F447D83) == 0xE0061807 {}
  lemma Word40() ensures Expanded(0x2C6FA1F9, 0x0001801E, 0xB2D12F1B, 0x055D68BE, 0xD9023DBF) == 0x050DF55C {}
  lemma Word41() ensures Expanded(0xADAAEF14, 0x9A965F89, 0xE1DAE338, 0x86CFD481, 0x185898E0) == 0xCDE0104C {}
  lemma Word42() ensures Expanded(0x00000000, 0x49710048, 0xF8061807, 0x1F447D83, 0xE0061807) == 0xA5B9C955 {}
  lemma Word43() ensures Expanded(0x0001801E, 0x23CE86A1, 0x055D68BE, 0xD9023DBF, 0x050DF55C) == 0xA7DF0184 {}
  lemma Word44() ensures Expanded(0x9A965F89, 0xB2D12F1B, 0x86CFD481, 0x185898E0, 0xCDE0104C) == 0x6E46CD08 {}
  lemma Word45() ensures Expanded(0x49710048, 0xE1DAE338, 0x1F447D83, 0xE0061807, 0xA5B9C955) == 0xE3BABDF8 {}
  lemma Word46() ensures Expanded(0x23CE86A1, 0xF8061807, 0xD9023DBF, 0x050DF55C, 0xA7DF0184) == 0x70CAA422 {}
  lemma Word47() ensures Expanded(0xB2D12F1B, 0x055D68BE, 0x185898E0, 0xCDE0104C, 0x6E46CD08) == 0x0353AF50 {}
  lemma Word48() ensures Expanded(0xE1DAE338, 0x86CFD481, 0xE0061807, 0xA5B9C955, 0xE3BABDF8) == 0xA92DBCA1 {}
  lemma Word49() ensures Expanded(0xF8061807, 0x1F447D83, 0x050DF55C, 0xA7DF0184, 0x70CAA422) == 0x5F33CFD2 {}
  lemma Word50() ensures Expanded(0x055D68BE, 0xD9023DBF, 0xCDE0104C, 0x6E46CD08, 0x0353AF50) == 0xE16F6E89 {}
  lemma Word51() ensures Expanded(0x86CFD481, 0x185898E0, 0xA5B9C955, 0xE3BABDF8, 0xA92DBCA1) == 0xF70FE941 {}
  lemma Word52() ensures Expanded(0x1F447D83, 0xE0061807, 0xA7DF0184, 0x70CAA422, 0x5F33CFD2) == 0xCA5462DC {}
  lemma Word53() ensures Expanded(0xD9023DBF, 0x050DF55C, 0x6E46CD08, 0x0353AF50, 0xE16F6E89) == 0x85A90152 {}
  lemma Word54() ensures Expanded(0x185898E0, 0xCDE0104C, 0xE3BABDF8, 0xA92DBCA1, 0xF70FE941) == 0x76AF6296 {}
  lemma Word55() ensures Expanded(0xE0061807, 0xA5B9C955, 0x70CAA422, 0x5F33CFD2, 0xCA5462DC) == 0xC922BDB2 {}
  lemma Word56() ensures Expanded(0x050DF55C, 0xA7DF0184, 0x0353AF50, 0xE16F6E89, 0x85A90152) == 0x68378CF5 {}
  lemma Word57() ensures Expanded(0xCDE0104C, 0x6E46CD08, 0xA92DBCA1, 0xF70FE941, 0x76AF6296) == 0x97585344 {}
  lemma Word58() ensures Expanded(0xA5B9C955, 0xE3BABDF8, 0x5F33CFD2, 0xCA5462DC, 0xC922BDB2) == 0x09008723 {}
  lemma Word59() ensures Expanded(0xA7DF0184, 0x70CAA422, 0xE16F6E89, 0x85A90152, 0x68378CF5) == 0x86FAEE74 {}
  lemma Word60() ensures Expanded(0x6E46CD08, 0x0353AF50, 0xF70FE941, 0x76AF6296, 0x97585344) == 0x2AB908B0 {}
  lemma Word61() ensures Expanded(0xE3BABDF8, 0xA92DBCA1, 0xCA5462DC, 0xC922BDB2, 0x09008723) == 0x4A64BC50 {}
  lemma Word62() ensures Expanded(0x70CAA422, 0x5F33CFD2, 0x85A90152, 0x68378CF5, 0x86FAEE74) == 0x864E6E08 {}
  lemma Word63() ensures Expanded(0x0353AF50, 0xE16F6E89, 0x76AF6296, 0x97585344, 0x2AB908B0) == 0xF07E6590 {}
  lemma Word64() ensures Expanded(0xA92DBCA1, 0xF70FE941, 0xC922BDB2, 0x09008723, 0x4A64BC50) == 0x325C8F78 {}
  lemma Word65() ensures Expanded(0x5F33CFD2, 0xCA5462DC, 0x68378CF5, 0x86FAEE74, 0x864E6E08) == 0xACCB8011 {}
  lemma Word66() ensures Expanded(0xE16F6E89, 0x85A90152, 0x97585344, 0x2AB908B0, 0xF07E6590) == 0xE11DB9DD {}
  lemma Word67() ensures Expanded(0xF70FE941, 0x76AF6296, 0x09008723, 0x4A64BC50, 0x325C8F78) == 0xB99C0545 {}

  lemma Words16To31(b: Block, w: seq<Word>)
    requires w == Expand(b, 68) && Listed0(w)
    ensures Listed16(w)
  {
    hide Expand, Expanded;
    ExpandFollows(b, 68, 16); Word16(); ExpandFollows(b, 68, 17); Word17();
    ExpandFollows(b, 68, 18); Word18(); ExpandFollows(b, 68, 19); Word19();
    ExpandFollows(b, 68, 20); Word20(); ExpandFollows(b, 68, 21); Word21();
    ExpandFollows(b, 68, 22); Word22(); ExpandFollows(b, 68, 23); Word23();
    ExpandFollows(b, 68, 24); Word24(); ExpandFollows(b, 68, 25); Word25();
    ExpandFollows(b, 68, 26); Word26(); ExpandFollows(b, 68, 27); Word27();
    ExpandFollows(b, 68, 28); Word28(); ExpandFollows(b, 68, 29); Word29();
    ExpandFollows(b, 68, 30); Word30(); ExpandFollows(b, 68, 31); Word31();
  }

  lemma Words32To47(b: Block, w: seq<Word>)
    requires w == Expand(b, 68) && Listed16(w)
    ensures Listed32(w)
  {
    hide Expand, Expanded;
    ExpandFollows(b, 68, 32); Word32(); ExpandFollows(b, 68, 33); Word33();
    ExpandFollows(b, 68, 34); Word34(); ExpandFollows(b, 68, 35); Word35();
    ExpandFollows(b, 68, 36); Word36(); ExpandFollows(b, 68, 37); Word37();
    ExpandFollows(b, 68, 38); Word38(); ExpandFollows(b, 68, 39); Word39();
    ExpandFollows(b, 68, 40); Word40(); ExpandFollows(b, 68, 41); Word41();
    ExpandFollows(b, 68, 42); Word42(); ExpandFollows(b, 68, 43); Word43();
    ExpandFollows(b, 68, 44); Word44(); ExpandFollows(b, 68, 45); Word45();
    ExpandFollows(b, 68, 46); Word46(); ExpandFollows(b, 68, 47); Word47();
  }

  lemma Words48To63(b: Block, w: seq<Word>)
    requires w == Expand(b, 68) && Listed32(w)
    ensures Listed48(w)
  {
    hide Expand, Expanded;
    ExpandFollows(b, 68, 48); Word48(); ExpandFollows(b, 68, 49); Word49();
    ExpandFollows(b, 68, 50); Word50(); ExpandFollows(b, 68, 51); Word51();
    ExpandFollows(b, 68, 52); Word52(); ExpandFollows(b, 68, 53); Word53();
    ExpandFollows(b, 68, 54); Word54(); ExpandFollows(b, 68, 55); Word55();
    ExpandFollows(b, 68, 56); Word56(); ExpandFollows(b, 68, 57); Word57();
    ExpandFollows(b, 68, 58); Word58(); ExpandFollows(b, 68, 59); Word59();
    ExpandFollows(b, 68, 60); Word60(); ExpandFollows(b, 68, 61); Word61();
    ExpandFollows(b, 68, 62); Word62(); ExpandFollows(b, 68, 63); Word63();
  }

  lemma Words64To67(b: Block, w: seq<Word>)
    requires w == Expand(b, 68) && Listed48(w)
    ensures Listed64(w)
  {
    hide Expand, Expanded;
    ExpandFollows(b, 68, 64); Word64(); ExpandFollows(b, 68, 65); Word65();
    ExpandFollows(b, 68, 66); Word66(); ExpandFollows(b, 68, 67); Word67();
  }

  // ---------------------------------------------------------------- the rounds

  const S0 := State(0x7380166F, 0x4914B2B9, 0x172442D7, 0xDA8A0600, 0xA96F30BC, 0x163138AA, 0xE38DEE4D, 0xB0FB0E4E)
  const S1 := State(0xB9EDC12B, 0x7380166F, 0x29657292, 0x172442D7, 0xB2AD29F4, 0xA96F30BC, 0xC550B189, 0xE38DEE4D)
  const S2 := State(0xEA52428C, 0xB9EDC12B, 0x002CDEE7, 0x29657292, 0xAC353A23, 0xB2AD29F4, 0x85E54B79, 0xC550B189)
  const S3 := State(0x609F2850, 0xEA52428C, 0xDB825773, 0x002CDEE7, 0xD33AD5FB, 0xAC353A23, 0x4FA59569, 0x85E54B79)
  const S4 := State(0x35037E59, 0x609F2850, 0xA48519D4, 0xDB825773, 0xB8204B5F, 0xD33AD5FB, 0xD11D61A9, 0x4FA59569)
  const S5 := State(0x1F995766, 0x35037E59, 0x3E50A0C1, 0xA48519D4, 0x8AD212EA, 0xB8204B5F, 0xAFDE99D6, 0xD11D61A9)
  const S6 := State(0x374A0CA7, 0x1F995766, 0x06FCB26A, 0x3E50A0C1, 0xACF0F639, 0x8AD212EA, 0x5AFDC102, 0xAFDE99D6)
  const S7 := State(0x33130100, 0x374A0CA7, 0x32AECC3F, 0x06FCB26A, 0x3391EC8A, 0xACF0F639, 0x97545690, 0x5AFDC102)
  const S8 := State(0x1022AC97, 0x33130100, 0x94194E6E, 0x32AECC3F, 0x367250A1, 0x3391EC8A, 0xB1CD6787, 0x97545690)
  const S9 := State(0xD47CAF4C, 0x1022AC97, 0x26020066, 0x94194E6E, 0x6AD473A4, 0x367250A1, 0x64519C8F, 0xB1CD6787)
  const S10 := State(0x59C2744B, 0xD47CAF4C, 0x45592E20, 0x26020066, 0xC6A3CEAE, 0x6AD473A4, 0x8509B392, 0x64519C8F)
  const S11 := State(0x481BA2A0, 0x59C2744B, 0xF95E99A8, 0x45592E20, 0x02AFB727, 0xC6A3CEAE, 0x9D2356A3, 0x8509B392)
  const S12 := State(0x694A3D09, 0x481BA2A0, 0x84E896B3, 0xF95E99A8, 0x9DD1B58C, 0x02AFB727, 0x7576351E, 0x9D2356A3)
  const S13 := State(0x89CBCD58, 0x694A3D09, 0x37454090, 0x84E896B3, 0x6370DB62, 0x9DD1B58C, 0xB938157D, 0x7576351E)
  const S14 := State(0x24C95ABC, 0x89CBCD58, 0x947A12D2, 0x37454090, 0x1A4A2554, 0x6370DB62, 0xAC64EE8D, 0xB938157D)
  const S15 := State(0x7C529778, 0x24C95ABC, 0x979AB113, 0x947A12D2, 0x3EE95933, 0x1A4A2554, 0xDB131B86, 0xAC64EE8D)
  const S16 := State(0x34D1691E, 0x7C529778, 0x92B57849, 0x979AB113, 0x61F99646, 0x3EE95933, 0x2AA0D251, 0xDB131B86)
  const S17 := State(0x796AFAB1, 0x34D1691E, 0xA52EF0F8, 0x92B57849, 0x067550F5, 0x61F99646, 0xC999F74A, 0x2AA0D251)
  const S18 := State(0x7D27CC0E, 0x796AFAB1, 0xA2D23C69, 0xA52EF0F8, 0xB3C8669B, 0x067550F5, 0xB2330FCC, 0xC999F74A)
  const S19 := State(0xD7820AD1, 0x7D27CC0E, 0xD5F562F2, 0xA2D23C69, 0x575C37D8, 0xB3C8669B, 0x87A833AA, 0xB2330FCC)
  const S20 := State(0xF84FD372, 0xD7820AD1, 0x4F981CFA, 0xD5F562F2, 0xA5DCEAF1, 0x575C37D8, 0x34DD9E43, 0x87A833AA)
  const S21 := State(0x02C57896, 0xF84FD372, 0x0415A3AF, 0x4F981CFA, 0x74576681, 0xA5DCEAF1, 0xBEC2BAE1, 0x34DD9E43)
  const S22 := State(0x4D0C2FCD, 0x02C57896, 0x9FA6E5F0, 0x0415A3AF, 0x576F1D09, 0x74576681, 0x578D2EE7, 0xBEC2BAE1)
  const S23 := State(0xEEEEC41A, 0x4D0C2FCD, 0x8AF12C05, 0x9FA6E5F0, 0xB5523911, 0x576F1D09, 0x340BA2BB, 0x578D2EE7)
  const S24 := State(0xF368DA78, 0xEEEEC41A, 0x185F9A9A, 0x8AF12C05, 0x6A879032, 0xB5523911, 0xE84ABB78, 0x340BA2BB)
  const S25 := State(0x15CE1286, 0xF368DA78, 0xDD8835DD, 0x185F9A9A, 0x62063354, 0x6A879032, 0xC88DAA91, 0xE84ABB78)
  const S26 := State(0xC3FD31C2, 0x15CE1286, 0xD1B4F1E6, 0xDD8835DD, 0x4DB58F43, 0x62063354, 0x8193543C, 0xC88DAA91)
  const S27 := State(0x6243BE5E, 0xC3FD31C2, 0x9C250C2B, 0xD1B4F1E6, 0x131152FE, 0x4DB58F43, 0x9AA31031, 0x8193543C)
  const S28 := State(0xA549BEAA, 0x6243BE5E, 0xFA638587, 0x9C250C2B, 0xCF65E309, 0x131152FE, 0x7A1A6DAC, 0x9AA31031)
  const S29 := State(0xE11EB847, 0xA549BEAA, 0x877CBCC4, 0xFA638587, 0xE5B64E96, 0xCF65E309, 0x97F0988A, 0x7A1A6DAC)
  const S30 := State(0xFF9BAC9D, 0xE11EB847, 0x937D554A, 0x877CBCC4, 0x9811B46D, 0xE5B64E96, 0x184E7B2F, 0x97F0988A)
  const S31 := State(0xA5A4A2B3, 0xFF9BAC9D, 0x3D708FC2, 0x937D554A, 0xE92DF4EA, 0x9811B46D, 0x74B72DB2, 0x184E7B2F)
  const S32 := State(0x89A13E59, 0xA5A4A2B3, 0x37593BFF, 0x3D708FC2, 0x0A1FF572, 0xE92DF4EA, 0xA36CC08D, 0x74B72DB2)
  const S33 := State(0x3720BD4E, 0x89A13E59, 0x4945674B, 0x37593BFF, 0xCF7D1683, 0x0A1FF572, 0xA757496F, 0xA36CC08D)
  const S34 := State(0x9CCD089C, 0x3720BD4E, 0x427CB313, 0x4945674B, 0xDA8C835F, 0xCF7D1683, 0xAB9050FF, 0xA757496F)
  const S35 := State(0xC7A0744D, 0x9CCD089C, 0x417A9C6E, 0x427CB313, 0x0958FF1B, 0xDA8C835F, 0xB41E7BE8, 0xAB9050FF)
  const S36 := State(0xD955C3ED, 0xC7A0744D, 0x9A113939, 0x417A9C6E, 0xC533F0FF, 0x0958FF1B, 0x1AFED464, 0xB41E7BE8)
  const S37 := State(0xE142D72B, 0xD955C3ED, 0x40E89B8F, 0x9A113939, 0xD4509586, 0xC533F0FF, 0xF8D84AC7, 0x1AFED464)
  const S38 := State(0xE7250598, 0xE142D72B, 0xAB87DBB2, 0x40E89B8F, 0xC7F93FD3, 0xD4509586, 0x87FE299F, 0xF8D84AC7)
  const S39 := State(0x2F13C4AD, 0xE7250598, 0x85AE57C2, 0xAB87DBB2, 0x1A6CABC9, 0xC7F93FD3, 0xAC36A284, 0x87FE299F)
  const S40 := State(0x19F363F9, 0x2F13C4AD, 0x4A0B31CE, 0x85AE57C2, 0xC302BADB, 0x1A6CABC9, 0xFE9E3FC9, 0xAC36A284)
  const S41 := State(0x55E1DDE2, 0x19F363F9, 0x27895A5E, 0x4A0B31CE, 0x459DACCF, 0xC302BADB, 0x5E48D365, 0xFE9E3FC9)
  const S42 := State(0xD4F4EFE3, 0x55E1DDE2, 0xE6C7F233, 0x27895A5E, 0x5CFBA85A, 0x459DACCF, 0xD6DE1815, 0x5E48D365)
  const S43 := State(0x48DCBC62, 0xD4F4EFE3, 0xC3BBC4AB, 0xE6C7F233, 0x6F49C7BB, 0x5CFBA85A, 0x667A2CED, 0xD6DE1815)
  const S44 := State(0x8237B8A0, 0x48DCBC62, 0xE9DFC7A9, 0xC3BBC4AB, 0xD89D2711, 0x6F49C7BB, 0x42D2E7DD, 0x667A2CED)
  const S45 := State(0xD8685939, 0x8237B8A0, 0xB978C491, 0xE9DFC7A9, 0x8EE87DF5, 0xD89D2711, 0x3DDB7A4E, 0x42D2E7DD)
  const S46 := State(0xD2090A86, 0xD8685939, 0x6F714104, 0xB978C491, 0x2E533625, 0x8EE87DF5, 0x388EC4E9, 0x3DDB7A4E)
  const S47 := State(0xE51076B3, 0xD2090A86, 0xD0B273B0, 0x6F714104, 0xD9F89E61, 0x2E533625, 0xEFAC7743, 0x388EC4E9)
  const S48 := State(0x47C5BE50, 0xE51076B3, 0x12150DA4, 0xD0B273B0, 0x3567734E, 0xD9F89E61, 0xB1297299, 0xEFAC7743)
  const S49 := State(0xABDDBDC8, 0x47C5BE50, 0x20ED67CA, 0x12150DA4, 0x3DFCDD11, 0x3567734E, 0xF30ECFC4, 0xB1297299)
  const S50 := State(0xBD708003, 0xABDDBDC8, 0x8B7CA08F, 0x20ED67CA, 0x93494BC0, 0x3DFCDD11, 0x9A71AB3B, 0xF30ECFC4)
  const S51 := State(0x15E2F5D3, 0xBD708003, 0xBB7B9157, 0x8B7CA08F, 0xC3956C3F, 0x93494BC0, 0xE889EFE6, 0x9A71AB3B)
  const S52 := State(0x13826486, 0x15E2F5D3, 0xE100077A, 0xBB7B9157, 0xCD09A51C, 0xC3956C3F, 0x5E049A4A, 0xE889EFE6)
  const S53 := State(0x4A00ED2F, 0x13826486, 0xC5EBA62B, 0xE100077A, 0x0741F675, 0xCD09A51C, 0x61FE1CAB, 0x5E049A4A)
  const S54 := State(0xF4412E82, 0x4A00ED2F, 0x04C90C27, 0xC5EBA62B, 0x7429807C, 0x0741F675, 0x28E6684D, 0x61FE1CAB)
  const S55 := State(0x549DB4B7, 0xF4412E82, 0x01DA5E94, 0x04C90C27, 0xF6BC15ED, 0x7429807C, 0xB3A83A0F, 0x28E6684D)
  const S56 := State(0x22A79585, 0x549DB4B7, 0x825D05E8, 0x01DA5E94, 0x9D4DB19A, 0xF6BC15ED, 0x03E3A14C, 0xB3A83A0F)
  const S57 := State(0x30245B78, 0x22A79585, 0x3B696EA9, 0x825D05E8, 0xF6804C82, 0x9D4DB19A, 0xAF6FB5E0, 0x03E3A14C)
  const S58 := State(0x6598314F, 0x30245B78, 0x4F2B0A45, 0x3B696EA9, 0xF522ADB2, 0xF6804C82, 0x8CD4EA6D, 0xAF6FB5E0)
  const S59 := State(0xC3D629A9, 0x6598314F, 0x48B6F060, 0x4F2B0A45, 0x14FB0764, 0xF522ADB2, 0x6417B402, 0x8CD4EA6D)
  const S60 := State(0xDDB0A26A, 0xC3D629A9, 0x30629ECB, 0x48B6F060, 0x589F7D5C, 0x14FB0764, 0x6D97A915, 0x6417B402)
  const S61 := State(0x71034D71, 0xDDB0A26A, 0xAC535387, 0x30629ECB, 0x14D5C7F6, 0x589F7D5C, 0x3B20A7D8, 0x6D97A915)
  const S62 := State(0x5E636B4B, 0x71034D71, 0x6144D5BB, 0xAC535387, 0x09CCD95E, 0x14D5C7F6, 0xEAE2C4FB, 0x3B20A7D8)
  const S63 := State(0x2BFA5F60, 0x5E636B4B, 0x069AE2E2, 0x6144D5BB, 0x4AC3CF08, 0x09CCD95E, 0x3FB0A6AE, 0xEAE2C4FB)
  const S64 := State(0x1547E69B, 0x2BFA5F60, 0xC6D696BC, 0x069AE2E2, 0xE808F43B, 0x4AC3CF08, 0xCAF04E66, 0x3FB0A6AE)

  lemma Round0() ensures Round(S0, 0, 0x61626380, Xor(0x61626380, 0x00000000)) == S1
  { assert SS1(0x7380166F, 0xA96F30BC, 0) == 0x51368692; hide SS1; }
  lemma Round1() ensures Round(S1, 1, 0x00000000, Xor(0x00000000, 0x00000000)) == S2
  { assert SS1(0xB9EDC12B, 0xB2AD29F4, 1) == 0x2C37E241; hide SS1; }
  lemma Round2() ensures Round(S2, 2, 0x00000000, Xor(0x00000000, 0x00000000)) == S3
  { assert SS1(0xEA52428C, 0xAC353A23, 2) == 0xC78E96DB; hide SS1; }
  lemma Round3() ensures Round(S3, 3, 0x00000000, Xor(0x00000000, 0x00000000)) == S4
  { assert SS1(0x609F2850, 0xD33AD5FB, 3) == 0x110267CA; hide SS1; }
  lemma Round4() ensures Round(S4, 4, 0x00000000, Xor(0x00000000, 0x00000000)) == S5
  { assert SS1(0x35037E59, 0xB8204B5F, 4) == 0x65182346; hide SS1; }
  lemma Round5() ensures Round(S5, 5, 0x00000000, Xor(0x00000000, 0x00000000)) == S6
  { assert SS1(0x1F995766, 0x8AD212EA, 5) == 0xE88C092C; hide SS1; }
  lemma Round6() ensures Round(S6, 6, 0x00000000, Xor(0x00000000, 0x00000000)) == S7
  { assert SS1(0x374A0CA7, 0xACF0F639, 6) == 0x665805E0; hide SS1; }
  lemma Round7() ensures Round(S7, 7, 0x00000000, Xor(0x00000000, 0x00000000)) == S8
  { assert SS1(0x33130100, 0x3391EC8A, 7) == 0xE23E3BA4; hide SS1; }
  lemma Round8() ensures Round(S8, 8, 0x00000000, Xor(0x00000000, 0x00000000)) == S9
  { assert SS1(0x1022AC97, 0x367250A1, 8) == 0xC06D8E16; hide SS1; }
  lemma Round9() ensures Round(S9, 9, 0x00000000, Xor(0x00000000, 0x00000000)) == S10
  { assert SS1(0xD47CAF4C, 0x6AD473A4, 9) == 0x29B9EF67; hide SS1; }
  lemma Round10() ensures Round(S10, 10, 0x00000000, Xor(0x00000000, 0x00000000)) == S11
  { assert SS1(0x59C2744B, 0xC6A3CEAE, 10) == 0x7E75188F; hide SS1; }
  lemma Round11() ensures Round(S11, 11, 0x00000000, Xor(0x00000000, 0x00000018)) == S12
  { assert SS1(0x481BA2A0, 0x02AFB727, 11) == 0x8143BB0F; hide SS1; }
  lemma Round12() ensures Round(S12, 12, 0x00000000, Xor(0x00000000, 0x9092E200)) == S13
  { assert SS1(0x694A3D09, 0x9DD1B58C, 12) == 0xF9F1DE02; hide SS1; }
  lemma Round13() ensures Round(S13, 13, 0x00000000, Xor(0x00000000, 0x00000000)) == S14
  { assert SS1(0x89CBCD58, 0x6370DB62, 13) == 0x74C99BD4; hide SS1; }
  lemma Round14() ensures Round(S14, 14, 0x00000000, Xor(0x00000000, 0x000C0606)) == S15
  { assert SS1(0x24C95ABC, 0x1A4A2554, 14) == 0x9E2309E0; hide SS1; }
  lemma Round15() ensures Round(S15, 15, 0x00000018, Xor(0x00000018, 0x719C70ED)) == S16
  { assert SS1(0x7C529778, 0x3EE95933, 15) == 0x76CEEF45; hide SS1; }
  lemma Round16() ensures Round(S16, 16, 0x9092E200, Xor(0x9092E200, 0x00000000)) == S17
  { assert SS1(0x34D1691E, 0x61F99646, 16) == 0x0AFA0D0B; hide SS1; }
  lemma Round17() ensures Round(S17, 17, 0x00000000, Xor(0x00000000, 0x8001801F)) == S18
  { assert SS1(0x796AFAB1, 0x067550F5, 17) == 0x9AAECD78; hide SS1; }
  lemma Round18() ensures Round(S18, 18, 0x000C0606, Xor(0x000C0606, 0x939F7DA9)) == S19
  { assert SS1(0x7D27CC0E, 0xB3C8669B, 18) == 0x599C45D3; hide SS1; }
  lemma Round19() ensures Round(S19, 19, 0x719C70ED, Xor(0x719C70ED, 0x00000000)) == S20
  { assert SS1(0xD7820AD1, 0x575C37D8, 19) == 0x2E94C632; hide SS1; }
  lemma Round20() ensures Round(S20, 20, 0x00000000, Xor(0x00000000, 0x2C6FA1F9)) == S21
  { assert SS1(0xF84FD372, 0xA5DCEAF1, 20) == 0xDDE1773D; hide SS1; }
  lemma Round21() ensures Round(S21, 21, 0x8001801F, Xor(0x8001801F, 0xADAAEF14)) == S22
  { assert SS1(0x02C57896, 0x74576681, 21) == 0x980BD03E; hide SS1; }
  lemma Round22() ensures Round(S22, 22, 0x939F7DA9, Xor(0x939F7DA9, 0x00000000)) == S23
  { assert SS1(0x4D0C2FCD, 0x576F1D09, 22) == 0x8549E03E; hide SS1; }
  lemma Round23() ensures Round(S23, 23, 0x00000000, Xor(0x00000000, 0x0001801E)) == S24
  { assert SS1(0xEEEEC41A, 0xB5523911, 23) == 0x6895E6B3; hide SS1; }
  lemma Round24() ensures Round(S24, 24, 0x2C6FA1F9, Xor(0x2C6FA1F9, 0x9A965F89)) == S25
  { assert SS1(0xF368DA78, 0x6A879032, 24) == 0x54D382C1; hide SS1; }
  lemma Round25() ensures Round(S25, 25, 0xADAAEF14, Xor(0xADAAEF14, 0x49710048)) == S26
  { assert SS1(0x15CE1286, 0x62063354, 25) == 0x11D1F5AC; hide SS1; }
  lemma Round26() ensures Round(S26, 26, 0x00000000, Xor(0x00000000, 0x23CE86A1)) == S27
  { assert SS1(0xC3FD31C2, 0x4DB58F43, 26) == 0x5DECFC25; hide SS1; }
  lemma Round27() ensures Round(S27, 27, 0x0001801E, Xor(0x0001801E, 0xB2D12F1B)) == S28
  { assert SS1(0x6243BE5E, 0x131152FE, 27) == 0x65BB0751; hide SS1; }
  lemma Round28() ensures Round(S28, 28, 0x9A965F89, Xor(0x9A965F89, 0xE1DAE338)) == S29
  { assert SS1(0xA549BEAA, 0xCF65E309, 28) == 0x7C839A89; hide SS1; }
  lemma Round29() ensures Round(S29, 29, 0x49710048, Xor(0x49710048, 0xF8061807)) == S30
  { assert SS1(0xE11EB847, 0xE5B64E96, 29) == 0x45E02C10; hide SS1; }
  lemma Round30() ensures Round(S30, 30, 0x23CE86A1, Xor(0x23CE86A1, 0x055D68BE)) == S31
  { assert SS1(0xFF9BAC9D, 0x9811B46D, 30) == 0xBEBDE478; hide SS1; }
  lemma Round31() ensures Round(S31, 31, 0xB2D12F1B, Xor(0xB2D12F1B, 0x86CFD481)) == S32
  { assert SS1(0xA5A4A2B3, 0xE92DF4EA, 31) == 0x4E7F04B8; hide SS1; }
  lemma Round32() ensures Round(S32, 32, 0xE1DAE338, Xor(0xE1DAE338, 0x1F447D83)) == S33
  { assert SS1(0x89A13E59, 0x0A1FF572, 32) == 0x4695CB4C; hide SS1; }
  lemma Round33() ensures Round(S33, 33, 0xF8061807, Xor(0xF8061807, 0xD9023DBF)) == S34
  { assert SS1(0x3720BD4E, 0xCF7D1683, 33) == 0x309A84E8; hide SS1; }
  lemma Round34() ensures Round(S34, 34, 0x055D68BE, Xor(0x055D68BE, 0x185898E0)) == S35
  { assert SS1(0x9CCD089C, 0xDA8C835F, 34) == 0x9A61AA4A; hide SS1; }
  lemma Round35() ensures Round(S35, 35, 0x86CFD481, Xor(0x86CFD481, 0xE0061807)) == S36
  { assert SS1(0xC7A0744D, 0x0958FF1B, 35) == 0x6D63F472; hide SS1; }
  lemma Round36() ensures Round(S36, 36, 0x1F447D83, Xor(0x1F447D83, 0x050DF55C)) == S37
  { assert SS1(0xD955C3ED, 0xC533F0FF, 36) == 0xF6539DE4; hide SS1; }
  lemma Round37() ensures Round(S37, 37, 0xD9023DBF, Xor(0xD9023DBF, 0xCDE0104C)) == S38
  { assert SS1(0xE142D72B, 0xD4509586, 37) == 0x5B8274A9; hide SS1; }
  lemma Round38() ensures Round(S38, 38, 0x185898E0, Xor(0x185898E0, 0xA5B9C955)) == S39
  { assert SS1(0xE7250598, 0xC7F93FD3, 38) == 0x1D1871DD; hide SS1; }
  lemma Round39() ensures Round(S39, 39, 0xE0061807, Xor(0xE0061807, 0xA7DF0184)) == S40
  { assert SS1(0x2F13C4AD, 0x1A6CABC9, 39) == 0x4321FBCD; hide SS1; }
  lemma Round40() ensures Round(S40, 40, 0x050DF55C, Xor(0x050DF55C, 0x6E46CD08)) == S41
  { assert SS1(0x19F363F9, 0xC302BADB, 40) == 0x6FEB7A40; hide SS1; }
  lemma Round41() ensures Round(S41, 41, 0xCDE0104C, Xor(0xCDE0104C, 0xE3BABDF8)) == S42
  { assert SS1(0x55E1DDE2, 0x459DACCF, 41) == 0x5B739139; hide SS1; }
  lemma Round42() ensures Round(S42, 42, 0xA5B9C955, Xor(0xA5B9C955, 0x70CAA422)) == S43
  { assert SS1(0xD4F4EFE3, 0x5CFBA85A, 42) == 0x3807C9E5; hide SS1; }
  lemma Round43() ensures Round(S43, 43, 0xA7DF0184, Xor(0xA7DF0184, 0x0353AF50)) == S44
  { assert SS1(0x48DCBC62, 0x6F49C7BB, 43) == 0xFE200E3B; hide SS1; }
  lemma Round44() ensures Round(S44, 44, 0x6E46CD08, Xor(0x6E46CD08, 0xA92DBCA1)) == S45
  { assert SS1(0x8237B8A0, 0xD89D2711, 44) == 0xFFEB6E66; hide SS1; }
  lemma Round45() ensures Round(S45, 45, 0xE3BABDF8, Xor(0xE3BABDF8, 0x5F33CFD2)) == S46
  { assert SS1(0xD8685939, 0x8EE87DF5, 45) == 0x16B56584; hide SS1; }
  lemma Round46() ensures Round(S46, 46, 0x70CAA422, Xor(0x70CAA422, 0xE16F6E89)) == S47
  { assert SS1(0xD2090A86, 0x2E533625, 46) == 0x2F20F353; hide SS1; }
  lemma Round47() ensures Round(S47, 47, 0x0353AF50, Xor(0x0353AF50, 0xF70FE941)) == S48
  { assert SS1(0xE51076B3, 0xD9F89E61, 47) == 0x148CFAD8; hide SS1; }
  lemma Round48() ensures Round(S48, 48, 0xA92DBCA1, Xor(0xA92DBCA1, 0xCA5462DC)) == S49
  { assert SS1(0x47C5BE50, 0x3567734E, 48) == 0x6B792897; hide SS1; }
  lemma Round49() ensures Round(S49, 49, 0x5F33CFD2, Xor(0x5F33CFD2, 0x85A90152)) == S50
  { assert SS1(0xABDDBDC8, 0x3DFCDD11, 49) == 0x772E6EAA; hide SS1; }
  lemma Round50() ensures Round(S50, 50, 0xE16F6E89, Xor(0xE16F6E89, 0x76AF6296)) == S51
  { assert SS1(0xBD708003, 0x93494BC0, 50) == 0xB9B8DA88; hide SS1; }
  lemma Round51() ensures Round(S51, 51, 0xF70FE941, Xor(0xF70FE941, 0xC922BDB2)) == S52
  { assert SS1(0x15E2F5D3, 0xC3956C3F, 51) == 0xA338ECEF; hide SS1; }
  lemma Round52() ensures Round(S52, 52, 0xCA5462DC, Xor(0xCA5462DC, 0x68378CF5)) == S53
  { assert SS1(0x13826486, 0xCD09A51C, 52) == 0xFCD766E5; hide SS1; }
  lemma Round53() ensures Round(S53, 53, 0x85A90152, Xor(0x85A90152, 0x97585344)) == S54
  { assert SS1(0x4A00ED2F, 0x0741F675, 53) == 0xB21E0463; hide SS1; }
  lemma Round54() ensures Round(S54, 54, 0x76AF6296, Xor(0x76AF6296, 0x09008723)) == S55
  { assert SS1(0xF4412E82, 0x7429807C, 54) == 0xD828D3F4; hide SS1; }
  lemma Round55() ensures Round(S55, 55, 0xC922BDB2, Xor(0xC922BDB2, 0x86FAEE74)) == S56
  { assert SS1(0x549DB4B7, 0xF6BC15ED, 55) == 0xA267824B; hide SS1; }
  lemma Round56() ensures Round(S56, 56, 0x68378CF5, Xor(0x68378CF5, 0x2AB908B0)) == S57
  { assert SS1(0x22A79585, 0x9D4DB19A, 56) == 0x9045B0D0; hide SS1; }
  lemma Round57() ensures Round(S57, 57, 0x97585344, Xor(0x97585344, 0x4A64BC50)) == S58
  { assert SS1(0x30245B78, 0xF6804C82, 57) == 0x966F5FA8; hide SS1; }
  lemma Round58() ensures Round(S58, 58, 0x09008723, Xor(0x09008723, 0x864E6E08)) == S59
  { assert SS1(0x6598314F, 0xF522ADB2, 58) == 0x10E140D1; hide SS1; }
  lemma Round59() ensures Round(S59, 59, 0x86FAEE74, Xor(0x86FAEE74, 0xF07E6590)) == S60
  { assert SS1(0xC3D629A9, 0x14FB0764, 59) == 0xB4F046E5; hide SS1; }
  lemma Round60() ensures Round(S60, 60, 0x2AB908B0, Xor(0x2AB908B0, 0x325C8F78)) == S61
  { assert SS1(0xDDB0A26A, 0x589F7D5C, 60) == 0x37528785; hide SS1; }
  lemma Round61() ensures Round(S61, 61, 0x4A64BC50, Xor(0x4A64BC50, 0xACCB8011)) == S62
  { assert SS1(0x71034D71, 0x14D5C7F6, 61) == 0x7EE95BCC; hide SS1; }
  lemma Round62() ensures Round(S62, 62, 0x864E6E08, Xor(0x864E6E08, 0xE11DB9DD)) == S63
  { assert SS1(0x5E636B4B, 0x09CCD95E, 62) == 0x91BB536F; hide SS1; }
  lemma Round63() ensures Round(S63, 63, 0xF07E6590, Xor(0xF07E6590, 0xB99C0545)) == S64
  { assert SS1(0x2BFA5F60, 0x4AC3CF08, 63) == 0xFED04616; hide SS1; }

  lemma Rounds0To15(w: seq<Word>)
    requires Listed0(w) && Listed16(w) && Rounds(IV, w, 0) == S0
    ensures Rounds(IV, w, 16) == S16
  {
    hide Round, Xor;
    Round0();
    assert Rounds(IV, w, 1) == S1;
    Round1();
    assert Rounds(IV, w, 2) == S2;
    Round2();
    assert Rounds(IV, w, 3) == S3;
    Round3();
    assert Rounds(IV, w, 4) == S4;
    Round4();
    assert Rounds(IV, w, 5) == S5;
    Round5();
    assert Rounds(IV, w, 6) == S6;
    Round6();
    assert Rounds(IV, w, 7) == S7;
    Round7();
    assert Rounds(IV, w, 8) == S8;
    Round8();
    assert Rounds(IV, w, 9) == S9;
    Round9();
    assert Rounds(IV, w, 10) == S10;
    Round10();
    assert Rounds(IV, w, 11) == S11;
    Round11();
    assert Rounds(IV, w, 12) == S12;
    Round12();
    assert Rounds(IV, w, 13) == S13;
    Round13();
    assert Rounds(IV, w, 14) == S14;
    Round14();
    assert Rounds(IV, w, 15) == S15;
    Round15();
  }

  lemma Rounds16To31(w: seq<Word>)
    requires Listed16(w) && Listed32(w) && Rounds(IV, w, 16) == S16
    ensures Rounds(IV, w, 32) == S32
  {
    hide Round, Xor;
    Round16();
    assert Rounds(IV, w, 17) == S17;
    Round17();
    assert Rounds(IV, w, 18) == S18;
    Round18();
    assert Rounds(IV, w, 19) == S19;
    Round19();
    assert Rounds(IV, w, 20) == S20;
    Round20();
    assert Rounds(IV, w, 21) == S21;
    Round21();
    assert Rounds(IV, w, 22) == S22;
    Round22();
    assert Rounds(IV, w, 23) == S23;
    Round23();
    assert Rounds(IV, w, 24) == S24;
    Round24();
    assert Rounds(IV, w, 25) == S25;
    Round25();
    assert Rounds(IV, w, 26) == S26;
    Round26();
    assert Rounds(IV, w, 27) == S27;
    Round27();
    assert Rounds(IV, w, 28) == S28;
    Round28();
    assert Rounds(IV, w, 29) == S29;
    Round29();
    assert Rounds(IV, w, 30) == S30;
    Round30();
    assert Rounds(IV, w, 31) == S31;
    Round31();
  }

  lemma Rounds32To47(w: seq<Word>)
    requires Listed32(w) && Listed48(w) && Rounds(IV, w, 32) == S32
    ensures Rounds(IV, w, 48) == S48
  {
    hide Round, Xor;
    Round32();
    assert Rounds(IV, w, 33) == S33;
    Round33();
    assert Rounds(IV, w, 34) == S34;
    Round34();
    assert Rounds(IV, w, 35) == S35;
    Round35();
    assert Rounds(IV, w, 36) == S36;
    Round36();
    assert Rounds(IV, w, 37) == S37;
    Round37();
    assert Rounds(IV, w, 38) == S38;
    Round38();
    assert Rounds(IV, w, 39) == S39;
    Round39();
    assert Rounds(IV, w, 40) == S40;
    Round40();
    assert Rounds(IV, w, 41) == S41;
    Round41();
    assert Rounds(IV, w, 42) == S42;
    Round42();
    assert Rounds(IV, w, 43) == S43;
    Round43();
    assert Rounds(IV, w, 44) == S44;
    Round44();
    assert Rounds(IV, w, 45) == S45;
    Round45();
    assert Rounds(IV, w, 46) == S46;
    Round46();
    assert Rounds(IV, w, 47) == S47;
    Round47();
  }

  lemma Rounds48To63(w: seq<Word>)
    requires Listed48(w) && Listed64(w) && Rounds(IV, w, 48) == S48
    ensures Rounds(IV, w, 64) == S64
  {
    hide Round, Xor;
    Round48();
    assert Rounds(IV, w, 49) == S49;
    Round49();
    assert Rounds(IV, w, 50) == S50;
    Round50();
    assert Rounds(IV, w, 51) == S51;
    Round51();
    assert Rounds(IV, w, 52) == S52;
    Round52();
    assert Rounds(IV, w, 53) == S53;
    Round53();
    assert Rounds(IV, w, 54) == S54;
    Round54();
    assert Rounds(IV, w, 55) == S55;
    Round55();
    assert Rounds(IV, w, 56) == S56;
    Round56();
    assert Rounds(IV, w, 57) == S57;
    Round57();
    assert Rounds(IV, w, 58) == S58;
    Round58();
    assert Rounds(IV, w, 59) == S59;
    Round59();
    assert Rounds(IV, w, 60) == S60;
    Round60();
    assert Rounds(IV, w, 61) == S61;
    Round61();
    assert Rounds(IV, w, 62) == S62;
    Round62();
    assert Rounds(IV, w, 63) == S63;
    Round63();
  }

  // ---------------------------------------------------------------- block and digest

  const ABC: seq<byte> := [0x61, 0x62, 0x63]

  /** The one block of the padded message. */
  ghost predicate IsAbcBlock(b: Block) {
    b[0] == 0x61626380 && (forall i :: 1 <= i < 15 ==> b[i] == 0) && b[15] == 0x18
  }

  const ABC_STATE :=
    State(0x66C7F0F4, 0x62EEEDD9, 0xD1F2D46B, 0xDC10E4E2, 0x4167C487, 0x5CF2F7A2, 0x297DA02B, 0x8F4BA8E0)

  const ABC_DIGEST: seq<byte> := [
    0x66, 0xC7, 0xF0, 0xF4, 0x62, 0xEE, 0xED, 0xD9, 0xD1, 0xF2, 0xD4, 0x6B, 0xDC, 0x10, 0xE4, 0xE2,
    0x41, 0x67, 0xC4, 0x87, 0x5C, 0xF2, 0xF7, 0xA2, 0x29, 0x7D, 0xA0, 0x2B, 0x8F, 0x4B, 0xA8, 0xE0
  ]

  lemma ReadZero(s: seq<byte>, off: nat)
    requires off + 4 <= |s| && s[off] == s[off + 1] == s[off + 2] == s[off + 3] == 0
    ensures ReadBe32(s, off) == 0
  {
  }

  lemma ReadFirst(s: seq<byte>)
    requires 4 <= |s| && s[0] == 0x61 && s[1] == 0x62 && s[2] == 0x63 && s[3] == 0x80
    ensures ReadBe32(s, 0) == 0x61626380
  {
  }

  lemma ReadLast(s: seq<byte>, off: nat)
    requires off + 4 <= |s| && s[off] == s[off + 1] == s[off + 2] == 0 && s[off + 3] == 0x18
    ensures ReadBe32(s, off) == 0x18
  {
  }

  lemma {:induction false} NoBytes(k: nat)
    ensures BeBytes(0, k) == Zeros(k)
  {
    if k > 0 {
      NoBytes(k - 1);
    }
  }

  lemma AbcLength()
    ensures BeBytes(24, 8) == [0, 0, 0, 0, 0, 0, 0, 0x18]
  {
    NoBytes(7);
    assert BeBytes(24, 8) == BeBytes(0, 7) + [0x18];
    hide BeBytes;
  }

  /** The message of three bytes, the mark, 52 zero bytes and the length in bits. */
  lemma AbcPadded()
    ensures var m := Pad(ABC); |m| == 64 && m[..4] == ABC + [0x80] && m[4..63] == Zeros(59) && m[63] == 0x18
  {
    AbcLength();
    hide BeBytes, Zeros;
    assert ZeroCount(3) == 52;
    var m := Pad(ABC);
    assert forall i :: 4 <= i < 63 ==> m[i] == 0;
  }

  lemma AbcBlock()
    ensures |Pad(ABC)| == 64 && IsAbcBlock(BlockAt(Pad(ABC), 0))
  {
    AbcPadded();
    hide ReadBe32, Pad;
    var m := Pad(ABC);
    assert m[0] == m[..4][0] && m[1] == m[..4][1] && m[2] == m[..4][2] && m[3] == m[..4][3];
    assert forall i :: 4 <= i < 63 ==> m[i] == m[4..63][i - 4];
    ReadFirst(m);
    ReadLast(m, 60);
    forall i | 1 <= i < 15
      ensures ReadBe32(m, i * 4) == 0
    {
      ReadZero(m, i * 4);
    }
  }

  lemma AbcCompressed(b: Block)
    requires IsAbcBlock(b)
    ensures CF(IV, b) == ABC_STATE
  {
    hide IsAbcBlock, Expand, Rounds, Feed, Listed0, Listed16, Listed32, Listed48, Listed64;
    var w := Expand(b, 68);
    ExpandStart(b, 68);
    Words0To15(b, w);
    Words16To31(b, w);
    Words32To47(b, w);
    Words48To63(b, w);
    Words64To67(b, w);
    NoRounds(w);
    Rounds0To15(w);
    Rounds16To31(w);
    Rounds32To47(w);
    Rounds48To63(w);
    AbcFeed();
  }

  lemma Words0To15(b: Block, w: seq<Word>)
    requires IsAbcBlock(b) && |w| == 68 && w[..16] == b
    ensures Listed0(w)
  {
    assert w[0] == b[0] && w[15] == b[15];
    forall i | 1 <= i < 15
      ensures w[i] == 0
    {
      assert w[i] == b[i];
    }
  }

  lemma NoRounds(w: seq<Word>)
    requires |w| == 68
    ensures Rounds(IV, w, 0) == S0
  {
  }

  lemma AbcFeed()
    ensures Feed(IV, S64) == ABC_STATE
  {
  }

  lemma AbcBytes()
    ensures StateBytes(ABC_STATE) == ABC_DIGEST
  {
  }

  /** The digest the standard publishes. */
  lemma AbcDigest()
    ensures Digest([0x61, 0x62, 0x63]) == ABC_DIGEST
  {
    hide CF, Pad, BlockAt, StateBytes;
    AbcBlock();
    AbcBytes();
    var m := Pad(ABC);
    AbcCompressed(BlockAt(m, 0));
    assert Chain(m, 0) == IV && 64 * 0 == 0;
    assert Chain(m, 1) == CF(IV, BlockAt(m, 0));
  }
}
