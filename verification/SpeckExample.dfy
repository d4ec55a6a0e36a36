/** The published SPECK128/256 test vector (IACR ePrint 2013/404): every schedule word, round key and block. */
module SpeckExample {
  import opened Words64
  import opened Ladon
  import R = Rounds

  // ---------------------------------------------------------------- the key schedule

  lemma Index0() ensures Index(0) == 0 && (0 as Word) as nat == 0 {}
  lemma Index1() ensures Index(1) == 1 && (1 as Word) as nat == 1 {}
  lemma Index2() ensures Index(2) == 2 && (2 as Word) as nat == 2 {}
  lemma Index3() ensures Index(3) == 3 && (3 as Word) as nat == 3 {}
  lemma Index4() ensures Index(4) == 4 && (4 as Word) as nat == 4 {}
  lemma Index5() ensures Index(5) == 5 && (5 as Word) as nat == 5 {}
  lemma Index6() ensures Index(6) == 6 && (6 as Word) as nat == 6 {}
  lemma Index7() ensures Index(7) == 7 && (7 as Word) as nat == 7 {}
  lemma Index8() ensures Index(8) == 8 && (8 as Word) as nat == 8 {}
  lemma Index9() ensures Index(9) == 9 && (9 as Word) as nat == 9 {}
  lemma Index10() ensures Index(10) == 10 && (10 as Word) as nat == 10 {}
  lemma Index11() ensures Index(11) == 11 && (11 as Word) as nat == 11 {}
  lemma Index12() ensures Index(12) == 12 && (12 as Word) as nat == 12 {}
  lemma Index13() ensures Index(13) == 13 && (13 as Word) as nat == 13 {}
  lemma Index14() ensures Index(14) == 14 && (14 as Word) as nat == 14 {}
  lemma Index15() ensures Index(15) == 15 && (15 as Word) as nat == 15 {}
  lemma Index16() ensures Index(16) == 16 && (16 as Word) as nat == 16 {}
  lemma Index17() ensures Index(17) == 17 && (17 as Word) as nat == 17 {}
  lemma Index18() ensures Index(18) == 18 && (18 as Word) as nat == 18 {}
  lemma Index19() ensures Index(19) == 19 && (19 as Word) as nat == 19 {}
  lemma Index20() ensures Index(20) == 20 && (20 as Word) as nat == 20 {}
  lemma Index21() ensures Index(21) == 21 && (21 as Word) as nat == 21 {}
  lemma Index22() ensures Index(22) == 22 && (22 as Word) as nat == 22 {}
  lemma Index23() ensures Index(23) == 23 && (23 as Word) as nat == 23 {}
  lemma Index24() ensures Index(24) == 24 && (24 as Word) as nat == 24 {}
  lemma Index25() ensures Index(25) == 25 && (25 as Word) as nat == 25 {}
  lemma Index26() ensures Index(26) == 26 && (26 as Word) as nat == 26 {}
  lemma Index27() ensures Index(27) == 27 && (27 as Word) as nat == 27 {}
  lemma Index28() ensures Index(28) == 28 && (28 as Word) as nat == 28 {}
  lemma Index29() ensures Index(29) == 29 && (29 as Word) as nat == 29 {}
  lemma Index30() ensures Index(30) == 30 && (30 as Word) as nat == 30 {}
  lemma Index31() ensures Index(31) == 31 && (31 as Word) as nat == 31 {}
  lemma Index32() ensures Index(32) == 32 && (32 as Word) as nat == 32 {}
  lemma Index33() ensures Index(33) == 33 && (33 as Word) as nat == 33 {}

  /** The steps are numbered from zero. */
  lemma IndexIs(i: nat)
    requires i < ROUNDS
    ensures Index(i) as nat == i
  {
    hide Index;
    match i {
      case 0 => Index0();
      case 1 => Index1();
      case 2 => Index2();
      case 3 => Index3();
      case 4 => Index4();
      case 5 => Index5();
      case 6 => Index6();
      case 7 => Index7();
      case 8 => Index8();
      case 9 => Index9();
      case 10 => Index10();
      case 11 => Index11();
      case 12 => Index12();
      case 13 => Index13();
      case 14 => Index14();
      case 15 => Index15();
      case 16 => Index16();
      case 17 => Index17();
      case 18 => Index18();
      case 19 => Index19();
      case 20 => Index20();
      case 21 => Index21();
      case 22 => Index22();
      case 23 => Index23();
      case 24 => Index24();
      case 25 => Index25();
      case 26 => Index26();
      case 27 => Index27();
      case 28 => Index28();
      case 29 => Index29();
      case 30 => Index30();
      case 31 => Index31();
      case 32 => Index32();
      case _ => Index33();
    }
  }

  const KEY: MasterKey := [0x0706050403020100, 0x0F0E0D0C0B0A0908, 0x1716151413121110, 0x1F1E1D1C1B1A1918]

  ghost predicate Follows(s: Schedule, i: nat)
    requires i < ROUNDS && i + 1 < |s.k| && i + 3 < |s.l|
  {
    s.l[i + 3] == LWord(s.k[i], s.l[i], Index(i)) && s.k[i + 1] == KWord(s.k[i], s.l[i + 3])
  }

  lemma {:induction false} SpeckFollows(m: MasterKey, n: nat, i: nat)
    requires i < n <= ROUNDS
    ensures Follows(Speck(m, n), i)
  {
    hide LWord, KWord, Index;
    if i < n - 1 {
      SpeckFollows(m, n - 1, i);
    }
  }

  lemma {:induction false} SpeckStarts(m: MasterKey, n: nat)
    requires n <= ROUNDS
    ensures Speck(m, n).k[0] == m[0] && Speck(m, n).l[..3] == m[1..]
  {
    hide LWord, KWord, Index;
    if n > 0 {
      SpeckStarts(m, n - 1);
    }
  }

  ghost predicate Listed0(s: Schedule) {
    && |s.k| == 35 && |s.l| == 37
    && s.k[0] == 0x0706050403020100 && s.k[1] == 0x37253B31171D0309 && s.k[2] == 0xFE1588CE93D80D52
    && s.k[3] == 0xE698E09F31334DFE && s.k[4] == 0xDB60F14BCBD834FD && s.k[5] == 0x2DAFA7C34CC2C2F8
    && s.k[6] == 0xFBB8E2705E64A1DB && s.k[7] == 0xDB6F99E4E383EAEF && s.k[8] == 0x291A8D359C8AB92D
    && s.k[9] == 0x0B653ABEE296E282 && s.k[10] == 0x604236BE5C109D7F && s.k[11] == 0xB62528F28E15D89C
    && s.k[12] == 0x10419DD1D0B25F29 && s.k[13] == 0xFD71E73B9C69FFF6 && s.k[14] == 0x8EA922047F976E93
    && s.k[15] == 0x2E039AFD398CFFBC && s.k[16] == 0x9C9FCFEF22C1072C && s.k[17] == 0x25FA8973ED55E6C9
    && s.l[0] == 0x0F0E0D0C0B0A0908 && s.l[1] == 0x1716151413121110 && s.l[2] == 0x1F1E1D1C1B1A1918
    && s.l[3] == 0x0F1513110F0D0B09 && s.l[4] == 0x473C51462B30151B && s.l[5] == 0x1634A6EBAFF32769
    && s.l[6] == 0xEFA7F5B242425B0A && s.l[7] == 0xF6A82D9D12036516 && s.l[8] == 0x96C5DC6A3872B61A
    && s.l[9] == 0x06A88A6610A6E430 && s.l[10] == 0xF26642128095EE53 && s.l[11] == 0x43B1531206C32BEB
    && s.l[12] == 0x3B6BE34948A7896F && s.l[13] == 0xB4349D006E913367 && s.l[14] == 0xA168DA45A01C9BCC
    && s.l[15] == 0x7F7D09B519FB06BE && s.l[16] == 0x65261BD89CD89124 && s.l[17] == 0x5B4A8ADEC5378B20
    && s.l[18] == 0xEC831806EEA6FACD && s.l[19] == 0xC104F60AFB5DDFAD
  }

  ghost predicate Listed17(s: Schedule) {
    && |s.k| == 35 && |s.l| == 37
    && s.k[17] == 0x25FA8973ED55E6C9 && s.k[18] == 0x69819861A6B4280C && s.k[19] == 0x7B62D87498038F77
    && s.k[20] == 0xF2351ECE62E296FE && s.k[21] == 0xA6D382D176BA05FF && s.k[22] == 0x8D96E66745B78726
    && s.k[23] == 0xBE77397E9DE6BF31 && s.k[24] == 0x35177F07AF7D9479 && s.k[25] == 0xB86971C5E7815FF0
    && s.k[26] == 0x7D77BFFF103B45EA && s.k[27] == 0x9983914C82A1A11E && s.k[28] == 0x1E88E9B26E3307F5
    && s.k[29] == 0x7A0068774FC7061B && s.k[30] == 0x1771E55C7DF2B16F && s.k[31] == 0xA2CB5323BBF86418
    && s.k[32] == 0x400303547FF5E38B && s.k[33] == 0xF4D26F589A56B276 && s.k[34] == 0xF278C916881EB3F3
    && s.l[17] == 0x5B4A8ADEC5378B20 && s.l[18] == 0xEC831806EEA6FACD && s.l[19] == 0xC104F60AFB5DDFAD
    && s.l[20] == 0x4655D3FECC1B1E45 && s.l[21] == 0x376E1B79ADA2CF14 && s.l[22] == 0x2923DD6AA2FEED45
    && s.l[23] == 0x377B74A261AEB208 && s.l[24] == 0xBB0AF0ECF067A8DB && s.l[25] == 0xD2C00A44B05A8605
    && s.l[26] == 0xC6AEB4F340486DF4 && s.l[27] == 0x10D289F89C6DFC39 && s.l[28] == 0xBE3C31D02C31BA6F
    && s.l[29] == 0x723E6EB4037B8E4D && s.l[30] == 0xD29463D67B3E0F01 && s.l[31] == 0x8E4725E43E5F39B3
    && s.l[32] == 0xC772A6E603CA81B4 && s.l[33] == 0x194479C0546DEF60 && s.l[34] == 0x56599A49A036C34E
    && s.l[35] == 0xF4CA75FB65F9AE2C && s.l[36] == 0x54EBB3D25AAB2044
  }

  lemma L0() ensures LWord(0x0706050403020100, 0x0F0E0D0C0B0A0908, 0) == 0x0F1513110F0D0B09 {}
  lemma L1() ensures LWord(0x37253B31171D0309, 0x1716151413121110, 1) == 0x473C51462B30151B {}
  lemma L2() ensures LWord(0xFE1588CE93D80D52, 0x1F1E1D1C1B1A1918, 2) == 0x1634A6EBAFF32769 {}
  lemma L3() ensures LWord(0xE698E09F31334DFE, 0x0F1513110F0D0B09, 3) == 0xEFA7F5B242425B0A {}
  lemma L4() ensures LWord(0xDB60F14BCBD834FD, 0x473C51462B30151B, 4) == 0xF6A82D9D12036516 {}
  lemma L5() ensures LWord(0x2DAFA7C34CC2C2F8, 0x1634A6EBAFF32769, 5) == 0x96C5DC6A3872B61A {}
  lemma L6() ensures LWord(0xFBB8E2705E64A1DB, 0xEFA7F5B242425B0A, 6) == 0x06A88A6610A6E430 {}
  lemma L7() ensures LWord(0xDB6F99E4E383EAEF, 0xF6A82D9D12036516, 7) == 0xF26642128095EE53 {}
  lemma L8() ensures LWord(0x291A8D359C8AB92D, 0x96C5DC6A3872B61A, 8) == 0x43B1531206C32BEB {}
  lemma L9() ensures LWord(0x0B653ABEE296E282, 0x06A88A6610A6E430, 9) == 0x3B6BE34948A7896F {}
  lemma L10() ensures LWord(0x604236BE5C109D7F, 0xF26642128095EE53, 10) == 0xB4349D006E913367 {}
  lemma L11() ensures LWord(0xB62528F28E15D89C, 0x43B1531206C32BEB, 11) == 0xA168DA45A01C9BCC {}
  lemma L12() ensures LWord(0x10419DD1D0B25F29, 0x3B6BE34948A7896F, 12) == 0x7F7D09B519FB06BE {}
  lemma L13() ensures LWord(0xFD71E73B9C69FFF6, 0xB4349D006E913367, 13) == 0x65261BD89CD89124 {}
  lemma L14() ensures LWord(0x8EA922047F976E93, 0xA168DA45A01C9BCC, 14) == 0x5B4A8ADEC5378B20 {}
  lemma L15() ensures LWord(0x2E039AFD398CFFBC, 0x7F7D09B519FB06BE, 15) == 0xEC831806EEA6FACD {}
  lemma L16() ensures LWord(0x9C9FCFEF22C1072C, 0x65261BD89CD89124, 16) == 0xC104F60AFB5DDFAD {}
  lemma L17() ensures LWord(0x25FA8973ED55E6C9, 0x5B4A8ADEC5378B20, 17) == 0x4655D3FECC1B1E45 {}
  lemma L18() ensures LWord(0x69819861A6B4280C, 0xEC831806EEA6FACD, 18) == 0x376E1B79ADA2CF14 {}
  lemma L19() ensures LWord(0x7B62D87498038F77, 0xC104F60AFB5DDFAD, 19) == 0x2923DD6AA2FEED45 {}
  lemma L20() ensures LWord(0xF2351ECE62E296FE, 0x4655D3FECC1B1E45, 20) == 0x377B74A261AEB208 {}
  lemma L21() ensures LWord(0xA6D382D176BA05FF, 0x376E1B79ADA2CF14, 21) == 0xBB0AF0ECF067A8DB {}
  lemma L22() ensures LWord(0x8D96E66745B78726, 0x2923DD6AA2FEED45, 22) == 0xD2C00A44B05A8605 {}
  lemma L23() ensures LWord(0xBE77397E9DE6BF31, 0x377B74A261AEB208, 23) == 0xC6AEB4F340486DF4 {}
  lemma L24() ensures LWord(0x35177F07AF7D9479, 0xBB0AF0ECF067A8DB, 24) == 0x10D289F89C6DFC39 {}
  lemma L25() ensures LWord(0xB86971C5E7815FF0, 0xD2C00A44B05A8605, 25) == 0xBE3C31D02C31BA6F {}
  lemma L26() ensures LWord(0x7D77BFFF103B45EA, 0xC6AEB4F340486DF4, 26) == 0x723E6EB4037B8E4D {}
  lemma L27() ensures LWord(0x9983914C82A1A11E, 0x10D289F89C6DFC39, 27) == 0xD29463D67B3E0F01 {}
  lemma L28() ensures LWord(0x1E88E9B26E3307F5, 0xBE3C31D02C31BA6F, 28) == 0x8E4725E43E5F39B3 {}
  lemma L29() ensures LWord(0x7A0068774FC7061B, 0x723E6EB4037B8E4D, 29) == 0xC772A6E603CA81B4 {}
  lemma L30() ensures LWord(0x1771E55C7DF2B16F, 0xD29463D67B3E0F01, 30) == 0x194479C0546DEF60 {}
  lemma L31() ensures LWord(0xA2CB5323BBF86418, 0x8E4725E43E5F39B3, 31) == 0x56599A49A036C34E {}
  lemma L32() ensures LWord(0x400303547FF5E38B, 0xC772A6E603CA81B4, 32) == 0xF4CA75FB65F9AE2C {}
  lemma L33() ensures LWord(0xF4D26F589A56B276, 0x194479C0546DEF60, 33) == 0x54EBB3D25AAB2044 {}
  lemma K0() ensures KWord(0x0706050403020100, 0x0F1513110F0D0B09) == 0x37253B31171D0309 {}
  lemma K1() ensures KWord(0x37253B31171D0309, 0x473C51462B30151B) == 0xFE1588CE93D80D52 {}
  lemma K2() ensures KWord(0xFE1588CE93D80D52, 0x1634A6EBAFF32769) == 0xE698E09F31334DFE {}
  lemma K3() ensures KWord(0xE698E09F31334DFE, 0xEFA7F5B242425B0A) == 0xDB60F14BCBD834FD {}
  lemma K4() ensures KWord(0xDB60F14BCBD834FD, 0xF6A82D9D12036516) == 0x2DAFA7C34CC2C2F8 {}
  lemma K5() ensures KWord(0x2DAFA7C34CC2C2F8, 0x96C5DC6A3872B61A) == 0xFBB8E2705E64A1DB {}
  lemma K6() ensures KWord(0xFBB8E2705E64A1DB, 0x06A88A6610A6E430) == 0xDB6F99E4E383EAEF {}
  lemma K7() ensures KWord(0xDB6F99E4E383EAEF, 0xF26642128095EE53) == 0x291A8D359C8AB92D {}
  lemma K8() ensures KWord(0x291A8D359C8AB92D, 0x43B1531206C32BEB) == 0x0B653ABEE296E282 {}
  lemma K9() ensures KWord(0x0B653ABEE296E282, 0x3B6BE34948A7896F) == 0x604236BE5C109D7F {}
  lemma K10() ensures KWord(0x604236BE5C109D7F, 0xB4349D006E913367) == 0xB62528F28E15D89C {}
  lemma K11() ensures KWord(0xB62528F28E15D89C, 0xA168DA45A01C9BCC) == 0x10419DD1D0B25F29 {}
  lemma K12() ensures KWord(0x10419DD1D0B25F29, 0x7F7D09B519FB06BE) == 0xFD71E73B9C69FFF6 {}
  lemma K13() ensures KWord(0xFD71E73B9C69FFF6, 0x65261BD89CD89124) == 0x8EA922047F976E93 {}
  lemma K14() ensures KWord(0x8EA922047F976E93, 0x5B4A8ADEC5378B20) == 0x2E039AFD398CFFBC {}
  lemma K15() ensures KWord(0x2E039AFD398CFFBC, 0xEC831806EEA6FACD) == 0x9C9FCFEF22C1072C {}
  lemma K16() ensures KWord(0x9C9FCFEF22C1072C, 0xC104F60AFB5DDFAD) == 0x25FA8973ED55E6C9 {}
  lemma K17() ensures KWord(0x25FA8973ED55E6C9, 0x4655D3FECC1B1E45) == 0x69819861A6B4280C {}
  lemma K18() ensures KWord(0x69819861A6B4280C, 0x376E1B79ADA2CF14) == 0x7B62D87498038F77 {}
  lemma K19() ensures KWord(0x7B62D87498038F77, 0x2923DD6AA2FEED45) == 0xF2351ECE62E296FE {}
  lemma K20() ensures KWord(0xF2351ECE62E296FE, 0x377B74A261AEB208) == 0xA6D382D176BA05FF {}
  lemma K21() ensures KWord(0xA6D382D176BA05FF, 0xBB0AF0ECF067A8DB) == 0x8D96E66745B78726 {}
  lemma K22() ensures KWord(0x8D96E66745B78726, 0xD2C00A44B05A8605) == 0xBE77397E9DE6BF31 {}
  lemma K23() ensures KWord(0xBE77397E9DE6BF31, 0xC6AEB4F340486DF4) == 0x35177F07AF7D9479 {}
  lemma K24() ensures KWord(0x35177F07AF7D9479, 0x10D289F89C6DFC39) == 0xB86971C5E7815FF0 {}
  lemma K25() ensures KWord(0xB86971C5E7815FF0, 0xBE3C31D02C31BA6F) == 0x7D77BFFF103B45EA {}
  lemma K26() ensures KWord(0x7D77BFFF103B45EA, 0x723E6EB4037B8E4D) == 0x9983914C82A1A11E {}
  lemma K27() ensures KWord(0x9983914C82A1A11E, 0xD29463D67B3E0F01) == 0x1E88E9B26E3307F5 {}
  lemma K28() ensures KWord(0x1E88E9B26E3307F5, 0x8E4725E43E5F39B3) == 0x7A0068774FC7061B {}
  lemma K29() ensures KWord(0x7A0068774FC7061B, 0xC772A6E603CA81B4) == 0x1771E55C7DF2B16F {}
  lemma K30() ensures KWord(0x1771E55C7DF2B16F, 0x194479C0546DEF60) == 0xA2CB5323BBF86418 {}
  lemma K31() ensures KWord(0xA2CB5323BBF86418, 0x56599A49A036C34E) == 0x400303547FF5E38B {}
  lemma K32() ensures KWord(0x400303547FF5E38B, 0xF4CA75FB65F9AE2C) == 0xF4D26F589A56B276 {}
  lemma K33() ensures KWord(0xF4D26F589A56B276, 0x54EBB3D25AAB2044) == 0xF278C916881EB3F3 {}

  lemma Words0To17(s: Schedule)
    requires s == Speck(KEY, ROUNDS) && s.k[0] == KEY[0] && s.l[..3] == KEY[1..]
    ensures Listed0(s)
  {
    hide Speck, LWord, KWord, Index;
    assert s.l[0] == s.l[..3][0] && s.l[1] == s.l[..3][1] && s.l[2] == s.l[..3][2];
    SpeckFollows(KEY, ROUNDS, 0); Index0(); L0(); K0();
    SpeckFollows(KEY, ROUNDS, 1); Index1(); L1(); K1();
    SpeckFollows(KEY, ROUNDS, 2); Index2(); L2(); K2();
    SpeckFollows(KEY, ROUNDS, 3); Index3(); L3(); K3();
    SpeckFollows(KEY, ROUNDS, 4); Index4(); L4(); K4();
    SpeckFollows(KEY, ROUNDS, 5); Index5(); L5(); K5();
    SpeckFollows(KEY, ROUNDS, 6); Index6(); L6(); K6();
    SpeckFollows(KEY, ROUNDS, 7); Index7(); L7(); K7();
    SpeckFollows(KEY, ROUNDS, 8); Index8(); L8(); K8();
    SpeckFollows(KEY, ROUNDS, 9); Index9(); L9(); K9();
    SpeckFollows(KEY, ROUNDS, 10); Index10(); L10(); K10();
    SpeckFollows(KEY, ROUNDS, 11); Index11(); L11(); K11();
    SpeckFollows(KEY, ROUNDS, 12); Index12(); L12(); K12();
    SpeckFollows(KEY, ROUNDS, 13); Index13(); L13(); K13();
    SpeckFollows(KEY, ROUNDS, 14); Index14(); L14(); K14();
    SpeckFollows(KEY, ROUNDS, 15); Index15(); L15(); K15();
    SpeckFollows(KEY, ROUNDS, 16); Index16(); L16(); K16();
  }

  lemma Words17To34(s: Schedule)
    requires s == Speck(KEY, ROUNDS) && Listed0(s)
    ensures Listed17(s)
  {
    hide Speck, LWord, KWord, Index;
    SpeckFollows(KEY, ROUNDS, 17); Index17(); L17(); K17();
    SpeckFollows(KEY, ROUNDS, 18); Index18(); L18(); K18();
    SpeckFollows(KEY, ROUNDS, 19); Index19(); L19(); K19();
    SpeckFollows(KEY, ROUNDS, 20); Index20(); L20(); K20();
    SpeckFollows(KEY, ROUNDS, 21); Index21(); L21(); K21();
    SpeckFollows(KEY, ROUNDS, 22); Index22(); L22(); K22();
    SpeckFollows(KEY, ROUNDS, 23); Index23(); L23(); K23();
    SpeckFollows(KEY, ROUNDS, 24); Index24(); L24(); K24();
    SpeckFollows(KEY, ROUNDS, 25); Index25(); L25(); K25();
    SpeckFollows(KEY, ROUNDS, 26); Index26(); L26(); K26();
    SpeckFollows(KEY, ROUNDS, 27); Index27(); L27(); K27();
    SpeckFollows(KEY, ROUNDS, 28); Index28(); L28(); K28();
    SpeckFollows(KEY, ROUNDS, 29); Index29(); L29(); K29();
    SpeckFollows(KEY, ROUNDS, 30); Index30(); L30(); K30();
    SpeckFollows(KEY, ROUNDS, 31); Index31(); L31(); K31();
    SpeckFollows(KEY, ROUNDS, 32); Index32(); L32(); K32();
    SpeckFollows(KEY, ROUNDS, 33); Index33(); L33(); K33();
  }

  // ---------------------------------------------------------------- the rounds

  const B0 := Block(0x202E72656E6F6F70, 0x65736F6874206E49)
  const B1 := Block(0x6FE673FBA69AF55F, 0x6E95E0D0D5E18EDE)
  const B2 := Block(0x0643AD3054BA7F1F, 0x797032ED606DD5E4)
  const B3 := Block(0x26B5FC2F7411195E, 0x14A895ADD1C2E1A6)
  const B4 := Block(0x1FFDA521B0595B30, 0x2A52445A10D191C1)
  const B5 := Block(0xC5AA2F204378C1BC, 0x3A47062DC1B2183C)
  const B6 := Block(0x011AA8E7263EBCCA, 0x2C4BD1E53DF8B12C)
  const B7 := Block(0xDE2B51F064EDF2F0, 0xD6FE16C9551814A0)
  const B8 := Block(0x55374660EAAF766D, 0xA46DC9E3CDC0E1EB)
  const B9 := Block(0xC07B0A18078C3D09, 0x69C1391F52F78E63)
  const B10 := Block(0x2B59A12FF8283E5B, 0x2881F1EFC449D615)
  const B11 := Block(0x7A0D1CE07ABDE797, 0x20C0159FBBFC154E)
  const B12 := Block(0xAE6013074183078B, 0x7E08F404946C3B30)
  const B13 := Block(0xBD9F1E109ABD10B2, 0xCE9F862A96A52CEF)
  const B14 := Block(0xBCE4AA298CD2CFBD, 0x501C5AAD593A4A28)
  const B15 := Block(0x8CB8B5CC232D1979, 0x6B9DE48045BB6494)
  const B16 := Block(0x6AE2672C8396E0AD, 0x0F27C94D9AFE2B61)
  const B17 := Block(0x007D787EEF47DC9F, 0x576E411AF3F0D9F4)
  const B18 := Block(0xD2C5AC449D50CF49, 0xD12E6FB3E76E2BB1)
  const B19 := Block(0x7B3A20F11D0A6F36, 0xED1742D5F78C1578)
  const B20 := Block(0x5694E7CF83510D8F, 0x8F45E0476B02743C)
  const B21 := Block(0xD5B60D1DB2D6EA87, 0x61113361A85E86FD)
  const B22 := Block(0xD874F46DF47218CC, 0x75C49C8062C54CF2)
  const B23 := Block(0x84DBFC0292F39F58, 0x477C5F6D3163593E)
  const B24 := Block(0x5B8BA1080A5F4744, 0x7D54411C9DC3BD80)
  const B25 := Block(0x3542820EDB7AA55A, 0xE91F8A4E89809F78)
  const B26 := Block(0xBC56C02A165050D8, 0x1642D05CCD857A09)
  const B27 := Block(0x5AACBC55D1A4157D, 0xB81ABD05632693B8)
  const B28 := Block(0x5F82A4F0D88636E4, 0x8AE7465E55A69D0E)
  const B29 := Block(0x8C9042039CD96D56, 0x7085658558E8DA74)
  const B30 := Block(0x1F82BF028B3E3A9F, 0x7B00AF1E6DF5502B)
  const B31 := Block(0xA199A2F98DAF4A78, 0x5D8C5AEDD45E9E80)
  const B32 := Block(0x8FF16BBBAD019ECB, 0x833C7C77C07BCD0E)
  const B33 := Block(0xA1FCF6B1333B0F4F, 0xDE77AB6C5B37F913)
  const B34 := Block(0x4EEEB48D9C188F43, 0x4109010405C0F53E)

  lemma Round0() ensures SpeckRound(B0, 0x0706050403020100) == B1 {}
  lemma Round1() ensures SpeckRound(B1, 0x37253B31171D0309) == B2 {}
  lemma Round2() ensures SpeckRound(B2, 0xFE1588CE93D80D52) == B3 {}
  lemma Round3() ensures SpeckRound(B3, 0xE698E09F31334DFE) == B4 {}
  lemma Round4() ensures SpeckRound(B4, 0xDB60F14BCBD834FD) == B5 {}
  lemma Round5() ensures SpeckRound(B5, 0x2DAFA7C34CC2C2F8) == B6 {}
  lemma Round6() ensures SpeckRound(B6, 0xFBB8E2705E64A1DB) == B7 {}
  lemma Round7() ensures SpeckRound(B7, 0xDB6F99E4E383EAEF) == B8 {}
  lemma Round8() ensures SpeckRound(B8, 0x291A8D359C8AB92D) == B9 {}
  lemma Round9() ensures SpeckRound(B9, 0x0B653ABEE296E282) == B10 {}
  lemma Round10() ensures SpeckRound(B10, 0x604236BE5C109D7F) == B11 {}
  lemma Round11() ensures SpeckRound(B11, 0xB62528F28E15D89C) == B12 {}
  lemma Round12() ensures SpeckRound(B12, 0x10419DD1D0B25F29) == B13 {}
  lemma Round13() ensures SpeckRound(B13, 0xFD71E73B9C69FFF6) == B14 {}
  lemma Round14() ensures SpeckRound(B14, 0x8EA922047F976E93) == B15 {}
  lemma Round15() ensures SpeckRound(B15, 0x2E039AFD398CFFBC) == B16 {}
  lemma Round16() ensures SpeckRound(B16, 0x9C9FCFEF22C1072C) == B17 {}
  lemma Round17() ensures SpeckRound(B17, 0x25FA8973ED55E6C9) == B18 {}
  lemma Round18() ensures SpeckRound(B18, 0x69819861A6B4280C) == B19 {}
  lemma Round19() ensures SpeckRound(B19, 0x7B62D87498038F77) == B20 {}
  lemma Round20() ensures SpeckRound(B20, 0xF2351ECE62E296FE) == B21 {}
  lemma Round21() ensures SpeckRound(B21, 0xA6D382D176BA05FF) == B22 {}
  lemma Round22() ensures SpeckRound(B22, 0x8D96E66745B78726) == B23 {}
  lemma Round23() ensures SpeckRound(B23, 0xBE77397E9DE6BF31) == B24 {}
  lemma Round24() ensures SpeckRound(B24, 0x35177F07AF7D9479) == B25 {}
  lemma Round25() ensures SpeckRound(B25, 0xB86971C5E7815FF0) == B26 {}
  lemma Round26() ensures SpeckRound(B26, 0x7D77BFFF103B45EA) == B27 {}
  lemma Round27() ensures SpeckRound(B27, 0x9983914C82A1A11E) == B28 {}
  lemma Round28() ensures SpeckRound(B28, 0x1E88E9B26E3307F5) == B29 {}
  lemma Round29() ensures SpeckRound(B29, 0x7A0068774FC7061B) == B30 {}
  lemma Round30() ensures SpeckRound(B30, 0x1771E55C7DF2B16F) == B31 {}
  lemma Round31() ensures SpeckRound(B31, 0xA2CB5323BBF86418) == B32 {}
  lemma Round32() ensures SpeckRound(B32, 0x400303547FF5E38B) == B33 {}
  lemma Round33() ensures SpeckRound(B33, 0xF4D26F589A56B276) == B34 {}

  ghost predicate Reaches(ks: seq<Word>, n: nat, b: Block) {
    n <= |ks| && R.Run(SpeckRound, B0, ks[..n]) == b
  }

  lemma OneMore(ks: seq<Word>, n: nat, b: Block)
    requires Reaches(ks, n, b) && n < |ks|
    ensures Reaches(ks, n + 1, SpeckRound(b, ks[n]))
  {
    R.RunStep(SpeckRound, B0, ks, n);
    hide SpeckRound;
  }

  lemma Rounds0To16(s: Schedule)
    requires Listed0(s) && Reaches(s.k, 0, B0)
    ensures Reaches(s.k, 17, B17)
  {
    hide SpeckRound, Reaches;
    OneMore(s.k, 0, B0); Round0();
    OneMore(s.k, 1, B1); Round1();
    OneMore(s.k, 2, B2); Round2();
    OneMore(s.k, 3, B3); Round3();
    OneMore(s.k, 4, B4); Round4();
    OneMore(s.k, 5, B5); Round5();
    OneMore(s.k, 6, B6); Round6();
    OneMore(s.k, 7, B7); Round7();
    OneMore(s.k, 8, B8); Round8();
    OneMore(s.k, 9, B9); Round9();
    OneMore(s.k, 10, B10); Round10();
    OneMore(s.k, 11, B11); Round11();
    OneMore(s.k, 12, B12); Round12();
    OneMore(s.k, 13, B13); Round13();
    OneMore(s.k, 14, B14); Round14();
    OneMore(s.k, 15, B15); Round15();
    OneMore(s.k, 16, B16); Round16();
  }

  lemma Rounds17To33(s: Schedule)
    requires Listed17(s) && Reaches(s.k, 17, B17)
    ensures Reaches(s.k, 34, B34)
  {
    hide SpeckRound, Reaches;
    OneMore(s.k, 17, B17); Round17();
    OneMore(s.k, 18, B18); Round18();
    OneMore(s.k, 19, B19); Round19();
    OneMore(s.k, 20, B20); Round20();
    OneMore(s.k, 21, B21); Round21();
    OneMore(s.k, 22, B22); Round22();
    OneMore(s.k, 23, B23); Round23();
    OneMore(s.k, 24, B24); Round24();
    OneMore(s.k, 25, B25); Round25();
    OneMore(s.k, 26, B26); Round26();
    OneMore(s.k, 27, B27); Round27();
    OneMore(s.k, 28, B28); Round28();
    OneMore(s.k, 29, B29); Round29();
    OneMore(s.k, 30, B30); Round30();
    OneMore(s.k, 31, B31); Round31();
    OneMore(s.k, 32, B32); Round32();
    OneMore(s.k, 33, B33); Round33();
  }

  lemma AllWords(s: Schedule)
    requires s == Speck(KEY, ROUNDS)
    ensures Listed0(s) && Listed17(s)
  {
    hide Speck, KEY, Listed0, Listed17;
    SpeckStarts(KEY, ROUNDS);
    Words0To17(s);
    Words17To34(s);
  }

  lemma AllRounds(s: Schedule)
    requires Listed0(s) && Listed17(s)
    ensures Reaches(s.k, 34, B34)
  {
    hide SpeckRound, Listed0, Listed17;
    assert s.k[..0] == [];
    Rounds0To16(s);
    Rounds17To33(s);
  }

  /** The ciphertext block the paper prints for this key and plaintext block. */
  lemma PublishedVector()
    ensures Encryptor(KEY)(Block(0x202E72656E6F6F70, 0x65736F6874206E49))
            == Block(0x4EEEB48D9C188F43, 0x4109010405C0F53E)
  {
    hide SpeckRound, Speck, KEY, Listed0, Listed17;
    var s := Speck(KEY, ROUNDS);
    AllWords(s);
    AllRounds(s);
    assert s.k[..34] == RoundKeys(KEY) && RoundKeys(KEY)[..34] == RoundKeys(KEY);
  }
}
