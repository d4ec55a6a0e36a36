/** Simon's published constants and test vector (IACR ePrint 2013/404): the sequence z4, and
    every round key and block of the SIMON128/256 vector. */
module SimonExample {
  import opened Bytes
  import opened Words64
  import opened Simon
  import R = Rounds

  // ---------------------------------------------------------------- the constant sequence

  lemma Digit0() ensures ZBit(4) == 1 {}
  lemma Digit1() ensures ZBit(5) == 1 {}
  lemma Digit2() ensures ZBit(6) == 0 {}
  lemma Digit3() ensures ZBit(7) == 1 {}
  lemma Digit4() ensures ZBit(8) == 0 {}
  lemma Digit5() ensures ZBit(9) == 0 {}
  lemma Digit6() ensures ZBit(10) == 0 {}
  lemma Digit7() ensures ZBit(11) == 1 {}
  lemma Digit8() ensures ZBit(12) == 1 {}
  lemma Digit9() ensures ZBit(13) == 1 {}
  lemma Digit10() ensures ZBit(14) == 1 {}
  lemma Digit11() ensures ZBit(15) == 0 {}
  lemma Digit12() ensures ZBit(16) == 0 {}
  lemma Digit13() ensures ZBit(17) == 1 {}
  lemma Digit14() ensures ZBit(18) == 1 {}
  lemma Digit15() ensures ZBit(19) == 0 {}
  lemma Digit16() ensures ZBit(20) == 1 {}
  lemma Digit17() ensures ZBit(21) == 0 {}
  lemma Digit18() ensures ZBit(22) == 1 {}
  lemma Digit19() ensures ZBit(23) == 1 {}
  lemma Digit20() ensures ZBit(24) == 0 {}
  lemma Digit21() ensures ZBit(25) == 1 {}
  lemma Digit22() ensures ZBit(26) == 1 {}
  lemma Digit23() ensures ZBit(27) == 0 {}
  lemma Digit24() ensures ZBit(28) == 0 {}
  lemma Digit25() ensures ZBit(29) == 0 {}
  lemma Digit26() ensures ZBit(30) == 1 {}
  lemma Digit27() ensures ZBit(31) == 0 {}
  lemma Digit28() ensures ZBit(32) == 0 {}
  lemma Digit29() ensures ZBit(33) == 0 {}
  lemma Digit30() ensures ZBit(34) == 0 {}
  lemma Digit31() ensures ZBit(35) == 0 {}
  lemma Digit32() ensures ZBit(36) == 0 {}
  lemma Digit33() ensures ZBit(37) == 1 {}
  lemma Digit34() ensures ZBit(38) == 0 {}
  lemma Digit35() ensures ZBit(39) == 1 {}
  lemma Digit36() ensures ZBit(40) == 1 {}
  lemma Digit37() ensures ZBit(41) == 1 {}
  lemma Digit38() ensures ZBit(42) == 0 {}
  lemma Digit39() ensures ZBit(43) == 0 {}
  lemma Digit40() ensures ZBit(44) == 0 {}
  lemma Digit41() ensures ZBit(45) == 0 {}
  lemma Digit42() ensures ZBit(46) == 1 {}
  lemma Digit43() ensures ZBit(47) == 1 {}
  lemma Digit44() ensures ZBit(48) == 0 {}
  lemma Digit45() ensures ZBit(49) == 0 {}
  lemma Digit46() ensures ZBit(50) == 1 {}
  lemma Digit47() ensures ZBit(51) == 0 {}
  lemma Digit48() ensures ZBit(52) == 1 {}
  lemma Digit49() ensures ZBit(53) == 0 {}
  lemma Digit50() ensures ZBit(54) == 0 {}
  lemma Digit51() ensures ZBit(55) == 1 {}
  lemma Digit52() ensures ZBit(56) == 0 {}
  lemma Digit53() ensures ZBit(57) == 0 {}
  lemma Digit54() ensures ZBit(58) == 1 {}
  lemma Digit55() ensures ZBit(59) == 1 {}
  lemma Digit56() ensures ZBit(60) == 1 {}
  lemma Digit57() ensures ZBit(61) == 0 {}
  lemma Digit58() ensures ZBit(62) == 1 {}
  lemma Digit59() ensures ZBit(63) == 1 {}
  lemma Digit60() ensures ZBit(64) == 1 {}
  lemma Digit61() ensures ZBit(65) == 1 {}

  /** The digits of the sequence from round key `i` on. */
  ghost predicate Row(i: nat, digits: seq<Word>)
    requires 4 <= i
  {
    forall j :: 0 <= j < |digits| ==> ZBit(i + j) == digits[j]
  }

  /** The paper's sequence z4, from round key 4 on. */
  lemma Z4Starts()
    ensures Row(4, [1, 1, 0, 1, 0, 0, 0, 1])
    ensures Row(12, [1, 1, 1, 0, 0, 1, 1, 0])
    ensures Row(20, [1, 0, 1, 1, 0, 1, 1, 0])
    ensures Row(28, [0, 0, 1, 0, 0, 0, 0, 0])
  {
    hide ZBit;
    Digit0(); Digit1(); Digit2(); Digit3(); Digit4(); Digit5(); Digit6(); Digit7();
    Digit8(); Digit9(); Digit10(); Digit11(); Digit12(); Digit13(); Digit14(); Digit15();
    Digit16(); Digit17(); Digit18(); Digit19(); Digit20(); Digit21(); Digit22(); Digit23();
    Digit24(); Digit25(); Digit26(); Digit27(); Digit28(); Digit29(); Digit30(); Digit31();
  }

  /** The rest of it. */
  lemma Z4Ends()
    ensures Row(36, [0, 1, 0, 1, 1, 1, 0, 0])
    ensures Row(44, [0, 0, 1, 1, 0, 0, 1, 0])
    ensures Row(52, [1, 0, 0, 1, 0, 0, 1, 1])
    ensures Row(60, [1, 0, 1, 1, 1, 1])
  {
    hide ZBit;
    Digit32(); Digit33(); Digit34(); Digit35(); Digit36(); Digit37(); Digit38(); Digit39();
    Digit40(); Digit41(); Digit42(); Digit43(); Digit44(); Digit45(); Digit46(); Digit47();
    Digit48(); Digit49(); Digit50(); Digit51(); Digit52(); Digit53(); Digit54(); Digit55();
    Digit56(); Digit57(); Digit58(); Digit59(); Digit60(); Digit61();
  }

  /** After 62 round keys the sequence starts again. */
  lemma Z4Repeats(i: nat, n: nat)
    requires 4 <= i
    ensures ZBit(i + 62 * n) == ZBit(i)
  {
    hide GetBit, ToByte;
    SameRemainder(i - 4, n);
  }

  lemma SameRemainder(j: nat, n: nat)
    ensures (j + 62 * n) % 62 == j % 62
  {
    assert j + 62 * n == 62 * (j / 62 + n) + j % 62;
  }

  // ---------------------------------------------------------------- the round keys

  const KEY: MasterKey := [0x0706050403020100, 0x0F0E0D0C0B0A0908, 0x1716151413121110, 0x1F1E1D1C1B1A1918]

  ghost predicate Listed0(ks: seq<Word>) {
    && |ks| == 72
    && ks[0] == 0x0706050403020100 && ks[1] == 0x0F0E0D0C0B0A0908 && ks[2] == 0x1716151413121110
    && ks[3] == 0x1F1E1D1C1B1A1918 && ks[4] == 0x7262D303B0A011C3 && ks[5] == 0xB5069A3DA370EC49
    && ks[6] == 0x5588439D9423E835 && ks[7] == 0xD45BD42BE7D3BC42 && ks[8] == 0x95D63C18FF10381E
    && ks[9] == 0x8E52A3D392AE0B18 && ks[10] == 0x8D2EFC1B34995478 && ks[11] == 0x6DEE39824D6ED866
    && ks[12] == 0x08311575366DFFFD && ks[13] == 0xCB91EDC3362F6AA1 && ks[14] == 0x0C0305C3F518042E
    && ks[15] == 0x3F7809565E38A75E && ks[16] == 0xFD8F7017CA8E416E && ks[17] == 0x0E058C1D43BDBF5E
  }

  ghost predicate Listed18(ks: seq<Word>) {
    && |ks| == 72
    && ks[18] == 0xF2181E83078F633C && ks[19] == 0x12ADBC8DDE87232F && ks[20] == 0x1808A9A2B12A4835
    && ks[21] == 0x886FFD8E453D7F85 && ks[22] == 0x7F9783DEE5405671 && ks[23] == 0x41553647FA3BBF54
    && ks[24] == 0x6790A0B8A992BB91 && ks[25] == 0x8D475E5CB28981FA && ks[26] == 0x18EB4F6B40E06152
    && ks[27] == 0x0861E447248DACCE && ks[28] == 0x72018CF92B796A3F && ks[29] == 0x7F46602D1A3E9419
    && ks[30] == 0x53590CF77B30DFC4 && ks[31] == 0xF3C1E06CFD629A16 && ks[32] == 0xFC5F013613DD3135
    && ks[33] == 0x1A02056B802FAEF6 && ks[34] == 0x846783A9CF1BF814 && ks[35] == 0xD6841671BDBC0CC6
  }

  ghost predicate Listed36(ks: seq<Word>) {
    && |ks| == 72
    && ks[36] == 0xA31B3ABE8076F610 && ks[37] == 0x3DFB6C156F4FE4B6 && ks[38] == 0x623EBA5CA89B0F90
    && ks[39] == 0xD1897281DD94AF28 && ks[40] == 0xE8CBA626810AC017 && ks[41] == 0x12B0BA3ED4576710
    && ks[42] == 0x27F1928653F59243 && ks[43] == 0x6459D3334CA51BA4 && ks[44] == 0xC61219AD9DD719BD
    && ks[45] == 0x3DE57CAB3BC05122 && ks[46] == 0xEA19AF8C9239F4FE && ks[47] == 0x8D5F96BEBB02D0EA
    && ks[48] == 0xE3842F10F8D8E8E1 && ks[49] == 0x7F473C0D0F8C33CD && ks[50] == 0xA60A99D3FA4CF6D9
    && ks[51] == 0xCE47AB7E80A4E231 && ks[52] == 0xF9B3FD3CB773EF52 && ks[53] == 0x851A56BCAA80029B
  }

  ghost predicate Listed54(ks: seq<Word>) {
    && |ks| == 72
    && ks[54] == 0xB863F7519ABD9A76 && ks[55] == 0x085816BCB96D6FDE && ks[56] == 0x6055FC9DEBF7687E
    && ks[57] == 0xB4B845E0615D31A2 && ks[58] == 0x363499AE8AA7C894 && ks[59] == 0x627D313F6160C9F9
    && ks[60] == 0xCB2611465FC12B50 && ks[61] == 0x73BFCC5AFF52D55F && ks[62] == 0x03C4CABF5497ED92
    && ks[63] == 0x537302D9F1650B97 && ks[64] == 0x61E094B881FF9A96 && ks[65] == 0x2444879966513B02
    && ks[66] == 0x603D6E7F1810A8E3 && ks[67] == 0xA79858EADD19BC25 && ks[68] == 0x46F321815D0B6FAF
    && ks[69] == 0x1729F70E33C7E362 && ks[70] == 0x8801448E713EB772 && ks[71] == 0xC46D2A8DF85CA638
  }

  lemma Key4() ensures Xor(0x0706050403020100, Mix(0x0F0E0D0C0B0A0908, 0x1F1E1D1C1B1A1918, 1)) == 0x7262D303B0A011C3 {}
  lemma Key5() ensures Xor(0x0F0E0D0C0B0A0908, Mix(0x1716151413121110, 0x7262D303B0A011C3, 1)) == 0xB5069A3DA370EC49 {}
  lemma Key6() ensures Xor(0x1716151413121110, Mix(0x1F1E1D1C1B1A1918, 0xB5069A3DA370EC49, 0)) == 0x5588439D9423E835 {}
  lemma Key7() ensures Xor(0x1F1E1D1C1B1A1918, Mix(0x7262D303B0A011C3, 0x5588439D9423E835, 1)) == 0xD45BD42BE7D3BC42 {}
  lemma Key8() ensures Xor(0x7262D303B0A011C3, Mix(0xB5069A3DA370EC49, 0xD45BD42BE7D3BC42, 0)) == 0x95D63C18FF10381E {}
  lemma Key9() ensures Xor(0xB5069A3DA370EC49, Mix(0x5588439D9423E835, 0x95D63C18FF10381E, 0)) == 0x8E52A3D392AE0B18 {}
  lemma Key10() ensures Xor(0x5588439D9423E835, Mix(0xD45BD42BE7D3BC42, 0x8E52A3D392AE0B18, 0)) == 0x8D2EFC1B34995478 {}
  lemma Key11() ensures Xor(0xD45BD42BE7D3BC42, Mix(0x95D63C18FF10381E, 0x8D2EFC1B34995478, 1)) == 0x6DEE39824D6ED866 {}
  lemma Key12() ensures Xor(0x95D63C18FF10381E, Mix(0x8E52A3D392AE0B18, 0x6DEE39824D6ED866, 1)) == 0x08311575366DFFFD {}
  lemma Key13() ensures Xor(0x8E52A3D392AE0B18, Mix(0x8D2EFC1B34995478, 0x08311575366DFFFD, 1)) == 0xCB91EDC3362F6AA1 {}
  lemma Key14() ensures Xor(0x8D2EFC1B34995478, Mix(0x6DEE39824D6ED866, 0xCB91EDC3362F6AA1, 1)) == 0x0C0305C3F518042E {}
  lemma Key15() ensures Xor(0x6DEE39824D6ED866, Mix(0x08311575366DFFFD, 0x0C0305C3F518042E, 0)) == 0x3F7809565E38A75E {}
  lemma Key16() ensures Xor(0x08311575366DFFFD, Mix(0xCB91EDC3362F6AA1, 0x3F7809565E38A75E, 0)) == 0xFD8F7017CA8E416E {}
  lemma Key17() ensures Xor(0xCB91EDC3362F6AA1, Mix(0x0C0305C3F518042E, 0xFD8F7017CA8E416E, 1)) == 0x0E058C1D43BDBF5E {}
  lemma Key18() ensures Xor(0x0C0305C3F518042E, Mix(0x3F7809565E38A75E, 0x0E058C1D43BDBF5E, 1)) == 0xF2181E83078F633C {}
  lemma Key19() ensures Xor(0x3F7809565E38A75E, Mix(0xFD8F7017CA8E416E, 0xF2181E83078F633C, 0)) == 0x12ADBC8DDE87232F {}
  lemma Key20() ensures Xor(0xFD8F7017CA8E416E, Mix(0x0E058C1D43BDBF5E, 0x12ADBC8DDE87232F, 1)) == 0x1808A9A2B12A4835 {}
  lemma Key21() ensures Xor(0x0E058C1D43BDBF5E, Mix(0xF2181E83078F633C, 0x1808A9A2B12A4835, 0)) == 0x886FFD8E453D7F85 {}
  lemma Key22() ensures Xor(0xF2181E83078F633C, Mix(0x12ADBC8DDE87232F, 0x886FFD8E453D7F85, 1)) == 0x7F9783DEE5405671 {}
  lemma Key23() ensures Xor(0x12ADBC8DDE87232F, Mix(0x1808A9A2B12A4835, 0x7F9783DEE5405671, 1)) == 0x41553647FA3BBF54 {}
  lemma Key24() ensures Xor(0x1808A9A2B12A4835, Mix(0x886FFD8E453D7F85, 0x41553647FA3BBF54, 0)) == 0x6790A0B8A992BB91 {}
  lemma Key25() ensures Xor(0x886FFD8E453D7F85, Mix(0x7F9783DEE5405671, 0x6790A0B8A992BB91, 1)) == 0x8D475E5CB28981FA {}
  lemma Key26() ensures Xor(0x7F9783DEE5405671, Mix(0x41553647FA3BBF54, 0x8D475E5CB28981FA, 1)) == 0x18EB4F6B40E06152 {}
  lemma Key27() ensures Xor(0x41553647FA3BBF54, Mix(0x6790A0B8A992BB91, 0x18EB4F6B40E06152, 0)) == 0x0861E447248DACCE {}
  lemma Key28() ensures Xor(0x6790A0B8A992BB91, Mix(0x8D475E5CB28981FA, 0x0861E447248DACCE, 0)) == 0x72018CF92B796A3F {}
  lemma Key29() ensures Xor(0x8D475E5CB28981FA, Mix(0x18EB4F6B40E06152, 0x72018CF92B796A3F, 0)) == 0x7F46602D1A3E9419 {}
  lemma Key30() ensures Xor(0x18EB4F6B40E06152, Mix(0x0861E447248DACCE, 0x7F46602D1A3E9419, 1)) == 0x53590CF77B30DFC4 {}
  lemma Key31() ensures Xor(0x0861E447248DACCE, Mix(0x72018CF92B796A3F, 0x53590CF77B30DFC4, 0)) == 0xF3C1E06CFD629A16 {}
  lemma Key32() ensures Xor(0x72018CF92B796A3F, Mix(0x7F46602D1A3E9419, 0xF3C1E06CFD629A16, 0)) == 0xFC5F013613DD3135 {}
  lemma Key33() ensures Xor(0x7F46602D1A3E9419, Mix(0x53590CF77B30DFC4, 0xFC5F013613DD3135, 0)) == 0x1A02056B802FAEF6 {}
  lemma Key34() ensures Xor(0x53590CF77B30DFC4, Mix(0xF3C1E06CFD629A16, 0x1A02056B802FAEF6, 0)) == 0x846783A9CF1BF814 {}
  lemma Key35() ensures Xor(0xF3C1E06CFD629A16, Mix(0xFC5F013613DD3135, 0x846783A9CF1BF814, 0)) == 0xD6841671BDBC0CC6 {}
  lemma Key36() ensures Xor(0xFC5F013613DD3135, Mix(0x1A02056B802FAEF6, 0xD6841671BDBC0CC6, 0)) == 0xA31B3ABE8076F610 {}
  lemma Key37() ensures Xor(0x1A02056B802FAEF6, Mix(0x846783A9CF1BF814, 0xA31B3ABE8076F610, 1)) == 0x3DFB6C156F4FE4B6 {}
  lemma Key38() ensures Xor(0x846783A9CF1BF814, Mix(0xD6841671BDBC0CC6, 0x3DFB6C156F4FE4B6, 0)) == 0x623EBA5CA89B0F90 {}
  lemma Key39() ensures Xor(0xD6841671BDBC0CC6, Mix(0xA31B3ABE8076F610, 0x623EBA5CA89B0F90, 1)) == 0xD1897281DD94AF28 {}
  lemma Key40() ensures Xor(0xA31B3ABE8076F610, Mix(0x3DFB6C156F4FE4B6, 0xD1897281DD94AF28, 1)) == 0xE8CBA626810AC017 {}
  lemma Key41() ensures Xor(0x3DFB6C156F4FE4B6, Mix(0x623EBA5CA89B0F90, 0xE8CBA626810AC017, 1)) == 0x12B0BA3ED4576710 {}
  lemma Key42() ensures Xor(0x623EBA5CA89B0F90, Mix(0xD1897281DD94AF28, 0x12B0BA3ED4576710, 0)) == 0x27F1928653F59243 {}
  lemma Key43() ensures Xor(0xD1897281DD94AF28, Mix(0xE8CBA626810AC017, 0x27F1928653F59243, 0)) == 0x6459D3334CA51BA4 {}
  lemma Key44() ensures Xor(0xE8CBA626810AC017, Mix(0x12B0BA3ED4576710, 0x6459D3334CA51BA4, 0)) == 0xC61219AD9DD719BD {}
  lemma Key45() ensures Xor(0x12B0BA3ED4576710, Mix(0x27F1928653F59243, 0xC61219AD9DD719BD, 0)) == 0x3DE57CAB3BC05122 {}
  lemma Key46() ensures Xor(0x27F1928653F59243, Mix(0x6459D3334CA51BA4, 0x3DE57CAB3BC05122, 1)) == 0xEA19AF8C9239F4FE {}
  lemma Key47() ensures Xor(0x6459D3334CA51BA4, Mix(0xC61219AD9DD719BD, 0xEA19AF8C9239F4FE, 1)) == 0x8D5F96BEBB02D0EA {}
  lemma Key48() ensures Xor(0xC61219AD9DD719BD, Mix(0x3DE57CAB3BC05122, 0x8D5F96BEBB02D0EA, 0)) == 0xE3842F10F8D8E8E1 {}
  lemma Key49() ensures Xor(0x3DE57CAB3BC05122, Mix(0xEA19AF8C9239F4FE, 0xE3842F10F8D8E8E1, 0)) == 0x7F473C0D0F8C33CD {}
  lemma Key50() ensures Xor(0xEA19AF8C9239F4FE, Mix(0x8D5F96BEBB02D0EA, 0x7F473C0D0F8C33CD, 1)) == 0xA60A99D3FA4CF6D9 {}
  lemma Key51() ensures Xor(0x8D5F96BEBB02D0EA, Mix(0xE3842F10F8D8E8E1, 0xA60A99D3FA4CF6D9, 0)) == 0xCE47AB7E80A4E231 {}
  lemma Key52() ensures Xor(0xE3842F10F8D8E8E1, Mix(0x7F473C0D0F8C33CD, 0xCE47AB7E80A4E231, 1)) == 0xF9B3FD3CB773EF52 {}
  lemma Key53() ensures Xor(0x7F473C0D0F8C33CD, Mix(0xA60A99D3FA4CF6D9, 0xF9B3FD3CB773EF52, 0)) == 0x851A56BCAA80029B {}
  lemma Key54() ensures Xor(0xA60A99D3FA4CF6D9, Mix(0xCE47AB7E80A4E231, 0x851A56BCAA80029B, 0)) == 0xB863F7519ABD9A76 {}
  lemma Key55() ensures Xor(0xCE47AB7E80A4E231, Mix(0xF9B3FD3CB773EF52, 0xB863F7519ABD9A76, 1)) == 0x085816BCB96D6FDE {}
  lemma Key56() ensures Xor(0xF9B3FD3CB773EF52, Mix(0x851A56BCAA80029B, 0x085816BCB96D6FDE, 0)) == 0x6055FC9DEBF7687E {}
  lemma Key57() ensures Xor(0x851A56BCAA80029B, Mix(0xB863F7519ABD9A76, 0x6055FC9DEBF7687E, 0)) == 0xB4B845E0615D31A2 {}
  lemma Key58() ensures Xor(0xB863F7519ABD9A76, Mix(0x085816BCB96D6FDE, 0xB4B845E0615D31A2, 1)) == 0x363499AE8AA7C894 {}
  lemma Key59() ensures Xor(0x085816BCB96D6FDE, Mix(0x6055FC9DEBF7687E, 0x363499AE8AA7C894, 1)) == 0x627D313F6160C9F9 {}
  lemma Key60() ensures Xor(0x6055FC9DEBF7687E, Mix(0xB4B845E0615D31A2, 0x627D313F6160C9F9, 1)) == 0xCB2611465FC12B50 {}
  lemma Key61() ensures Xor(0xB4B845E0615D31A2, Mix(0x363499AE8AA7C894, 0xCB2611465FC12B50, 0)) == 0x73BFCC5AFF52D55F {}
  lemma Key62() ensures Xor(0x363499AE8AA7C894, Mix(0x627D313F6160C9F9, 0x73BFCC5AFF52D55F, 1)) == 0x03C4CABF5497ED92 {}
  lemma Key63() ensures Xor(0x627D313F6160C9F9, Mix(0xCB2611465FC12B50, 0x03C4CABF5497ED92, 1)) == 0x537302D9F1650B97 {}
  lemma Key64() ensures Xor(0xCB2611465FC12B50, Mix(0x73BFCC5AFF52D55F, 0x537302D9F1650B97, 1)) == 0x61E094B881FF9A96 {}
  lemma Key65() ensures Xor(0x73BFCC5AFF52D55F, Mix(0x03C4CABF5497ED92, 0x61E094B881FF9A96, 1)) == 0x2444879966513B02 {}
  lemma Key66() ensures Xor(0x03C4CABF5497ED92, Mix(0x537302D9F1650B97, 0x2444879966513B02, 1)) == 0x603D6E7F1810A8E3 {}
  lemma Key67() ensures Xor(0x537302D9F1650B97, Mix(0x61E094B881FF9A96, 0x603D6E7F1810A8E3, 1)) == 0xA79858EADD19BC25 {}
  lemma Key68() ensures Xor(0x61E094B881FF9A96, Mix(0x2444879966513B02, 0xA79858EADD19BC25, 0)) == 0x46F321815D0B6FAF {}
  lemma Key69() ensures Xor(0x2444879966513B02, Mix(0x603D6E7F1810A8E3, 0x46F321815D0B6FAF, 1)) == 0x1729F70E33C7E362 {}
  lemma Key70() ensures Xor(0x603D6E7F1810A8E3, Mix(0xA79858EADD19BC25, 0x1729F70E33C7E362, 0)) == 0x8801448E713EB772 {}
  lemma Key71() ensures Xor(0xA79858EADD19BC25, Mix(0x46F321815D0B6FAF, 0x8801448E713EB772, 0)) == 0xC46D2A8DF85CA638 {}

  lemma Keys0To17(k: MasterKey, ks: seq<Word>)
    requires ks == RoundKeys(k) && k == KEY
    ensures Listed0(ks)
  {
    hide Schedule, Mix, Xor, ZBit;
    ScheduleStart(k, 72);
    ScheduleFollows(k, 72, 4); Digit0(); Key4();
    ScheduleFollows(k, 72, 5); Digit1(); Key5();
    ScheduleFollows(k, 72, 6); Digit2(); Key6();
    ScheduleFollows(k, 72, 7); Digit3(); Key7();
    ScheduleFollows(k, 72, 8); Digit4(); Key8();
    ScheduleFollows(k, 72, 9); Digit5(); Key9();
    ScheduleFollows(k, 72, 10); Digit6(); Key10();
    ScheduleFollows(k, 72, 11); Digit7(); Key11();
    ScheduleFollows(k, 72, 12); Digit8(); Key12();
    ScheduleFollows(k, 72, 13); Digit9(); Key13();
    ScheduleFollows(k, 72, 14); Digit10(); Key14();
    ScheduleFollows(k, 72, 15); Digit11(); Key15();
    ScheduleFollows(k, 72, 16); Digit12(); Key16();
    ScheduleFollows(k, 72, 17); Digit13(); Key17();
  }

  lemma Keys18To35(k: MasterKey, ks: seq<Word>)
    requires ks == RoundKeys(k) && Listed0(ks)
    ensures Listed18(ks)
  {
    hide Schedule, Mix, Xor, ZBit;
    ScheduleFollows(k, 72, 18); Digit14(); Key18();
    ScheduleFollows(k, 72, 19); Digit15(); Key19();
    ScheduleFollows(k, 72, 20); Digit16(); Key20();
    ScheduleFollows(k, 72, 21); Digit17(); Key21();
    ScheduleFollows(k, 72, 22); Digit18(); Key22();
    ScheduleFollows(k, 72, 23); Digit19(); Key23();
    ScheduleFollows(k, 72, 24); Digit20(); Key24();
    ScheduleFollows(k, 72, 25); Digit21(); Key25();
    ScheduleFollows(k, 72, 26); Digit22(); Key26();
    ScheduleFollows(k, 72, 27); Digit23(); Key27();
    ScheduleFollows(k, 72, 28); Digit24(); Key28();
    ScheduleFollows(k, 72, 29); Digit25(); Key29();
    ScheduleFollows(k, 72, 30); Digit26(); Key30();
    ScheduleFollows(k, 72, 31); Digit27(); Key31();
    ScheduleFollows(k, 72, 32); Digit28(); Key32();
    ScheduleFollows(k, 72, 33); Digit29(); Key33();
    ScheduleFollows(k, 72, 34); Digit30(); Key34();
    ScheduleFollows(k, 72, 35); Digit31(); Key35();
  }

  lemma Keys36To53(k: MasterKey, ks: seq<Word>)
    requires ks == RoundKeys(k) && Listed18(ks)
    ensures Listed36(ks)
  {
    hide Schedule, Mix, Xor, ZBit;
    ScheduleFollows(k, 72, 36); Digit32(); Key36();
    ScheduleFollows(k, 72, 37); Digit33(); Key37();
    ScheduleFollows(k, 72, 38); Digit34(); Key38();
    ScheduleFollows(k, 72, 39); Digit35(); Key39();
    ScheduleFollows(k, 72, 40); Digit36(); Key40();
    ScheduleFollows(k, 72, 41); Digit37(); Key41();
    ScheduleFollows(k, 72, 42); Digit38(); Key42();
    ScheduleFollows(k, 72, 43); Digit39(); Key43();
    ScheduleFollows(k, 72, 44); Digit40(); Key44();
    ScheduleFollows(k, 72, 45); Digit41(); Key45();
    ScheduleFollows(k, 72, 46); Digit42(); Key46();
    ScheduleFollows(k, 72, 47); Digit43(); Key47();
    ScheduleFollows(k, 72, 48); Digit44(); Key48();
    ScheduleFollows(k, 72, 49); Digit45(); Key49();
    ScheduleFollows(k, 72, 50); Digit46(); Key50();
    ScheduleFollows(k, 72, 51); Digit47(); Key51();
    ScheduleFollows(k, 72, 52); Digit48(); Key52();
    ScheduleFollows(k, 72, 53); Digit49(); Key53();
  }

  lemma Keys54To71(k: MasterKey, ks: seq<Word>)
    requires ks == RoundKeys(k) && Listed36(ks)
    ensures Listed54(ks)
  {
    hide Schedule, Mix, Xor, ZBit;
    ScheduleFollows(k, 72, 54); Digit50(); Key54();
    ScheduleFollows(k, 72, 55); Digit51(); Key55();
    ScheduleFollows(k, 72, 56); Digit52(); Key56();
    ScheduleFollows(k, 72, 57); Digit53(); Key57();
    ScheduleFollows(k, 72, 58); Digit54(); Key58();
    ScheduleFollows(k, 72, 59); Digit55(); Key59();
    ScheduleFollows(k, 72, 60); Digit56(); Key60();
    ScheduleFollows(k, 72, 61); Digit57(); Key61();
    ScheduleFollows(k, 72, 62); Digit58(); Key62();
    ScheduleFollows(k, 72, 63); Digit59(); Key63();
    ScheduleFollows(k, 72, 64); Digit60(); Key64();
    ScheduleFollows(k, 72, 65); Digit61(); Key65();
    ScheduleFollows(k, 72, 66); Digit0(); Z4Repeats(4, 1); Key66();
    ScheduleFollows(k, 72, 67); Digit1(); Z4Repeats(5, 1); Key67();
    ScheduleFollows(k, 72, 68); Digit2(); Z4Repeats(6, 1); Key68();
    ScheduleFollows(k, 72, 69); Digit3(); Z4Repeats(7, 1); Key69();
    ScheduleFollows(k, 72, 70); Digit4(); Z4Repeats(8, 1); Key70();
    ScheduleFollows(k, 72, 71); Digit5(); Z4Repeats(9, 1); Key71();
  }

  // ---------------------------------------------------------------- the rounds

  const B0 := Block(0x6D69732061207369, 0x74206E69206D6F6F)
  const B1 := Block(0x74206E69206D6F6F, 0x9AAE8780A3DD8180)
  const B2 := Block(0x9AAE8780A3DD8180, 0x35917D66E1906065)
  const B3 := Block(0x35917D66E1906065, 0x5ADD05CEB6AE5104)
  const B4 := Block(0x5ADD05CEB6AE5104, 0xD4FB7DD40C633D64)
  const B5 := Block(0xD4FB7DD40C633D64, 0xD226F1953786D594)
  const B6 := Block(0xD226F1953786D594, 0x0D27A09F770D077E)
  const B7 := Block(0x0D27A09F770D077E, 0xB130314373932E55)
  const B8 := Block(0xB130314373932E55, 0x3D9CF3BBDDB456CB)
  const B9 := Block(0x3D9CF3BBDDB456CB, 0xCAA460E14A12C473)
  const B10 := Block(0xCAA460E14A12C473, 0x1D1F12AF77554CDE)
  const B11 := Block(0x1D1F12AF77554CDE, 0x29E4F311E7D63B6F)
  const B12 := Block(0x29E4F311E7D63B6F, 0x97A3E749634B1F0C)
  const B13 := Block(0x97A3E749634B1F0C, 0x5C1D33431E81B4B1)
  const B14 := Block(0x5C1D33431E81B4B1, 0x347485802E628628)
  const B15 := Block(0x347485802E628628, 0xE14D20801297A02F)
  const B16 := Block(0xE14D20801297A02F, 0xCE380ED63F24A188)
  const B17 := Block(0xCE380ED63F24A188, 0x3C227FE3008A6762)
  const B18 := Block(0x3C227FE3008A6762, 0x10F09E477EB4C15A)
  const B19 := Block(0x10F09E477EB4C15A, 0xAD781C7349970326)
  const B20 := Block(0xAD781C7349970326, 0xEFAD6347156DE8E2)
  const B21 := Block(0xEFAD6347156DE8E2, 0x86877EC985C2285D)
  const B22 := Block(0x86877EC985C2285D, 0x78D1AC6E45586693)
  const B23 := Block(0x78D1AC6E45586693, 0xCBF604EA7DC36541)
  const B24 := Block(0xCBF604EA7DC36541, 0x805881D48B6A0C43)
  const B25 := Block(0x805881D48B6A0C43, 0xAD85A389FBFDEF5E)
  const B26 := Block(0xAD85A389FBFDEF5E, 0xBA0A50BC23FF6E6E)
  const B27 := Block(0xBA0A50BC23FF6E6E, 0x5D570E32738E7B2E)
  const B28 := Block(0x5D570E32738E7B2E, 0xD5399C524F530845)
  const B29 := Block(0xD5399C524F530845, 0x53A0E38677BB3087)
  const B30 := Block(0x53A0E38677BB3087, 0x44BDF46220B15F43)
  const B31 := Block(0x44BDF46220B15F43, 0x9B7E5EF98F0C904A)
  const B32 := Block(0x9B7E5EF98F0C904A, 0xECD9D66BEDF184EE)
  const B33 := Block(0xECD9D66BEDF184EE, 0x0DD42EA5FA97BA08)
  const B34 := Block(0x0DD42EA5FA97BA08, 0xD1A36CDD12AAC238)
  const B35 := Block(0xD1A36CDD12AAC238, 0x6C7AC76A5F674AAE)
  const B36 := Block(0x6C7AC76A5F674AAE, 0xEE096D51F4C1600B)
  const B37 := Block(0xEE096D51F4C1600B, 0x7F441833CD143C97)
  const B38 := Block(0x7F441833CD143C97, 0x6AEA51CEBFF667CE)
  const B39 := Block(0x6AEA51CEBFF667CE, 0x768367C8EC326236)
  const B40 := Block(0x768367C8EC326236, 0xE06874ECC2CB445B)
  const B41 := Block(0xE06874ECC2CB445B, 0x5FB9FA9DE711BBEE)
  const B42 := Block(0x5FB9FA9DE711BBEE, 0x354DB1868AF9AAAE)
  const B43 := Block(0x354DB1868AF9AAAE, 0xE5EFAC098EA08701)
  const B44 := Block(0xE5EFAC098EA08701, 0x0D26DA91FCDFAD0C)
  const B45 := Block(0x0D26DA91FCDFAD0C, 0x152E4EC339A42284)
  const B46 := Block(0x152E4EC339A42284, 0x4E361C36018F723E)
  const B47 := Block(0x4E361C36018F723E, 0xD3E3A197AEB23ACF)
  const B48 := Block(0xD3E3A197AEB23ACF, 0x2F660FF810650C78)
  const B49 := Block(0x2F660FF810650C78, 0xCBF3A97737F6FBEE)
  const B50 := Block(0xCBF3A97737F6FBEE, 0xEC4EC40FA6DB36C7)
  const B51 := Block(0xEC4EC40FA6DB36C7, 0x9446289C1FE093A4)
  const B52 := Block(0x9446289C1FE093A4, 0x7319DD19797CBE64)
  const B53 := Block(0x7319DD19797CBE64, 0xA183B9F53DD9E127)
  const B54 := Block(0xA183B9F53DD9E127, 0x730C1D597D3A3A60)
  const B55 := Block(0x730C1D597D3A3A60, 0xD1C823F169BCF290)
  const B56 := Block(0xD1C823F169BCF290, 0xBC74C540F2D41FFC)
  const B57 := Block(0xBC74C540F2D41FFC, 0x308FCAEF8D13D9A4)
  const B58 := Block(0x308FCAEF8D13D9A4, 0xCBF92E93B5C7E8CE)
  const B59 := Block(0xCBF92E93B5C7E8CE, 0xB87DF82A93237282)
  const B60 := Block(0xB87DF82A93237282, 0x388BDF17BA686B3D)
  const B61 := Block(0x388BDF17BA686B3D, 0x906383184503E11E)
  const B62 := Block(0x906383184503E11E, 0x2A391F2C53343808)
  const B63 := Block(0x2A391F2C53343808, 0x2B511946796CECAC)
  const B64 := Block(0x2B511946796CECAC, 0x840E7AE4272A0927)
  const B65 := Block(0x840E7AE4272A0927, 0x5290826E6E3B50A0)
  const B66 := Block(0x5290826E6E3B50A0, 0x6A08F088E1C6D0E4)
  const B67 := Block(0x6A08F088E1C6D0E4, 0x9A9EAE3333B01B9A)
  const B68 := Block(0x9A9EAE3333B01B9A, 0xB3C6008CD21F10BB)
  const B69 := Block(0xB3C6008CD21F10BB, 0x55758D9122D717E8)
  const B70 := Block(0x55758D9122D717E8, 0xD1B0D0E42F828428)
  const B71 := Block(0xD1B0D0E42F828428, 0x3BF72A87EFE7B868)
  const B72 := Block(0x3BF72A87EFE7B868, 0x8D2B5579AFC8A3A0)

  lemma Round0() ensures Round(B0, 0x0706050403020100) == B1 {}
  lemma Round1() ensures Round(B1, 0x0F0E0D0C0B0A0908) == B2 {}
  lemma Round2() ensures Round(B2, 0x1716151413121110) == B3 {}
  lemma Round3() ensures Round(B3, 0x1F1E1D1C1B1A1918) == B4 {}
  lemma Round4() ensures Round(B4, 0x7262D303B0A011C3) == B5 {}
  lemma Round5() ensures Round(B5, 0xB5069A3DA370EC49) == B6 {}
  lemma Round6() ensures Round(B6, 0x5588439D9423E835) == B7 {}
  lemma Round7() ensures Round(B7, 0xD45BD42BE7D3BC42) == B8 {}
  lemma Round8() ensures Round(B8, 0x95D63C18FF10381E) == B9 {}
  lemma Round9() ensures Round(B9, 0x8E52A3D392AE0B18) == B10 {}
  lemma Round10() ensures Round(B10, 0x8D2EFC1B34995478) == B11 {}
  lemma Round11() ensures Round(B11, 0x6DEE39824D6ED866) == B12 {}
  lemma Round12() ensures Round(B12, 0x08311575366DFFFD) == B13 {}
  lemma Round13() ensures Round(B13, 0xCB91EDC3362F6AA1) == B14 {}
  lemma Round14() ensures Round(B14, 0x0C0305C3F518042E) == B15 {}
  lemma Round15() ensures Round(B15, 0x3F7809565E38A75E) == B16 {}
  lemma Round16() ensures Round(B16, 0xFD8F7017CA8E416E) == B17 {}
  lemma Round17() ensures Round(B17, 0x0E058C1D43BDBF5E) == B18 {}
  lemma Round18() ensures Round(B18, 0xF2181E83078F633C) == B19 {}
  lemma Round19() ensures Round(B19, 0x12ADBC8DDE87232F) == B20 {}
  lemma Round20() ensures Round(B20, 0x1808A9A2B12A4835) == B21 {}
  lemma Round21() ensures Round(B21, 0x886FFD8E453D7F85) == B22 {}
  lemma Round22() ensures Round(B22, 0x7F9783DEE5405671) == B23 {}
  lemma Round23() ensures Round(B23, 0x41553647FA3BBF54) == B24 {}
  lemma Round24() ensures Round(B24, 0x6790A0B8A992BB91) == B25 {}
  lemma Round25() ensures Round(B25, 0x8D475E5CB28981FA) == B26 {}
  lemma Round26() ensures Round(B26, 0x18EB4F6B40E06152) == B27 {}
  lemma Round27() ensures Round(B27, 0x0861E447248DACCE) == B28 {}
  lemma Round28() ensures Round(B28, 0x72018CF92B796A3F) == B29 {}
  lemma Round29() ensures Round(B29, 0x7F46602D1A3E9419) == B30 {}
  lemma Round30() ensures Round(B30, 0x53590CF77B30DFC4) == B31 {}
  lemma Round31() ensures Round(B31, 0xF3C1E06CFD629A16) == B32 {}
  lemma Round32() ensures Round(B32, 0xFC5F013613DD3135) == B33 {}
  lemma Round33() ensures Round(B33, 0x1A02056B802FAEF6) == B34 {}
  lemma Round34() ensures Round(B34, 0x846783A9CF1BF814) == B35 {}
  lemma Round35() ensures Round(B35, 0xD6841671BDBC0CC6) == B36 {}
  lemma Round36() ensures Round(B36, 0xA31B3ABE8076F610) == B37 {}
  lemma Round37() ensures Round(B37, 0x3DFB6C156F4FE4B6) == B38 {}
  lemma Round38() ensures Round(B38, 0x623EBA5CA89B0F90) == B39 {}
  lemma Round39() ensures Round(B39, 0xD1897281DD94AF28) == B40 {}
  lemma Round40() ensures Round(B40, 0xE8CBA626810AC017) == B41 {}
  lemma Round41() ensures Round(B41, 0x12B0BA3ED4576710) == B42 {}
  lemma Round42() ensures Round(B42, 0x27F1928653F59243) == B43 {}
  lemma Round43() ensures Round(B43, 0x6459D3334CA51BA4) == B44 {}
  lemma Round44() ensures Round(B44, 0xC61219AD9DD719BD) == B45 {}
  lemma Round45() ensures Round(B45, 0x3DE57CAB3BC05122) == B46 {}
  lemma Round46() ensures Round(B46, 0xEA19AF8C9239F4FE) == B47 {}
  lemma Round47() ensures Round(B47, 0x8D5F96BEBB02D0EA) == B48 {}
  lemma Round48() ensures Round(B48, 0xE3842F10F8D8E8E1) == B49 {}
  lemma Round49() ensures Round(B49, 0x7F473C0D0F8C33CD) == B50 {}
  lemma Round50() ensures Round(B50, 0xA60A99D3FA4CF6D9) == B51 {}
  lemma Round51() ensures Round(B51, 0xCE47AB7E80A4E231) == B52 {}
  lemma Round52() ensures Round(B52, 0xF9B3FD3CB773EF52) == B53 {}
  lemma Round53() ensures Round(B53, 0x851A56BCAA80029B) == B54 {}
  lemma Round54() ensures Round(B54, 0xB863F7519ABD9A76) == B55 {}
  lemma Round55() ensures Round(B55, 0x085816BCB96D6FDE) == B56 {}
  lemma Round56() ensures Round(B56, 0x6055FC9DEBF7687E) == B57 {}
  lemma Round57() ensures Round(B57, 0xB4B845E0615D31A2) == B58 {}
  lemma Round58() ensures Round(B58, 0x363499AE8AA7C894) == B59 {}
  lemma Round59() ensures Round(B59, 0x627D313F6160C9F9) == B60 {}
  lemma Round60() ensures Round(B60, 0xCB2611465FC12B50) == B61 {}
  lemma Round61() ensures Round(B61, 0x73BFCC5AFF52D55F) == B62 {}
  lemma Round62() ensures Round(B62, 0x03C4CABF5497ED92) == B63 {}
  lemma Round63() ensures Round(B63, 0x537302D9F1650B97) == B64 {}
  lemma Round64() ensures Round(B64, 0x61E094B881FF9A96) == B65 {}
  lemma Round65() ensures Round(B65, 0x2444879966513B02) == B66 {}
  lemma Round66() ensures Round(B66, 0x603D6E7F1810A8E3) == B67 {}
  lemma Round67() ensures Round(B67, 0xA79858EADD19BC25) == B68 {}
  lemma Round68() ensures Round(B68, 0x46F321815D0B6FAF) == B69 {}
  lemma Round69() ensures Round(B69, 0x1729F70E33C7E362) == B70 {}
  lemma Round70() ensures Round(B70, 0x8801448E713EB772) == B71 {}
  lemma Round71() ensures Round(B71, 0xC46D2A8DF85CA638) == B72 {}

  ghost predicate Reaches(ks: seq<Word>, n: nat, b: Block) {
    n <= |ks| && R.Run(Round, B0, ks[..n]) == b
  }

  lemma OneMore(ks: seq<Word>, n: nat, b: Block)
    requires Reaches(ks, n, b) && n < |ks|
    ensures Reaches(ks, n + 1, Round(b, ks[n]))
  {
    R.RunStep(Round, B0, ks, n);
    hide Round;
  }

  lemma Rounds0To17(ks: seq<Word>)
    requires Listed0(ks) && Reaches(ks, 0, B0)
    ensures Reaches(ks, 18, B18)
  {
    hide Round, Reaches;
    OneMore(ks, 0, B0); Round0();
    OneMore(ks, 1, B1); Round1();
    OneMore(ks, 2, B2); Round2();
    OneMore(ks, 3, B3); Round3();
    OneMore(ks, 4, B4); Round4();
    OneMore(ks, 5, B5); Round5();
    OneMore(ks, 6, B6); Round6();
    OneMore(ks, 7, B7); Round7();
    OneMore(ks, 8, B8); Round8();
    OneMore(ks, 9, B9); Round9();
    OneMore(ks, 10, B10); Round10();
    OneMore(ks, 11, B11); Round11();
    OneMore(ks, 12, B12); Round12();
    OneMore(ks, 13, B13); Round13();
    OneMore(ks, 14, B14); Round14();
    OneMore(ks, 15, B15); Round15();
    OneMore(ks, 16, B16); Round16();
    OneMore(ks, 17, B17); Round17();
  }

  lemma Rounds18To35(ks: seq<Word>)
    requires Listed18(ks) && Reaches(ks, 18, B18)
    ensures Reaches(ks, 36, B36)
  {
    hide Round, Reaches;
    OneMore(ks, 18, B18); Round18();
    OneMore(ks, 19, B19); Round19();
    OneMore(ks, 20, B20); Round20();
    OneMore(ks, 21, B21); Round21();
    OneMore(ks, 22, B22); Round22();
    OneMore(ks, 23, B23); Round23();
    OneMore(ks, 24, B24); Round24();
    OneMore(ks, 25, B25); Round25();
    OneMore(ks, 26, B26); Round26();
    OneMore(ks, 27, B27); Round27();
    OneMore(ks, 28, B28); Round28();
    OneMore(ks, 29, B29); Round29();
    OneMore(ks, 30, B30); Round30();
    OneMore(ks, 31, B31); Round31();
    OneMore(ks, 32, B32); Round32();
    OneMore(ks, 33, B33); Round33();
    OneMore(ks, 34, B34); Round34();
    OneMore(ks, 35, B35); Round35();
  }

  lemma Rounds36To53(ks: seq<Word>)
    requires Listed36(ks) && Reaches(ks, 36, B36)
    ensures Reaches(ks, 54, B54)
  {
    hide Round, Reaches;
    OneMore(ks, 36, B36); Round36();
    OneMore(ks, 37, B37); Round37();
    OneMore(ks, 38, B38); Round38();
    OneMore(ks, 39, B39); Round39();
    OneMore(ks, 40, B40); Round40();
    OneMore(ks, 41, B41); Round41();
    OneMore(ks, 42, B42); Round42();
    OneMore(ks, 43, B43); Round43();
    OneMore(ks, 44, B44); Round44();
    OneMore(ks, 45, B45); Round45();
    OneMore(ks, 46, B46); Round46();
    OneMore(ks, 47, B47); Round47();
    OneMore(ks, 48, B48); Round48();
    OneMore(ks, 49, B49); Round49();
    OneMore(ks, 50, B50); Round50();
    OneMore(ks, 51, B51); Round51();
    OneMore(ks, 52, B52); Round52();
    OneMore(ks, 53, B53); Round53();
  }

  lemma Rounds54To71(ks: seq<Word>)
    requires Listed54(ks) && Reaches(ks, 54, B54)
    ensures Reaches(ks, 72, B72)
  {
    hide Round, Reaches;
    OneMore(ks, 54, B54); Round54();
    OneMore(ks, 55, B55); Round55();
    OneMore(ks, 56, B56); Round56();
    OneMore(ks, 57, B57); Round57();
    OneMore(ks, 58, B58); Round58();
    OneMore(ks, 59, B59); Round59();
    OneMore(ks, 60, B60); Round60();
    OneMore(ks, 61, B61); Round61();
    OneMore(ks, 62, B62); Round62();
    OneMore(ks, 63, B63); Round63();
    OneMore(ks, 64, B64); Round64();
    OneMore(ks, 65, B65); Round65();
    OneMore(ks, 66, B66); Round66();
    OneMore(ks, 67, B67); Round67();
    OneMore(ks, 68, B68); Round68();
    OneMore(ks, 69, B69); Round69();
    OneMore(ks, 70, B70); Round70();
    OneMore(ks, 71, B71); Round71();
  }

  lemma AllKeys(ks: seq<Word>)
    requires ks == RoundKeys(KEY)
    ensures Listed0(ks) && Listed18(ks) && Listed36(ks) && Listed54(ks)
  {
    hide RoundKeys, Listed0, Listed18, Listed36, Listed54;
    Keys0To17(KEY, ks);
    Keys18To35(KEY, ks);
    Keys36To53(KEY, ks);
    Keys54To71(KEY, ks);
  }

  lemma AllRounds(ks: seq<Word>)
    requires Listed0(ks) && Listed18(ks) && Listed36(ks) && Listed54(ks)
    ensures Reaches(ks, 72, B72)
  {
    hide Round, Listed0, Listed18, Listed36, Listed54;
    assert ks[..0] == [];
    Rounds0To17(ks);
    Rounds18To35(ks);
    Rounds36To53(ks);
    Rounds54To71(ks);
  }

  /** The ciphertext block the paper prints for this key and plaintext block. */
  lemma PublishedVector()
    ensures Encrypt(Block(0x6D69732061207369, 0x74206E69206D6F6F), KEY)
            == Block(0x3BF72A87EFE7B868, 0x8D2B5579AFC8A3A0)
  {
    hide Round, RoundKeys, KEY, Listed0, Listed18, Listed36, Listed54;
    var ks := RoundKeys(KEY);
    AllKeys(ks);
    AllRounds(ks);
    assert ks[..72] == ks;
  }
}
