/** The worked example of the Salsa20 core, round by round. */
module SalsaExample {
  import opened Basics
  import opened Salsa20

  const X0: seq<Word> := [
    0x730D_9FD3, 0xB752_374C, 0x25DE_7503, 0x88EA_BBBF, 0x30B3_ED31, 0xDBB2_6A01, 0x30A6_C7AF, 0xCFB3_1056,
    0x3F20_F01F, 0xA15D_530F, 0x7130_9374, 0x24CC_37EE, 0x4FEB_C94F, 0x2F9C_5103, 0xF3F4_1ACB, 0x3668_7658]
  const X1: seq<Word> := [
    0x9013_8B67, 0xF0F4_6083, 0x5368_73F2, 0x8833_3019, 0xE47E_FF55, 0xB528_FF35, 0x6308_AB73, 0xB524_9859,
    0xC226_F585, 0xF7FA_31F1, 0x8F09_046C, 0x5F97_B239, 0x6EBF_71BE, 0xC774_46FF, 0x6F4E_2DDD, 0x4284_6107]
  const X2: seq<Word> := [
    0xCC23_C52B, 0xE1C6_67E9, 0xD1FC_9A7F, 0xE677_8630, 0xEA0E_B13B, 0x2EB4_27A8, 0xDBAC_2070, 0x08DF_1806,
    0xA279_B172, 0x3D13_CB34, 0x26FC_1BC1, 0x923C_70BF, 0x0AE9_19BD, 0xE831_A30E, 0x3000_BC47, 0x3154_54A1]
  const X3: seq<Word> := [
    0x71F3_A1B2, 0xA541_A407, 0x1A09_4BBB, 0x73ED_61B8, 0xB8AD_AC77, 0xE41F_6ECB, 0xAB14_BBF6, 0x9E29_EA6D,
    0x9B95_56C6, 0x36DA_47B0, 0x2416_57E2, 0x84CC_5DAC, 0x077F_1832, 0x893F_0F72, 0xA0EA_36D1, 0x10B5_3CA5]
  const X4: seq<Word> := [
    0xE329_AFEE, 0x8DD4_6653, 0x3438_4939, 0x26D1_D133, 0xFF72_ED5A, 0x82E4_C71A, 0x40DF_AF2A, 0x57B0_44F3,
    0xDBEA_FA94, 0x720F_73F9, 0xF475_2034, 0x0C84_A84E, 0x7E6A_B626, 0x8313_02B7, 0x8278_7A99, 0xFFCC_C3BE]
  const X5: seq<Word> := [
    0x7769_6EF8, 0x43F5_70AD, 0xED8A_DB15, 0x071F_9105, 0x4DCB_33DD, 0xB27A_E953, 0xF432_7278, 0xB189_51DE,
    0x6AD9_1230, 0xE71A_69AD, 0xA150_9372, 0xFC0D_39ED, 0xCBBB_686C, 0x7B6C_3EA4, 0xDCFD_DD67, 0x9CEA_2B01]
  const X6: seq<Word> := [
    0x6AE6_02F8, 0x8C1E_2D88, 0xC66F_ED5E, 0xBFF1_2C18, 0xF9FE_8BF5, 0x52D0_EE73, 0x3126_B9E7, 0x1F22_7909,
    0x154C_97C6, 0xBB29_F83C, 0x7224_F0D2, 0x7A06_892E, 0xF730_2552, 0xB190_0FC0, 0x1BDD_7D35, 0x1F70_3269]
  const X7: seq<Word> := [
    0x547C_6BF6, 0x9B03_1F12, 0x5940_552C, 0x6A2B_395C, 0x000E_28A2, 0xD960_9A51, 0xCAB1_9001, 0x6886_0723,
    0xF2FF_9AA0, 0x8DDA_6150, 0x524A_F580, 0x311A_7153, 0xBE6A_A301, 0x7735_873F, 0xBB40_2750, 0x1811_CA57]
  const X8: seq<Word> := [
    0x9154_6D65, 0x7809_89CC, 0x536A_6184, 0x815C_F516, 0x6354_717B, 0xB74A_CE4C, 0x8DCD_3E16, 0x84B3_48D3,
    0x150B_03B6, 0x5DC6_9B2C, 0x81C3_F067, 0x492C_0A4C, 0x1624_211F, 0xC069_B1B4, 0x7F58_9D0F, 0x8194_5B08]
  const X9: seq<Word> := [
    0x7FA6_4F68, 0xA4F8_25D5, 0x982C_9B5F, 0x7948_D8D7, 0xEB06_9E87, 0xE1E2_3458, 0x1495_5607, 0x58E4_4AA6,
    0x3271_E5FE, 0x7C60_65E5, 0xC07F_1CEC, 0x6482_7659, 0x23AC_E790, 0x8006_E980, 0xCDED_B7FE, 0x1491_5D49]
  const X10: seq<Word> := [
    0x35A4_8A9A, 0x37A6_B950, 0xA5E0_4FA5, 0x11BF_B25B, 0xE9E2_2FEC, 0x1E38_B495, 0x0054_DC0F, 0x6980_7FEF,
    0x5E77_3857, 0xBCBD_E6A5, 0xB2BB_96F7, 0x4DA6_372D, 0x37FD_238C, 0xE2D2_4A6C, 0xAA6B_CD4D, 0x93C7_9D5B]

  lemma {:induction false} Round1()
    ensures DoubleRound(X0) == X1
  {
    var columns := [
      0x003C_E509, 0x8DCA_AD0A, 0x31E3_6A10, 0x12BD_9892, 0x4C07_7C50, 0xEB92_99BB, 0xAE03_AEE8, 0x83AE_C4C4,
      0x1518_B761, 0x230D_F5C6, 0x12D3_ECE8, 0xAF66_E523, 0x499D_E56B, 0xAF23_DEFE, 0x1859_8B1B, 0x91F4_BA0E];
    ColumnsAre(X0, columns);
    RowsAre(columns, X1);
  }

  lemma {:induction false} Round2()
    ensures DoubleRound(X1) == X2
  {
    var columns := [
      0x4E9D_24FB, 0x8A1C_C603, 0x16E5_521F, 0x863A_9048, 0x8D00_6DAA, 0x0BB3_EC1F, 0x8180_C4BC, 0xC8C6_07C8,
      0xE5D4_D7BF, 0xF955_EDA2, 0xD467_65F4, 0x4C95_BBD9, 0xC612_5FE4, 0x3AAD_E9A3, 0x6799_C224, 0x4C00_3468];
    ColumnsAre(X1, columns);
    RowsAre(columns, X2);
  }

  lemma {:induction false} Round3()
    ensures DoubleRound(X2) == X3
  {
    var columns := [
      0xC43D_9668, 0x8C27_F8FE, 0xE47D_9569, 0x2E15_3651, 0x6C61_C550, 0xBF8E_3595, 0x5CE9_C963, 0xDBCA_FCB8,
      0xA96D_4703, 0x0054_03BC, 0x5DCD_1E5C, 0x945D_5183, 0xEB63_7B04, 0xF867_6B50, 0x641E_A4C6, 0x09B9_9400];
    ColumnsAre(X2, columns);
    RowsAre(columns, X3);
  }

  lemma {:induction false} Round4()
    ensures DoubleRound(X3) == X4
  {
    var columns := [
      0x8A98_C3C6, 0x5152_FA4D, 0xEE6C_7B09, 0xB320_4972, 0x01F1_5E4B, 0x4BD1_9B96, 0xA1A3_5F8C, 0x3525_C5EA,
      0x526A_AC21, 0x8653_2EF4, 0x4E40_17DD, 0x4527_C0A4, 0x8632_92B9, 0x6C04_71A6, 0x3563_DAB6, 0x0A8C_D593];
    ColumnsAre(X3, columns);
    RowsAre(columns, X4);
  }

  lemma {:induction false} Round5()
    ensures DoubleRound(X4) == X5
  {
    var columns := [
      0xC702_BC51, 0xF6BC_B3C7, 0x1DD3_2700, 0x0E67_D735, 0x3541_E76A, 0xA495_1401, 0x1F4F_C794, 0x3E85_A2EF,
      0x0CC4_4AA4, 0x2E99_C571, 0x4E25_D4BF, 0xA3C0_21D3, 0xB82B_7E66, 0x7E0A_15D5, 0x281F_D583, 0xECC7_4AA9];
    ColumnsAre(X4, columns);
    RowsAre(columns, X5);
  }

  lemma {:induction false} Round6()
    ensures DoubleRound(X5) == X6
  {
    var columns := [
      0x0F3C_1B7C, 0x791E_CF4D, 0x72FD_E468, 0x7CAD_E649, 0xDFA0_81FC, 0x4128_8AF7, 0x55A0_C077, 0x81AB_C5ED,
      0x7938_FA9E, 0xDF37_69D6, 0x322F_B108, 0xC98B_E626, 0xE428_2377, 0x1FCA_6D87, 0x1D7F_282D, 0x2CA7_07DF];
    ColumnsAre(X5, columns);
    RowsAre(columns, X6);
  }

  lemma {:induction false} Round7()
    ensures DoubleRound(X6) == X7
  {
    var columns := [
      0x6E5F_6658, 0x1D24_092B, 0x9C4A_813E, 0x04AC_E7D4, 0xF2EA_AEC4, 0x6675_3801, 0x6542_F2AD, 0x2516_0341,
      0xB42F_EF7D, 0xCCA4_05D3, 0xBD88_F6E7, 0x2764_2C16, 0xA4F8_11B1, 0x5878_83FE, 0xBE08_21E4, 0xA22D_0381];
    ColumnsAre(X6, columns);
    RowsAre(columns, X7);
  }

  lemma {:induction false} Round8()
    ensures DoubleRound(X7) == X8
  {
    var columns := [
      0xCB3F_3E78, 0xC31C_F1AF, 0xC2FA_E902, 0xFC36_EC78, 0x7389_532B, 0x5E71_6E52, 0x70AD_80FE, 0xF9EB_990B,
      0xF981_D930, 0xBC06_D0EA, 0xFA4A_3B21, 0x61AA_0F97, 0xDBE1_CEA0, 0xB9E3_F015, 0xC502_E7DE, 0xBA98_A401];
    ColumnsAre(X7, columns);
    RowsAre(columns, X8);
  }

  lemma {:induction false} Round9()
    ensures DoubleRound(X8) == X9
  {
    var columns := [
      0xAF7E_0ABD, 0xD2CD_3D9D, 0x744D_BFF7, 0xE16E_5F73, 0xDF13_3328, 0x4557_3BF3, 0x21A2_DB95, 0x81C7_BE15,
      0xDA4A_1956, 0xF7EA_973B, 0xEFF1_A7A5, 0x8A9D_062A, 0xBFAB_F634, 0xAAA2_BEEA, 0xB7CF_A388, 0x9168_6A9B];
    ColumnsAre(X8, columns);
    RowsAre(columns, X9);
  }

  lemma {:induction false} Round10()
    ensures DoubleRound(X9) == X10
  {
    var columns := [
      0x3DA6_541A, 0x1409_BBC7, 0x3FFA_9B4F, 0xF0A1_09EB, 0x429D_E2D6, 0xA155_F91F, 0xF9B9_26FE, 0x3C2A_22AC,
      0xBA15_987A, 0x114D_7326, 0xC94B_FA23, 0x0110_93C0, 0x4CC6_F806, 0xDF48_1466, 0x47D4_CE14, 0xCD21_A9A3];
    ColumnsAre(X9, columns);
    RowsAre(columns, X10);
  }

  lemma {:induction false} TenRounds()
    ensures Rounds(X0, 10) == X10
  {
    assert |X0| == 16;
    Round1(); Round2(); Round3(); Round4(); Round5(); Round6(); Round7(); Round8(); Round9(); Round10();
    hide DoubleRound, X0, X1, X2, X3, X4, X5, X6, X7, X8, X9, X10;
    assert Rounds(X0, 1) == X1;
    assert Rounds(X0, 2) == X2;
    assert Rounds(X0, 3) == X3;
    assert Rounds(X0, 4) == X4;
    assert Rounds(X0, 5) == X5;
    assert Rounds(X0, 6) == X6;
    assert Rounds(X0, 7) == X7;
    assert Rounds(X0, 8) == X8;
    assert Rounds(X0, 9) == X9;
  }

  predicate SumIs(x: seq<Word>, y: seq<Word>, z: seq<Word>, i: nat)
    requires |x| == |y| == |z| == 16 && i + 4 <= 16
  {
    && z[i] == WrappingAdd(x[i], y[i]) && z[i + 1] == WrappingAdd(x[i + 1], y[i + 1])
    && z[i + 2] == WrappingAdd(x[i + 2], y[i + 2]) && z[i + 3] == WrappingAdd(x[i + 3], y[i + 3])
  }

  lemma {:induction false} SumsAre(x: seq<Word>, y: seq<Word>, z: seq<Word>)
    requires |x| == |y| == |z| == 16
    requires SumIs(x, y, z, 0) && SumIs(x, y, z, 4) && SumIs(x, y, z, 8) && SumIs(x, y, z, 12)
    ensures Added(x, y) == z
  {
    hide WrappingAdd;
  }

  lemma {:induction false} CoreAdds(x: seq<Word>, y: seq<Word>)
    requires |x| == 16 && Rounds(x, 10) == y
    ensures Core(x) == Added(y, x)
  {
    hide Rounds, Added;
  }

  /** The core maps the first example of section 8 of the Salsa20 specification as printed there. */
  lemma {:induction false} CoreOfTheExample()
    ensures Core(X0) == [
      0xA8B2_2A6D, 0xEEF8_F09C, 0xCBBE_C4A8, 0x9AAA_6E1A, 0x1A96_1D1D, 0xF9EB_1E96, 0x30FB_A3BE, 0x3933_9045,
      0x9D98_2876, 0x5E1B_39B4, 0x23EC_2A6B, 0x7272_6F1B, 0x87E8_ECDB, 0x126E_9B6F, 0x9E5F_E818, 0xCA30_13B3]
  {
    var output := [
      0xA8B2_2A6D, 0xEEF8_F09C, 0xCBBE_C4A8, 0x9AAA_6E1A, 0x1A96_1D1D, 0xF9EB_1E96, 0x30FB_A3BE, 0x3933_9045,
      0x9D98_2876, 0x5E1B_39B4, 0x23EC_2A6B, 0x7272_6F1B, 0x87E8_ECDB, 0x126E_9B6F, 0x9E5F_E818, 0xCA30_13B3];
    TenRounds();
    hide Rounds, Added, Core;
    CoreAdds(X0, X10);
    SumsAre(X10, X0, output);
  }
}
