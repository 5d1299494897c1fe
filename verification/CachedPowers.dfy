/** The cached powers of ten, and the choice among them. */
module CachedPowers {
  import opened Powers
  import opened DiyFloat

  /** kCachedPowers_F: the significands of 10^-348, 10^-340, ..., 10^340. */
  function KCachedPowersF(i: nat): (r: Word)
    requires i < 87
    ensures r >= TWO_63
  {
    match i
    case 0 => 0xFA8FD5A0_081C0288
    case 1 => 0xBAAEE17F_A23EBF76
    case 2 => 0x8B16FB20_3055AC76
    case 3 => 0xCF42894A_5DCE35EA
    case 4 => 0x9A6BB0AA_55653B2D
    case 5 => 0xE61ACF03_3D1A45DF
    case 6 => 0xAB70FE17_C79AC6CA
    case 7 => 0xFF77B1FC_BEBCDC4F
    case 8 => 0xBE5691EF_416BD60C
    case 9 => 0x8DD01FAD_907FFC3C
    case 10 => 0xD3515C28_31559A83
    case 11 => 0x9D71AC8F_ADA6C9B5
    case 12 => 0xEA9C2277_23EE8BCB
    case 13 => 0xAECC4991_4078536D
    case 14 => 0x823C1279_5DB6CE57
    case 15 => 0xC2109436_4DFB5637
    case 16 => 0x9096EA6F_3848984F
    case 17 => 0xD77485CB_25823AC7
    case 18 => 0xA086CFCD_97BF97F4
    case 19 => 0xEF340A98_172AACE5
    case 20 => 0xB23867FB_2A35B28E
    case 21 => 0x84C8D4DF_D2C63F3B
    case 22 => 0xC5DD4427_1AD3CDBA
    case 23 => 0x936B9FCE_BB25C996
    case 24 => 0xDBAC6C24_7D62A584
    case 25 => 0xA3AB6658_0D5FDAF6
    case 26 => 0xF3E2F893_DEC3F126
    case 27 => 0xB5B5ADA8_AAFF80B8
    case 28 => 0x87625F05_6C7C4A8B
    case 29 => 0xC9BCFF60_34C13053
    case 30 => 0x964E858C_91BA2655
    case 31 => 0xDFF97724_70297EBD
    case 32 => 0xA6DFBD9F_B8E5B88F
    case 33 => 0xF8A95FCF_88747D94
    case 34 => 0xB9447093_8FA89BCF
    case 35 => 0x8A08F0F8_BF0F156B
    case 36 => 0xCDB02555_653131B6
    case 37 => 0x993FE2C6_D07B7FAC
    case 38 => 0xE45C10C4_2A2B3B06
    case 39 => 0xAA242499_697392D3
    case 40 => 0xFD87B5F2_8300CA0E
    case 41 => 0xBCE50864_92111AEB
    case 42 => 0x8CBCCC09_6F5088CC
    case 43 => 0xD1B71758_E219652C
    case 44 => 0x9C400000_00000000
    case 45 => 0xE8D4A510_00000000
    case 46 => 0xAD78EBC5_AC620000
    case 47 => 0x813F3978_F8940984
    case 48 => 0xC097CE7B_C90715B3
    case 49 => 0x8F7E32CE_7BEA5C70
    case 50 => 0xD5D238A4_ABE98068
    case 51 => 0x9F4F2726_179A2245
    case 52 => 0xED63A231_D4C4FB27
    case 53 => 0xB0DE6538_8CC8ADA8
    case 54 => 0x83C7088E_1AAB65DB
    case 55 => 0xC45D1DF9_42711D9A
    case 56 => 0x924D692C_A61BE758
    case 57 => 0xDA01EE64_1A708DEA
    case 58 => 0xA26DA399_9AEF774A
    case 59 => 0xF209787B_B47D6B85
    case 60 => 0xB454E4A1_79DD1877
    case 61 => 0x865B8692_5B9BC5C2
    case 62 => 0xC83553C5_C8965D3D
    case 63 => 0x952AB45C_FA97A0B3
    case 64 => 0xDE469FBD_99A05FE3
    case 65 => 0xA59BC234_DB398C25
    case 66 => 0xF6C69A72_A3989F5C
    case 67 => 0xB7DCBF53_54E9BECE
    case 68 => 0x88FCF317_F22241E2
    case 69 => 0xCC20CE9B_D35C78A5
    case 70 => 0x98165AF3_7B2153DF
    case 71 => 0xE2A0B5DC_971F303A
    case 72 => 0xA8D9D153_5CE3B396
    case 73 => 0xFB9B7CD9_A4A7443C
    case 74 => 0xBB764C4C_A7A44410
    case 75 => 0x8BAB8EEF_B6409C1A
    case 76 => 0xD01FEF10_A657842C
    case 77 => 0x9B10A4E5_E9913129
    case 78 => 0xE7109BFB_A19C0C9D
    case 79 => 0xAC2820D9_623BF429
    case 80 => 0x80444B5E_7AA7CF85
    case 81 => 0xBF21E440_03ACDD2D
    case 82 => 0x8E679C2F_5E44FF8F
    case 83 => 0xD433179D_9C8CB841
    case 84 => 0x9E19DB92_B4E31BA9
    case 85 => 0xEB96BF6E_BADF77D9
    case _ => 0xAF87023B_9BF0EE6B
  }

  /** kCachedPowers_E: their binary exponents. */
  function KCachedPowersE(i: nat): (r: int)
    requires i < 87
  {
    match i
    case 0 => -1220
    case 1 => -1193
    case 2 => -1166
    case 3 => -1140
    case 4 => -1113
    case 5 => -1087
    case 6 => -1060
    case 7 => -1034
    case 8 => -1007
    case 9 => -980
    case 10 => -954
    case 11 => -927
    case 12 => -901
    case 13 => -874
    case 14 => -847
    case 15 => -821
    case 16 => -794
    case 17 => -768
    case 18 => -741
    case 19 => -715
    case 20 => -688
    case 21 => -661
    case 22 => -635
    case 23 => -608
    case 24 => -582
    case 25 => -555
    case 26 => -529
    case 27 => -502
    case 28 => -475
    case 29 => -449
    case 30 => -422
    case 31 => -396
    case 32 => -369
    case 33 => -343
    case 34 => -316
    case 35 => -289
    case 36 => -263
    case 37 => -236
    case 38 => -210
    case 39 => -183
    case 40 => -157
    case 41 => -130
    case 42 => -103
    case 43 => -77
    case 44 => -50
    case 45 => -24
    case 46 => 3
    case 47 => 30
    case 48 => 56
    case 49 => 83
    case 50 => 109
    case 51 => 136
    case 52 => 162
    case 53 => 189
    case 54 => 216
    case 55 => 242
    case 56 => 269
    case 57 => 295
    case 58 => 322
    case 59 => 348
    case 60 => 375
    case 61 => 402
    case 62 => 428
    case 63 => 455
    case 64 => 481
    case 65 => 508
    case 66 => 534
    case 67 => 561
    case 68 => 588
    case 69 => 614
    case 70 => 641
    case 71 => 667
    case 72 => 694
    case 73 => 720
    case 74 => 747
    case 75 => 774
    case 76 => 800
    case 77 => 827
    case 78 => 853
    case 79 => 880
    case 80 => 907
    case 81 => 933
    case 82 => 960
    case 83 => 986
    case 84 => 1013
    case 85 => 1039
    case _ => 1066
  }

  /** Certificate for the table: the next 64 bits of each power of ten, signed, so
      that F * 2^64 + Residue is the power rounded to 128 bits. */
  function Residue(i: nat): (r: int)
    requires i < 87
  {
    match i
    case 0 => 0x1732C869_CD60E454
    case 1 => 0x5D79BCF0_0D2DF64A
    case 2 => 0x4C3BCB50_21AFCC31
    case 3 => 0x52064CAC_828675B9
    case 4 => 0x47B233C9_2125366F
    case 5 => 0x6FB92487_298E33BE
    case 6 => 0x6DBD630A_48AAF407
    case 7 => 0x25E8E89C_13BB0F7B
    case 8 => 0x23CC986B_C656D554
    case 9 => -0x51C25826_80986D1C
    case 10 => 0x0D5A5B44_CA873E04
    case 11 => 0x6F773FC3_603DB4A9
    case 12 => 0x465E15A9_79C1CADC
    case 13 => 0x58FAE9F7_73886E19
    case 14 => 0x76C53D08_D6B70858
    case 15 => -0x67A6EA03_ED0ABD1B
    case 16 => 0x3FF0D2C8_5DEF7622
    case 17 => 0x7D633293_366B828B
    case 18 => -0x7F175BF1_332DD75B
    case 19 => -0x7904768E_E93783CB
    case 20 => -0x16619E65_B0DC55BD
    case 21 => 0x29ECD9F4_0041E073
    case 22 => 0x40EFF1E1_853F29FE
    case 23 => -0x354EF226_FF4113CB
    case 24 => -0x20BA08B9_48B540C7
    case 25 => -0x3EC19F2F_2D1F1446
    case 26 => 0x5A89DBA3_C3EFCCFB
    case 27 => 0x0D819992_132456BB
    case 28 => 0x11471CD7_64AD4973
    case 29 => -0x03764C6C_22FD0F4A
    case 30 => 0x3A6A07F8_D510F870
    case 31 => 0x59787E2B_93BC56F7
    case 32 => -0x34B332AF_F09446AD
    case 33 => 0x75A44C63_97CE912A
    case 34 => -0x07F71BF1_72A4C196
    case 35 => 0x1B8E9ECB_641B5900
    case 36 => 0x3792F412_CB06794D
    case 37 => -0x1AB957FC_7101BFD7
    case 38 => -0x73476582_4883AF95
    case 39 => -0x221AF42E_2A2F4616
    case 40 => -0x74356291_E777AC04
    case 41 => -0x770B44E3_59430A7C
    case 42 => -0x06C07848_BBD1BA2C
    case 43 => -0x2C3C9EEC_BFB15B57
    case 44 => 0x00000000_00000000
    case 45 => 0x00000000_00000000
    case 46 => 0x00000000_00000000
    case 47 => 0x40000000_00000000
    case 48 => 0x4B9F1000_00000000
    case 49 => -0x1B7DFFDC_5E000000
    case 50 => 0x72A49045_98D6D880
    case 51 => 0x01D76242_2C946591
    case 52 => 0x4CA7AAA8_63EE4BDD
    case 53 => 0x3B25A55F_43294BCC
    case 54 => 0x792667C6_DA79E0FA
    case 55 => 0x3BA5D0BD_324F8394
    case 56 => 0x593C2626_705F9C56
    case 57 => -0x17F190B7_DF336B6A
    case 58 => -0x1C41A1CC_F0C70F62
    case 59 => -0x3F9873A2_42DC5B66
    case 60 => 0x29BABE45_98C311FC
    case 61 => 0x0B8A2392_BA45A9B2
    case 62 => 0x6F928294_94E5ACC7
    case 63 => -0x226BA58B_840D9E7C
    case 64 => 0x6FCA5F8E_D9AEF3BB
    case 65 => 0x43FAB983_7E699096
    case 66 => -0x7552AB61_A8D8C2BB
    case 67 => 0x0C11ED6D_538AEB2F
    case 68 => 0x441FECE3_BDF81F03
    case 69 => 0x31EC038D_F7B441F4
    case 70 => -0x3C8D85CC_85748FB6
    case 71 => 0x2E44AE64_840FD61E
    case 72 => 0x7F1839A7_41A14D0D
    case 73 => 0x169840EF_017DA3B1
    case 74 => -0x6292E52B_E541C80E
    case 75 => 0x1AD089B6_C2F7548E
    case 76 => 0x2D2B7569_B0432D85
    case 77 => -0x35830D4B_E6E37CD9
    case 78 => 0x0CC51267_0A783AD5
    case 79 => 0x546345FA_9FBDCD44
    case 80 => 0x7980D163_CF5B81B3
    case 81 => -0x1FB8F59C_1942A93D
    case 82 => 0x570F09EA_A7EA7648
    case 83 => 0x5FA60692_A46151EC
    case 84 => 0x6C07A2C2_6A8346D1
    case 85 => -0x1BE3A42E_73A81771
    case _ => -0x14705283_80797F4C
  }

  function DecimalExponent(i: nat): int {
    8 * i - 348
  }

  function Wide(i: nat): int
    requires i < 87
  {
    KCachedPowersF(i) * TWO_64 + Residue(i)
  }

  /** Consecutive 128-bit entries differ by 10^8, up to one final rounding each. */
  predicate ConsecutiveEntries(i: nat)
    requires i < 86
  {
    var shift := KCachedPowersE(i + 1) - KCachedPowersE(i);
    && (shift == 26 || shift == 27)
    && -0x800_0000 <= Wide(i) * 100000000 - Wide(i + 1) * (if shift == 26 then 0x400_0000 else 0x800_0000) <= 0x800_0000
  }

  /** The binary exponent is that of the power of ten, measured with the constant
      GetCachedPower uses for log10(2). */
  predicate ExponentMatches(i: nat)
    requires i < 87
  {
    (KCachedPowersE(i) + 63) * LOG10_2 <= DecimalExponent(i) * LOG10_2_DENOMINATOR < (KCachedPowersE(i) + 64) * LOG10_2
  }

  /** The residue stays clear of half a unit of the cached significand. */
  predicate ResidueSmall(i: nat)
    requires i < 87
  {
    -TWO_63 + 0x2000_0000_0000 <= Residue(i) <= TWO_63 - 0x2000_0000_0000
  }

  const LOG10_2: int := 30102999566398114
  const LOG10_2_DENOMINATOR: int := 100000000000000000
  const LOG: real := 0.30102999566398114

  lemma EntriesCheckA(i: nat)
    requires 0 <= i < 22
    ensures i < 86 ==> ConsecutiveEntries(i)
    ensures ExponentMatches(i) && ResidueSmall(i)
  {
  }

  lemma EntriesCheckB(i: nat)
    requires 22 <= i < 44
    ensures i < 86 ==> ConsecutiveEntries(i)
    ensures ExponentMatches(i) && ResidueSmall(i)
  {
  }

  lemma EntriesCheckC(i: nat)
    requires 44 <= i < 66
    ensures i < 86 ==> ConsecutiveEntries(i)
    ensures ExponentMatches(i) && ResidueSmall(i)
  {
  }

  lemma EntriesCheckD(i: nat)
    requires 66 <= i < 87
    ensures i < 86 ==> ConsecutiveEntries(i)
    ensures ExponentMatches(i) && ResidueSmall(i)
  {
  }

  /** Everything the certificate says about one entry. */
  lemma EntryCheck(i: nat)
    requires i < 87
    ensures i < 86 ==> ConsecutiveEntries(i)
    ensures ExponentMatches(i) && ResidueSmall(i)
  {
    hide ConsecutiveEntries, ExponentMatches, ResidueSmall;
    if i < 22 {
      EntriesCheckA(i);
    } else if i < 44 {
      EntriesCheckB(i);
    } else if i < 66 {
      EntriesCheckC(i);
    } else {
      EntriesCheckD(i);
    }
  }


  /** |x - y| <= bound. */
  predicate Near(x: real, y: real, bound: real) {
    -bound <= x - y <= bound
  }

  /** g' * m is 10^8 * g, to within 2^27. */
  ghost predicate Consecutive(g: real, g': real, m: real) {
    Near(g * 100000000.0, g' * m, 134217728.0)
  }

  /** One entry up: the products of the two entries with their units, given by name. */
  lemma ErrorUp(g: real, g': real, m: real, x: real, x': real, u: real, u': real, a: real)
    requires u > 0.0 && a >= 0.0 && m >= 67108864.0
    requires Consecutive(g, g', m)
    requires x' == 100000000.0 * x && u' == m * u
    requires NearScaled(g, u, x, a)
    ensures NearScaled(g', u', x', 2.0 * a + 2.0)
  {
    hide Near, Consecutive, NearScaled;
    var b := 2.0 * a + 2.0;
    var gu, gu', au, bu, bu' := g * u, g' * u', a * u, b * u, b * u';
    Drift(g, g', m, u, u');
    ScaleAtLeast(67108864.0, m, b, u, u');
    Monomials(a, u);
    ScaledBounds(g, u, x, a, gu, au);
    AddErrorsUp(gu, gu', au, u, x, x', bu, bu');
    ScaledBounds(g', u', x', b, gu', bu');
  }

  lemma ScaledBounds(g: real, u: real, x: real, a: real, gu: real, au: real)
    requires gu == g * u && au == a * u
    ensures NearScaled(g, u, x, a) <==> Near(gu, x, au)
  {
  }

  lemma AddErrorsUp(g: real, g': real, a: real, u: real, x: real, x': real, b: real, b': real)
    requires Near(100000000.0 * g, g', 134217728.0 * u)
    requires Near(g, x, a) && x' == 100000000.0 * x
    requires b == 2.0 * a + 2.0 * u && 67108864.0 * b <= b' && a >= 0.0
    ensures Near(g', x', b')
  {
  }

  lemma ErrorDown(g: real, g': real, m: real, x: real, x': real, u: real, u': real, a: real)
    requires u > 0.0 && a >= 0.0 && m <= 134217728.0
    requires Consecutive(g, g', m)
    requires x' == 100000000.0 * x && u' == m * u
    requires NearScaled(g', u', x', a)
    ensures NearScaled(g, u, x, 2.0 * a + 2.0)
  {
    hide Near, Consecutive, NearScaled;
    var b := 2.0 * a + 2.0;
    var gu, gu', au, au', bu := g * u, g' * u', a * u, a * u', b * u;
    Drift(g, g', m, u, u');
    ScaleAtLeast(m, 134217728.0, a, u, 134217728.0 * u);
    Monomials(a, u);
    Reorder(a, m, u, 134217728.0);
    ScaledBounds(g', u', x', a, gu', au');
    AddErrorsDown(gu, gu', au, u, x, x', bu, au');
    ScaledBounds(g, u, x, b, gu, bu);
  }

  lemma Reorder(a: real, m: real, u: real, k: real)
    ensures a * (m * u) == m * (a * u)
    ensures a * (k * u) == k * (a * u)
  {
  }

  lemma AddErrorsDown(g: real, g': real, a: real, u: real, x: real, x': real, b: real, a': real)
    requires Near(100000000.0 * g, g', 134217728.0 * u)
    requires Near(g', x', a') && x' == 100000000.0 * x
    requires b == 2.0 * a + 2.0 * u && a' <= 134217728.0 * a && a >= 0.0 && u > 0.0
    ensures Near(g, x, b)
  {
  }

  lemma Drift(g: real, g': real, m: real, u: real, u': real)
    requires u > 0.0 && u' == m * u
    requires Consecutive(g, g', m)
    ensures Near(100000000.0 * (g * u), g' * u', 134217728.0 * u)
  {
    var drift := g * 100000000.0 - g' * m;
    assert g' * u' == (g' * m) * u;
    assert drift * u == 100000000.0 * (g * u) - (g' * m) * u;
    NonNegative(134217728.0 - drift, u);
    NonNegative(134217728.0 + drift, u);
  }

  lemma NonNegative(x: real, y: real)
    requires x >= 0.0 && y >= 0.0
    ensures x * y >= 0.0
  {
  }

  /** low * (b * u) <= b * u' when u' is u scaled by at least low. */
  lemma ScaleAtLeast(low: real, m: real, b: real, u: real, u': real)
    requires u > 0.0 && b >= 0.0 && u' == m * u && low <= m
    ensures low * (b * u) <= b * u'
  {
    assert b * u >= 0.0;
    assert b * u' == m * (b * u);
    assert (m - low) * (b * u) >= 0.0;
  }

  lemma Monomials(a: real, u: real)
    requires u > 0.0 && a >= 0.0
    ensures (2.0 * a + 2.0) * u == 2.0 * (a * u) + 2.0 * u
    ensures a * u >= 0.0
  {
  }

  function WideUnit(i: nat): (u: real)
    requires i < 87
    ensures u > 0.0
  {
    Two(KCachedPowersE(i) - 64)
  }

  ghost predicate WideNear(i: nat, bound: real)
    requires i < 87
  {
    NearScaled(Wide(i) as real, WideUnit(i), Ten(DecimalExponent(i)), bound)
  }

  /** g units are x, to within a units. */
  ghost predicate NearScaled(g: real, u: real, x: real, a: real) {
    Near(g * u, x, a * u)
  }

  /** The units and the powers of two neighbouring entries. */
  lemma EntryStep(i: nat) returns (m: real)
    requires i < 86
    ensures m == 67108864.0 || m == 134217728.0
    ensures Consecutive(Wide(i) as real, Wide(i + 1) as real, m)
    ensures Ten(DecimalExponent(i + 1)) == 100000000.0 * Ten(DecimalExponent(i))
    ensures WideUnit(i + 1) == m * WideUnit(i)
  {
    hide Two, Ten, KCachedPowersE, KCachedPowersF, Residue, Wide;
    EntryCheck(i);
    var shift := KCachedPowersE(i + 1) - KCachedPowersE(i);
    m := if shift == 26 then 67108864.0 else 134217728.0;
    Pow2Values();
    TwoOfNat(shift);
    TwoAdd(shift, KCachedPowersE(i) - 64);
    Pow10Values();
    TenOfNat(8);
    TenAdd(8, DecimalExponent(i));
  }

  function Slack(steps: nat): (r: real)
    ensures 0.0 <= r <= 2.0 * Pow2(steps) as real - 2.0
  {
    if steps == 0 then 0.0 else 2.0 * Slack(steps - 1) + 2.0
  }

  /** Starting from 10^4, which is exact, the 128-bit entries drift slowly. */
  lemma {:induction false} WideErrorUp(i: nat)
    requires 44 <= i < 87
    ensures WideNear(i, Slack(i - 44))
  {
    hide Two, Ten, Wide, WideUnit, NearScaled, Consecutive;
    if i == 44 {
      TenThousand();
    } else {
      WideErrorUp(i - 1);
      var m := EntryStep(i - 1);
      ErrorUp(Wide(i - 1) as real, Wide(i) as real, m, Ten(DecimalExponent(i - 1)), Ten(DecimalExponent(i)),
              WideUnit(i - 1), WideUnit(i), Slack(i - 45));
    }
  }

  lemma {:induction false} WideErrorDown(i: nat)
    requires i <= 44
    ensures WideNear(i, Slack(44 - i))
    decreases 44 - i
  {
    hide Two, Ten, Wide, WideUnit, NearScaled, Consecutive;
    if i == 44 {
      TenThousand();
    } else {
      WideErrorDown(i + 1);
      var m := EntryStep(i);
      ErrorDown(Wide(i) as real, Wide(i + 1) as real, m, Ten(DecimalExponent(i)), Ten(DecimalExponent(i + 1)),
                WideUnit(i), WideUnit(i + 1), Slack(43 - i));
    }
  }

  lemma TenThousand()
    ensures WideNear(44, 0.0)
  {
    hide Two, Ten;
    assert Wide(44) == 10000 * 0x4000_0000_0000 * 0x1_0000_0000 * 0x1_0000_0000 * 0x10;
    Pow10Values();
    TenOfNat(4);
    Pow2Values();
    Pow2Add(64, 50);
    Pow2Add(32, 18);
    Pow2Add(9, 9);
    TwoOfNat(114);
    TwoInverse(114);
    assert Wide(44) == 10000 * Pow2(114);
    Tidy(Wide(44), Pow2(114), Two(114), Two(-114));
  }

  lemma Tidy(w: int, p: int, t: real, u: real)
    requires w == 10000 * p && t == p as real && t * u == 1.0
    ensures w as real * u == 10000.0
  {
    assert w as real == 10000.0 * t;
  }

  /** Every cached power is its power of ten to within half a unit in the last
      place, for all 87 entries. */
  lemma CachedPowerError(i: nat)
    requires i < 87
    ensures NearScaled(KCachedPowersF(i) as real, Two(KCachedPowersE(i)), Ten(DecimalExponent(i)), 0.5)
  {
    hide Two, Ten, KCachedPowersE, KCachedPowersF, Residue, WideUnit, NearScaled;
    var slack := if i <= 44 then Slack(44 - i) else Slack(i - 44);
    if i <= 44 {
      WideErrorDown(i);
      Pow2Monotone(44 - i, 44);
    } else {
      WideErrorUp(i);
      Pow2Monotone(i - 44, 44);
    }
    Pow2Values();
    Pow2Add(32, 12);
    Pow2Add(11, 1);
    EntryCheck(i);
    UnitScale(i);
    DropResidue(Wide(i) as real, KCachedPowersF(i) as real, Residue(i) as real, WideUnit(i), Two(KCachedPowersE(i)),
                Ten(DecimalExponent(i)), slack);
  }

  lemma UnitScale(i: nat)
    requires i < 87
    ensures Two(KCachedPowersE(i)) == 18446744073709551616.0 * WideUnit(i)
  {
    hide Two, KCachedPowersE;
    TwoSixtyFour();
    TwoAdd(64, KCachedPowersE(i) - 64);
  }

  lemma TwoSixtyFour()
    ensures Two(64) == 18446744073709551616.0
  {
    hide Two, Pow2;
    Pow2Values();
    TwoOfNat(64);
  }

  lemma DropResidue(w: real, f: real, r: real, u: real, v: real, x: real, a: real)
    requires u > 0.0 && v == 18446744073709551616.0 * u
    requires 0.0 <= a <= 35184372088832.0
    requires Near(r, 0.0, 9223372036854775808.0 - 35184372088832.0)
    requires w == f * 18446744073709551616.0 + r
    requires NearScaled(w, u, x, a)
    ensures NearScaled(f, v, x, 0.5)
  {
    assert (35184372088832.0 - a) * u >= 0.0;
    assert (9223372036854775808.0 - 35184372088832.0 - r) * u >= 0.0;
    assert (9223372036854775808.0 - 35184372088832.0 + r) * u >= 0.0;
    Distribute(w, f, r, u);
  }

  lemma Distribute(w: real, f: real, r: real, u: real)
    requires w == f * 18446744073709551616.0 + r
    ensures w * u == 18446744073709551616.0 * (f * u) + r * u
    ensures f * (18446744073709551616.0 * u) == 18446744073709551616.0 * (f * u)
  {
  }

  /** The index GetCachedPower computes, with its ceiling taken on the exact
      rational; SameCeiling says that double arithmetic takes the same. */
  function CachedIndex(e: int): (index: nat)
    requires -1137 <= e <= 960
    ensures index < 87
  {
    var dk := (-61 - e) * LOG10_2 + 347 * LOG10_2_DENOMINATOR;
    var k := dk / LOG10_2_DENOMINATOR;
    var ceiling := if k * LOG10_2_DENOMINATOR != dk then k + 1 else k;
    ceiling / 8 + 1
  }

  /** The product exponent always lands in the window DigitGen needs. */
  lemma ExponentWindow(e: int)
    requires -1137 <= e <= 960
    ensures -60 <= e + KCachedPowersE(CachedIndex(e)) + 64 <= -34
  {
    hide KCachedPowersE;
    var index := CachedIndex(e);
    EntryCheck(index);
    assert (8 * index - 356) * LOG10_2_DENOMINATOR < (-61 - e) * LOG10_2 <= (8 * index - 348) * LOG10_2_DENOMINATOR;
  }

  /** What GetCachedPower hands to its caller: a cached power c of 10^-K, to
      within half a unit, that brings the exponent e into the window. */
  ghost predicate IsCachedPower(e: int, c: DiyFp, K: int) {
    && TWO_63 <= c.f
    && -60 <= e + c.e + 64 <= -34
    && -324 <= K <= 300
    && NearScaled(c.f as real, Two(c.e), Ten(-K), 0.5)
  }

  // ---- The same index in double arithmetic.

  /** y is x rounded to a double: off by at most one part in 2^53, and not at all when
      x is a whole number below 2^53. */
  predicate NearDouble(x: real, y: real) {
    && (if x < 0.0 then x else -x) <= (y - x) * 9007199254740992.0 <= (if x < 0.0 then -x else x)
    && (x == x.Floor as real && -9007199254740992.0 < x < 9007199254740992.0 ==> y == x)
  }

  /** The result of one double operation. */
  method RoundToDouble(x: real) returns (y: real)
    ensures NearDouble(x, y)
  {
    y := *;
    if !NearDouble(x, y) {
      y := x;
    }
  }

  /** No multiple of the logarithm comes near a whole number: 643/2136 is too good an
      approximation of it for that. */
  lemma FarFromWhole(n: int, m: int)
    requires -1021 <= n <= 1076 && n != 0
    ensures n as real * LOG < m as real - 0.0001 || n as real * LOG > m as real + 0.0001
  {
    var r := 643 * n - 2136 * m;
    assert n == 2136 * (1651 * m - 497 * n) + 1651 * r;
    assert n as real * LOG - m as real == r as real / 2136.0 + n as real * (LOG - 643.0 / 2136.0);
  }

  /** Three roundings do not move the ceiling. */
  lemma SameCeiling(n: int, log: real, product: real, dk: real)
    requires -1021 <= n <= 1076
    requires NearDouble(LOG, log) && NearDouble(n as real * log, product) && NearDouble(product + 347.0, dk)
    ensures dk > 0.0 && Ceiling(dk) / 8 + 1 == CachedIndex(-61 - n)
  {
    hide NearDouble, CachedIndex, Ceiling;
    ExactCeiling(n);
    if n == 0 {
      NoErrors(log, product, dk);
    } else {
      SmallErrors(n, log, product, dk);
      CloseCeiling(n, n as real * LOG + 347.0, dk);
    }
  }

  function Ceiling(x: real): int {
    if x.Floor as real != x then x.Floor + 1 else x.Floor
  }

  lemma CloseCeiling(n: int, x: real, y: real)
    requires -1021 <= n <= 1076 && n != 0 && x == n as real * LOG + 347.0
    requires x - 0.0001 < y < x + 0.0001
    ensures y > 0.0 && Ceiling(y) == Ceiling(x)
  {
    FarFromWhole(n, x.Floor - 347);
    FarFromWhole(n, x.Floor - 346);
    assert y.Floor == x.Floor;
  }

  lemma NoErrors(log: real, product: real, dk: real)
    requires NearDouble(0.0 * log, product) && NearDouble(product + 347.0, dk)
    ensures dk > 0.0 && Ceiling(dk) == Ceiling(347.0)
  {
    assert 0.0 * log == 0.0;
  }

  /** The roundings together are off by less than a ten-thousandth. */
  lemma SmallErrors(n: int, log: real, product: real, dk: real)
    requires -1021 <= n <= 1076
    requires NearDouble(LOG, log) && NearDouble(n as real * log, product) && NearDouble(product + 347.0, dk)
    ensures n as real * LOG + 347.0 - 0.0001 < dk < n as real * LOG + 347.0 + 0.0001
  {
    hide NearDouble;
    var p := n as real * log;
    RelativeError(LOG, log, 1.0);
    Deviation(n as real, log, p);
    AddUp(n as real * LOG, p, product, dk);
  }

  lemma Deviation(r: real, log: real, p: real)
    requires -1100.0 <= r <= 1100.0 && p == r * log
    requires -0.000000000000001 <= log - LOG <= 0.000000000000001
    ensures r * LOG - 0.00000001 <= p <= r * LOG + 0.00000001
  {
    var d := log - LOG;
    SmallProduct(r, 1100.0, d, 0.000000000000001);
    assert r * (LOG + d) == r * LOG + r * d;
  }

  lemma AddUp(q: real, p: real, product: real, dk: real)
    requires -400.0 <= q <= 400.0 && q - 0.00000001 <= p <= q + 0.00000001
    requires NearDouble(p, product) && NearDouble(product + 347.0, dk)
    ensures q + 347.0 - 0.0001 < dk < q + 347.0 + 0.0001
  {
    RelativeError(p, product, 1000.0);
    RelativeError(product + 347.0, dk, 2000.0);
  }

  lemma RelativeError(x: real, y: real, a: real)
    requires NearDouble(x, y) && -a <= x <= a
    ensures -a * 0.000000000000001 <= y - x <= a * 0.000000000000001
  {
  }

  lemma SmallProduct(x: real, a: real, y: real, b: real)
    requires -a <= x <= a && -b <= y <= b
    ensures -a * b <= x * y <= a * b
  {
    assert (a - x) * (b + y) >= 0.0;
    assert (a + x) * (b - y) >= 0.0;
    assert (a - x) * (b - y) >= 0.0;
    assert (a + x) * (b + y) >= 0.0;
  }

  lemma ExactCeiling(n: int)
    requires -1021 <= n <= 1076
    ensures CachedIndex(-61 - n) == Ceiling(n as real * LOG + 347.0) / 8 + 1
  {
    var exact := n as real * LOG + 347.0;
    assert exact * LOG10_2_DENOMINATOR as real == (n * LOG10_2 + 347 * LOG10_2_DENOMINATOR) as real;
  }

  /** The cached power of ten for a boundary exponent. */
  function CachedPower(e: int): DiyFp
    requires -1137 <= e <= 960
  {
    DiyFp(KCachedPowersF(CachedIndex(e)), KCachedPowersE(CachedIndex(e)))
  }

  /** What is left of the decimal exponent after multiplying by it. */
  function CachedExponent(e: int): int
    requires -1137 <= e <= 960
  {
    -DecimalExponent(CachedIndex(e))
  }

  lemma CachedPowerFits(e: int)
    requires -1137 <= e <= 960
    ensures IsCachedPower(e, CachedPower(e), CachedExponent(e))
  {
    hide KCachedPowersE, KCachedPowersF, Two, Ten, NearScaled, CachedIndex;
    ExponentWindow(e);
    IndexRange(e);
    CachedPowerError(CachedIndex(e));
  }

  method GetCachedPower(e: int) returns (c: DiyFp, K: int)
    requires -1137 <= e <= 960
    ensures IsCachedPower(e, c, K)
    ensures c == CachedPower(e) && K == CachedExponent(e)
  {
    hide KCachedPowersE, KCachedPowersF, Two, Ten, NearScaled, NearDouble, CachedIndex;
    var log := RoundToDouble(LOG);
    var n := -61 - e;
    var product := RoundToDouble(n as real * log);
    var dk := RoundToDouble(product + 347.0);
    SameCeiling(n, log, product, dk);
    var k := dk.Floor;
    if k as real != dk {
      k := k + 1;
    }
    var index: int := k / 8 + 1;
    K := -(-348 + index * 8);
    c := DiyFp(KCachedPowersF(index), KCachedPowersE(index));
    CachedPowerFits(e);
  }

  lemma IndexRange(e: int)
    requires -1137 <= e <= 960
    ensures 6 <= CachedIndex(e) <= 84
  {
  }
}

