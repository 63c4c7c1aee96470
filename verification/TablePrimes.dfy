/**
 * The largest bucket counts that a table can have: the largest primes up to the number of pointers that fit in an
 * address space of 32 and of 64 bits, with their certificates.
 */
module TablePrimes {

  import opened Primes
  import opened PrimeCertificates
  import opened LargestPrimes

  lemma Prime16381()
    ensures IsPrime(16381)
  {
    hide IsPrime;
    assert NoneOfEights(16381, 66, 128);
    assert NoneOfEights(16381, 2, 128);
    SmallPrime(16381, 128);
  }

  lemma Prime1321()
    ensures IsPrime(1321)
  {
    hide IsPrime;
    assert NoneOfEights(1321, 2, 37);
    SmallPrime(1321, 37);
  }

  lemma Prime2341()
    ensures IsPrime(2341)
  {
    hide IsPrime;
    assert NoneOfEights(2341, 2, 49);
    SmallPrime(2341, 49);
  }

  lemma {:induction false} ProductOfBoth(qs: seq<nat>, rs: seq<nat>)
    ensures Product(qs + rs) == Product(qs) * Product(rs)
  {
    if qs == [] {
      assert qs + rs == rs;
    } else {
      ProductOfBoth(qs[1..], rs);
      assert (qs + rs)[1..] == qs[1..] + rs;
      Grouped(qs[0], Product(qs[1..]), Product(rs));
    }
  }

  lemma Grouped(a: nat, b: nat, c: nat)
    ensures a * (b * c) == (a * b) * c
  {
  }

  lemma Prime32To16387()
    ensures PowMod(2, 16387, 1073741789) == 128634788
  {
    hide PowMod;
    ToTheNothing(2, 1073741789);
    Hex(1073741789, 2, 0, 1, 4, 1, 1, 1, 2, 4, 4, 16, 16);
    Hex(1073741789, 2, 4, 16, 0, 256, 256, 65536, 65536, 140, 140, 19600, 19600);
    Hex(1073741789, 2, 64, 19600, 0, 384160000, 384160000, 861653270, 861653270, 974485725, 974485725, 643109388, 643109388);
    Hex(1073741789, 2, 1024, 643109388, 3, 818734586, 818734586, 728241212, 728241212, 549161942, 24582095, 64317394, 128634788);
  }

  lemma Prime32To65548()
    ensures PowMod(2, 65548, 1073741789) == 569480547
  {
    hide PowMod;
    Prime32To16387();
    ToTheNothing(128634788, 1073741789);
    Hex(1073741789, 128634788, 0, 1, 4, 1, 1, 1, 128634788, 107002554, 107002554, 569480547, 569480547);
    PowPow(2, 16387, 4, 1073741789);
  }

  lemma Prime32To536870894()
    ensures PowMod(2, 536870894, 1073741789) == 1073741788
  {
    hide PowMod;
    Prime32To16387();
    ToTheNothing(128634788, 1073741789);
    Hex(1073741789, 128634788, 0, 1, 7, 1, 1, 1, 128634788, 107002554, 1026954479, 1033158543, 442184729);
    Hex(1073741789, 128634788, 7, 442184729, 15, 608405927, 696664051, 122963639, 745310265, 131392629, 849707552, 975849377, 516834395);
    Hex(1073741789, 128634788, 127, 516834395, 15, 800030632, 438886254, 597604191, 459552900, 636165826, 38842613, 710948410, 1001283484);
    Hex(1073741789, 128634788, 2047, 1001283484, 10, 531016010, 1065476605, 740195887, 740195887, 565429225, 933053945, 1073741788, 1073741788);
    PowPow(2, 16387, 32762, 1073741789);
  }

  lemma Prime32To65524()
    ensures PowMod(2, 65524, 1073741789) == 213020763
  {
    hide PowMod;
    ToTheNothing(2, 1073741789);
    Hex(1073741789, 2, 0, 1, 15, 1, 2, 4, 8, 64, 128, 16384, 32768);
    Hex(1073741789, 2, 15, 32768, 15, 35, 70, 4900, 9800, 96040000, 192080000, 752284212, 430826635);
    Hex(1073741789, 2, 255, 430826635, 15, 1048927773, 1024113757, 160777347, 321554694, 741554541, 409367293, 182060303, 364120606);
    Hex(1073741789, 2, 4095, 364120606, 4, 674161380, 674161380, 101668252, 203336504, 603481592, 603481592, 213020763, 213020763);
  }

  lemma Prime32To458668()
    ensures PowMod(2, 458668, 1073741789) == 1025223969
  {
    hide PowMod;
    Prime32To65524();
    ToTheNothing(213020763, 1073741789);
    Hex(1073741789, 213020763, 0, 1, 7, 1, 1, 1, 213020763, 268814312, 135596750, 167366273, 1025223969);
    PowPow(2, 65524, 7, 1073741789);
  }

  lemma Prime32To153391684()
    ensures PowMod(2, 153391684, 1073741789) == 1069776153
  {
    hide PowMod;
    Prime32To65524();
    ToTheNothing(213020763, 1073741789);
    Hex(1073741789, 213020763, 0, 1, 9, 1, 213020763, 268814312, 268814312, 932167441, 932167441, 702006418, 767682835);
    Hex(1073741789, 213020763, 9, 767682835, 2, 702411924, 702411924, 399049911, 399049911, 1054305356, 656852456, 270795799, 270795799);
    Hex(1073741789, 213020763, 146, 270795799, 5, 352438087, 352438087, 16929046, 261758579, 622487847, 622487847, 1039618627, 1069776153);
    PowPow(2, 65524, 2341, 1073741789);
  }

  lemma Prime32All()
    ensures PowMod(2, 1073741788, 1073741789) == 1
  {
    hide PowMod;
    Prime32To536870894();
    ToTheNothing(1073741788, 1073741789);
    Hex(1073741789, 1073741788, 0, 1, 2, 1, 1, 1, 1, 1, 1073741788, 1, 1);
    PowPow(2, 536870894, 2, 1073741789);
  }

  lemma Prime32Ends()
    ensures EndsLater(2, 1073741789, 2)
    ensures EndsLater(2, 1073741789, 7)
    ensures EndsLater(2, 1073741789, 2341)
    ensures EndsLater(2, 1073741789, 16381)
  {
    hide PowMod;
    Prime32To536870894();
    Prime32To153391684();
    Prime32To458668();
    Prime32To65548();
  }

  lemma Prime32Factors()
    ensures IsPrime(2)
    ensures IsPrime(7)
    ensures IsPrime(2341)
    ensures IsPrime(16381)
  {
    hide IsPrime;
    SmallPrime(2, 2);
    SmallPrime(7, 3);
    Prime2341();
    Prime16381();
  }

  lemma Prime32()
    ensures IsPrime(1073741789)
  {
    hide PowMod, IsPrime, EndsLater;
    Prime32Factors();
    Prime32Ends();
    Prime32All();
    assert Product([2, 2, 7, 2341, 16381]) == 1073741788;
    Certified(1073741789, 2, [2, 2, 7, 2341, 16381]);
  }

  lemma Prime64To922149450()
    ensures PowMod(37, 922149450, 2305843009213693951) == 2205346145106174874
  {
    hide PowMod;
    ToTheNothing(37, 2305843009213693951);
    Hex(2305843009213693951, 37, 0, 1, 3, 1, 1, 1, 1, 1, 37, 1369, 50653);
    Hex(2305843009213693951, 37, 3, 50653, 6, 2565726409, 2565726409, 1971265987412647379, 1455708248643440542, 1591872098300023439, 1253192406758518468, 1091349452027953358, 1091349452027953358);
    Hex(2305843009213693951, 37, 54, 1091349452027953358, 15, 997920042730791870, 29553433620195974, 682164854544587657, 2181669526012803799, 1918937710322950551, 1825405005538351857, 1520858688388821469, 931539249257739529);
    Hex(2305843009213693951, 37, 879, 931539249257739529, 6, 2100748190493955269, 2100748190493955269, 540792500750482721, 1562578454058309069, 1883189666911254164, 502727399305585538, 632147292128709575, 632147292128709575);
    Hex(2305843009213693951, 37, 14070, 632147292128709575, 14, 163321707705674807, 1431217166682579957, 1332607216507981388, 883763817307738385, 2122379867127431553, 129392770449373127, 377414797478656188, 377414797478656188);
    Hex(2305843009213693951, 37, 225134, 377414797478656188, 2, 972667055008073620, 972667055008073620, 1786992351089013469, 1786992351089013469, 734583052698271366, 1815299848485407081, 1815729598427458831, 1815729598427458831);
    Hex(2305843009213693951, 37, 3602146, 1815729598427458831, 4, 1487090307280178220, 1487090307280178220, 1298516863146823764, 1928263752158600248, 1124276700596144609, 1124276700596144609, 600292593487181486, 600292593487181486);
    Hex(2305843009213693951, 37, 57634340, 600292593487181486, 10, 1873737651117680220, 153002814943349610, 1045293945984116108, 1045293945984116108, 249235427288274546, 2304181782025076349, 2205346145106174874, 2205346145106174874);
  }

  lemma Prime64To19181630709450()
    ensures PowMod(37, 19181630709450, 2305843009213693951) == 1923111353387675153
  {
    hide PowMod;
    Prime64To922149450();
    ToTheNothing(2205346145106174874, 2305843009213693951);
    Hex(2305843009213693951, 2205346145106174874, 0, 1, 5, 1, 1, 1, 2205346145106174874, 1780589619507140819, 1780589619507140819, 978201020050985710, 1652074005240699818);
    Hex(2305843009213693951, 2205346145106174874, 5, 1652074005240699818, 1, 1468412834466964413, 1468412834466964413, 2006841015175094334, 2006841015175094334, 1925462956766029731, 1925462956766029731, 2178461149725298214, 1073686399778363497);
    Hex(2305843009213693951, 2205346145106174874, 81, 1073686399778363497, 4, 1980660516255579302, 1980660516255579302, 551926740001951345, 1187498762938703959, 1718552548904274748, 1718552548904274748, 1415400479200863575, 1415400479200863575);
    Hex(2305843009213693951, 2205346145106174874, 1300, 1415400479200863575, 1, 1565092889932852934, 1565092889932852934, 638816730303964672, 638816730303964672, 1797021601459201024, 1797021601459201024, 873821590088631528, 1923111353387675153);
    PowPow(37, 922149450, 20801, 2305843009213693951);
  }

  lemma Prime64To1745528394559950()
    ensures PowMod(37, 1745528394559950, 2305843009213693951) == 30210013857155493
  {
    hide PowMod;
    Prime64To19181630709450();
    ToTheNothing(1923111353387675153, 2305843009213693951);
    Hex(2305843009213693951, 1923111353387675153, 0, 1, 5, 1, 1, 1, 1923111353387675153, 28862262498616489, 28862262498616489, 419139921977504808, 1776944229180048412);
    Hex(2305843009213693951, 1923111353387675153, 5, 1776944229180048412, 11, 238919444414159914, 888446992222590700, 5785000651647543, 5785000651647543, 1143373370781627080, 134221610515186197, 1435482923938465188, 30210013857155493);
    PowPow(37, 19181630709450, 91, 2305843009213693951);
  }

  lemma Prime64To25338934167183450()
    ensures PowMod(37, 25338934167183450, 2305843009213693951) == 223417494601207010
  {
    hide PowMod;
    Prime64To19181630709450();
    ToTheNothing(1923111353387675153, 2305843009213693951);
    Hex(2305843009213693951, 1923111353387675153, 0, 1, 5, 1, 1, 1, 1923111353387675153, 28862262498616489, 28862262498616489, 419139921977504808, 1776944229180048412);
    Hex(2305843009213693951, 1923111353387675153, 5, 1776944229180048412, 2, 238919444414159914, 238919444414159914, 625260903651425811, 625260903651425811, 1448238708602677845, 1948944537373572625, 1991047578318376457, 1991047578318376457);
    Hex(2305843009213693951, 1923111353387675153, 82, 1991047578318376457, 9, 520675336268510544, 1751711829640070942, 45383068671587237, 45383068671587237, 869426232383142247, 869426232383142247, 510945873390136614, 223417494601207010);
    PowPow(37, 19181630709450, 1321, 2305843009213693951);
  }

  lemma Prime64To177372539170284150()
    ensures PowMod(37, 177372539170284150, 2305843009213693951) == 1032504562576723207
  {
    hide PowMod;
    Prime64To25338934167183450();
    ToTheNothing(223417494601207010, 2305843009213693951);
    Hex(2305843009213693951, 223417494601207010, 0, 1, 7, 1, 1, 1, 223417494601207010, 371172417524801764, 1349823543809296776, 1133939352397532715, 1032504562576723207);
    PowPow(37, 25338934167183450, 7, 2305843009213693951);
  }

  lemma Prime64To329406144173384850()
    ensures PowMod(37, 329406144173384850, 2305843009213693951) == 1165310750493918737
  {
    hide PowMod;
    Prime64To25338934167183450();
    ToTheNothing(223417494601207010, 2305843009213693951);
    Hex(2305843009213693951, 223417494601207010, 0, 1, 13, 1, 223417494601207010, 371172417524801764, 1349823543809296776, 1133939352397532715, 1133939352397532715, 223277060415600682, 1165310750493918737);
    PowPow(37, 25338934167183450, 13, 2305843009213693951);
  }

  lemma Prime64To110852507533950()
    ensures PowMod(37, 110852507533950, 2305843009213693951) == 632327983945438969
  {
    hide PowMod;
    Prime64To922149450();
    ToTheNothing(2205346145106174874, 2305843009213693951);
    Hex(2305843009213693951, 2205346145106174874, 0, 1, 1, 1, 1, 1, 1, 1, 1, 1, 2205346145106174874);
    Hex(2305843009213693951, 2205346145106174874, 1, 2205346145106174874, 13, 1780589619507140819, 2067665026345501933, 947358092873477314, 1544401901791074957, 2124240252721235628, 2124240252721235628, 880845744344169555, 578998987484058919);
    Hex(2305843009213693951, 2205346145106174874, 29, 578998987484058919, 5, 1496388592684627134, 1496388592684627134, 1190624219851998448, 2118663133692552303, 863798823902926172, 863798823902926172, 2046352007500573161, 746838256480862571);
    Hex(2305843009213693951, 2205346145106174874, 469, 746838256480862571, 9, 557532292937167491, 1431840819395853151, 1638047221457070264, 1638047221457070264, 166286523542955277, 166286523542955277, 1611682278389521233, 1297627313131012895);
    Hex(2305843009213693951, 2205346145106174874, 7513, 1297627313131012895, 3, 1491697612176329232, 1491697612176329232, 231817464172172429, 231817464172172429, 862344398592263777, 2217797251911934234, 1531608119304780870, 632327983945438969);
    PowPow(37, 922149450, 120211, 2305843009213693951);
  }

  lemma Prime64To37800705069076950()
    ensures PowMod(37, 37800705069076950, 2305843009213693951) == 35184372088832
  {
    hide PowMod;
    Prime64To110852507533950();
    ToTheNothing(632327983945438969, 2305843009213693951);
    Hex(2305843009213693951, 632327983945438969, 0, 1, 1, 1, 1, 1, 1, 1, 1, 1, 632327983945438969);
    Hex(2305843009213693951, 632327983945438969, 1, 632327983945438969, 5, 1295966311890771341, 1295966311890771341, 786569672679173772, 2304821955081600930, 1171794221217710615, 1171794221217710615, 637547689311640812, 2140824854926776784);
    Hex(2305843009213693951, 632327983945438969, 21, 2140824854926776784, 5, 2176799942047879467, 2176799942047879467, 1033040756586362658, 483092565277939918, 772667220747482241, 772667220747482241, 1846079480568664203, 35184372088832);
    PowPow(37, 110852507533950, 341, 2305843009213693951);
  }

  lemma Prime64To6762002959570950()
    ensures PowMod(37, 6762002959570950, 2305843009213693951) == 160072957601057833
  {
    hide PowMod;
    Prime64To110852507533950();
    ToTheNothing(632327983945438969, 2305843009213693951);
    Hex(2305843009213693951, 632327983945438969, 0, 1, 3, 1, 1, 1, 1, 1, 632327983945438969, 1295966311890771341, 2290742648833141010);
    Hex(2305843009213693951, 632327983945438969, 3, 2290742648833141010, 13, 445347409303182368, 1358532498047586886, 1926898465967466554, 160095814340576966, 763869054036192178, 763869054036192178, 572349347736803258, 160072957601057833);
    PowPow(37, 110852507533950, 61, 2305843009213693951);
  }

  lemma Prime64To74382032555280450()
    ensures PowMod(37, 74382032555280450, 2305843009213693951) == 484083891529811867
  {
    hide PowMod;
    Prime64To6762002959570950();
    ToTheNothing(160072957601057833, 2305843009213693951);
    Hex(2305843009213693951, 160072957601057833, 0, 1, 11, 1, 160072957601057833, 1571194044972909407, 1571194044972909407, 1681623248300594370, 1388698974503875199, 2125970907271857831, 484083891529811867);
    PowPow(37, 6762002959570950, 11, 2305843009213693951);
  }

  lemma Prime64To209622091746699450()
    ensures PowMod(37, 209622091746699450, 2305843009213693951) == 2266698407988980144
  {
    hide PowMod;
    Prime64To6762002959570950();
    ToTheNothing(160072957601057833, 2305843009213693951);
    Hex(2305843009213693951, 160072957601057833, 0, 1, 1, 1, 1, 1, 1, 1, 1, 1, 160072957601057833);
    Hex(2305843009213693951, 160072957601057833, 1, 160072957601057833, 15, 1571194044972909407, 1204212042269091526, 2058681509663637996, 417090368160395023, 481282964673678344, 714759515308672120, 13495560234041035, 2266698407988980144);
    PowPow(37, 6762002959570950, 31, 2305843009213693951);
  }

  lemma Prime64To2500509011()
    ensures PowMod(37, 2500509011, 2305843009213693951) == 635757913735817905
  {
    hide PowMod;
    ToTheNothing(37, 2305843009213693951);
    Hex(2305843009213693951, 37, 0, 1, 9, 1, 37, 1369, 1369, 1874161, 1874161, 3512479453921, 129961739795077);
    Hex(2305843009213693951, 37, 9, 129961739795077, 5, 2130417461614381366, 2130417461614381366, 884313560627829947, 437799614237992725, 1775667457834187902, 1775667457834187902, 1934828875620069900, 107535112318073819);
    Hex(2305843009213693951, 37, 149, 107535112318073819, 0, 1244967802947120317, 1244967802947120317, 662172774687919883, 662172774687919883, 2291612777662085347, 2291612777662085347, 49298441000456307, 49298441000456307);
    Hex(2305843009213693951, 37, 2384, 49298441000456307, 10, 1264440440346022079, 667436108528937903, 619104548208135654, 619104548208135654, 1861460616866092953, 2004595556848314682, 1180972840764960926, 1180972840764960926);
    Hex(2305843009213693951, 37, 38154, 1180972840764960926, 11, 1809498642344522378, 82002499550203407, 1030286625839592450, 1030286625839592450, 550813867247141700, 1933369014434691292, 1609013433866413084, 1887421822714935333);
    Hex(2305843009213693951, 37, 610475, 1887421822714935333, 13, 1316072146151808114, 271966214129327247, 407890573256782282, 1256893155218780728, 1731456199298902354, 1731456199298902354, 1404016664803756871, 1220070395037737305);
    Hex(2305843009213693951, 37, 9767613, 1220070395037737305, 5, 2221268526863429469, 2221268526863429469, 1741551107535434320, 2179629730041333163, 481339513306145989, 481339513306145989, 2211021297915553950, 1103282700396207865);
    Hex(2305843009213693951, 37, 156281813, 1103282700396207865, 3, 2244270336296601707, 2244270336296601707, 543313572945896821, 543313572945896821, 1821719159903519212, 534161649233086265, 1388224435579380671, 635757913735817905);
  }

  lemma Prime64To139325861583909()
    ensures PowMod(37, 139325861583909, 2305843009213693951) == 1595368271040701467
  {
    hide PowMod;
    Prime64To2500509011();
    ToTheNothing(635757913735817905, 2305843009213693951);
    Hex(2305843009213693951, 635757913735817905, 0, 1, 13, 1, 635757913735817905, 1683448852542793360, 1707632763113085710, 302760206068076077, 302760206068076077, 467568539954190014, 977713960506300560);
    Hex(2305843009213693951, 635757913735817905, 13, 977713960506300560, 9, 1682343831438282625, 105189681209060329, 1311154148602051812, 1311154148602051812, 1100869448675416374, 1100869448675416374, 223883007962847748, 2239184907752904755);
    Hex(2305843009213693951, 635757913735817905, 217, 2239184907752904755, 10, 1884865225954403650, 2183017872075757667, 2258308452175700247, 2258308452175700247, 933874753800193167, 687642900730169924, 197817617014621240, 197817617014621240);
    Hex(2305843009213693951, 635757913735817905, 3482, 197817617014621240, 7, 1747146644210357311, 1747146644210357311, 1845350421727141257, 833936705292069067, 1242940644749013890, 1241918840439936215, 1059941910305051291, 1595368271040701467);
    PowPow(37, 2500509011, 55719, 2305843009213693951);
  }

  lemma Prime64To6966293079195450()
    ensures PowMod(37, 6966293079195450, 2305843009213693951) == 185945230422323302
  {
    hide PowMod;
    Prime64To139325861583909();
    ToTheNothing(1595368271040701467, 2305843009213693951);
    Hex(2305843009213693951, 1595368271040701467, 0, 1, 3, 1, 1, 1, 1, 1, 1595368271040701467, 1274873245624297589, 550865074896357938);
    Hex(2305843009213693951, 1595368271040701467, 3, 550865074896357938, 2, 1062797796035000651, 1062797796035000651, 143673666875748597, 143673666875748597, 748398155064019342, 1148296862242708959, 185945230422323302, 185945230422323302);
    PowPow(37, 139325861583909, 50, 2305843009213693951);
  }

  lemma Prime64To46116860184273879()
    ensures PowMod(37, 46116860184273879, 2305843009213693951) == 2285941268627741223
  {
    hide PowMod;
    Prime64To139325861583909();
    ToTheNothing(1595368271040701467, 2305843009213693951);
    Hex(2305843009213693951, 1595368271040701467, 0, 1, 1, 1, 1, 1, 1, 1, 1, 1, 1595368271040701467);
    Hex(2305843009213693951, 1595368271040701467, 1, 1595368271040701467, 4, 1274873245624297589, 1274873245624297589, 723216437625691212, 1293762754958643540, 1646576047917730518, 1646576047917730518, 459905996033521182, 459905996033521182);
    Hex(2305843009213693951, 1595368271040701467, 20, 459905996033521182, 11, 1841564474682048890, 864377556347664238, 1617568424579708024, 1617568424579708024, 2127964151045504104, 877880065750704825, 779100611779704116, 2285941268627741223);
    PowPow(37, 139325861583909, 331, 2305843009213693951);
  }

  lemma Prime64To461168601842738790()
    ensures PowMod(37, 461168601842738790, 2305843009213693951) == 725554454131936870
  {
    hide PowMod;
    Prime64To46116860184273879();
    ToTheNothing(2285941268627741223, 2305843009213693951);
    Hex(2305843009213693951, 2285941268627741223, 0, 1, 10, 1, 2285941268627741223, 777611702656095618, 777611702656095618, 1554350452820481594, 524539192131274200, 725554454131936870, 725554454131936870);
    PowPow(37, 46116860184273879, 10, 2305843009213693951);
  }

  lemma Prime64To1152921504606846975()
    ensures PowMod(37, 1152921504606846975, 2305843009213693951) == 2305843009213693950
  {
    hide PowMod;
    Prime64To46116860184273879();
    ToTheNothing(2285941268627741223, 2305843009213693951);
    Hex(2305843009213693951, 2285941268627741223, 0, 1, 1, 1, 1, 1, 1, 1, 1, 1, 2285941268627741223);
    Hex(2305843009213693951, 2285941268627741223, 1, 2285941268627741223, 9, 777611702656095618, 772387133213372503, 2246822354163092846, 2246822354163092846, 855356772850685687, 855356772850685687, 1002938224617487650, 2305843009213693950);
    PowPow(37, 46116860184273879, 25, 2305843009213693951);
  }

  lemma Prime64To41383424132050()
    ensures PowMod(37, 41383424132050, 2305843009213693951) == 1625347353236859086
  {
    hide PowMod;
    Prime64To2500509011();
    ToTheNothing(635757913735817905, 2305843009213693951);
    Hex(2305843009213693951, 635757913735817905, 0, 1, 4, 1, 1, 1, 635757913735817905, 1683448852542793360, 1683448852542793360, 590004020294606001, 590004020294606001);
    Hex(2305843009213693951, 635757913735817905, 4, 590004020294606001, 0, 79875284932782335, 79875284932782335, 2260249350975516592, 2260249350975516592, 672149077235164517, 672149077235164517, 190813448485594602, 190813448485594602);
    Hex(2305843009213693951, 635757913735817905, 64, 190813448485594602, 10, 1475952711956247126, 852439793526221414, 1552857495916812252, 1552857495916812252, 1213054053674555242, 2219858300388902453, 517983971097037167, 517983971097037167);
    Hex(2305843009213693951, 635757913735817905, 1034, 517983971097037167, 6, 1178152703186644788, 1178152703186644788, 739358472524534659, 1103861539625822353, 1648362466832209315, 526095496643305703, 1625347353236859086, 1625347353236859086);
    PowPow(37, 2500509011, 16550, 2305843009213693951);
  }

  lemma Prime64To15270483504726450()
    ensures PowMod(37, 15270483504726450, 2305843009213693951) == 1433721343585656393
  {
    hide PowMod;
    Prime64To41383424132050();
    ToTheNothing(1625347353236859086, 2305843009213693951);
    Hex(2305843009213693951, 1625347353236859086, 0, 1, 1, 1, 1, 1, 1, 1, 1, 1, 1625347353236859086);
    Hex(2305843009213693951, 1625347353236859086, 1, 1625347353236859086, 7, 2005927316333258034, 2005927316333258034, 209055142829893496, 1888046486490365698, 1381197640053279004, 1280154028051579476, 1029375279896772671, 90870011539970934);
    Hex(2305843009213693951, 1625347353236859086, 23, 90870011539970934, 1, 882438272112694982, 882438272112694982, 183217947136494888, 183217947136494888, 1300598978488660716, 1300598978488660716, 1331422440547741938, 1433721343585656393);
    PowPow(37, 41383424132050, 369, 2305843009213693951);
  }

  lemma Prime64To6248897043939550()
    ensures PowMod(37, 6248897043939550, 2305843009213693951) == 578781669329945206
  {
    hide PowMod;
    Prime64To41383424132050();
    ToTheNothing(1625347353236859086, 2305843009213693951);
    Hex(2305843009213693951, 1625347353236859086, 0, 1, 9, 1, 1625347353236859086, 2005927316333258034, 2005927316333258034, 209055142829893496, 209055142829893496, 714046399671564307, 2085725102244719986);
    Hex(2305843009213693951, 1625347353236859086, 9, 2085725102244719986, 7, 1433291140905879645, 1433291140905879645, 1757037352922323558, 1072578442710045454, 821953047682536489, 783432213415306749, 771861583645034517, 578781669329945206);
    PowPow(37, 41383424132050, 151, 2305843009213693951);
  }

  lemma Prime64To56240073395455950()
    ensures PowMod(37, 56240073395455950, 2305843009213693951) == 1562651311446036838
  {
    hide PowMod;
    Prime64To6248897043939550();
    ToTheNothing(578781669329945206, 2305843009213693951);
    Hex(2305843009213693951, 578781669329945206, 0, 1, 9, 1, 578781669329945206, 2283158466290052708, 2283158466290052708, 389903678893155874, 389903678893155874, 1680042974652870608, 1562651311446036838);
    PowPow(37, 6248897043939550, 9, 2305843009213693951);
  }

  lemma Prime64To768614336404564650()
    ensures PowMod(37, 768614336404564650, 2305843009213693951) == 1669582390241348315
  {
    hide PowMod;
    Prime64To6248897043939550();
    ToTheNothing(578781669329945206, 2305843009213693951);
    Hex(2305843009213693951, 578781669329945206, 0, 1, 7, 1, 1, 1, 578781669329945206, 2283158466290052708, 8682459448999905, 2117601607967268225, 740192538640110911);
    Hex(2305843009213693951, 578781669329945206, 7, 740192538640110911, 11, 1158500411629024625, 1352134445168574472, 1763500160046178214, 1763500160046178214, 229268834394138941, 589480965031560751, 1796763511677959524, 1669582390241348315);
    PowPow(37, 6248897043939550, 123, 2305843009213693951);
  }

  lemma Prime64All()
    ensures PowMod(37, 2305843009213693950, 2305843009213693951) == 1
  {
    hide PowMod;
    Prime64To1152921504606846975();
    ToTheNothing(2305843009213693950, 2305843009213693951);
    Hex(2305843009213693951, 2305843009213693950, 0, 1, 2, 1, 1, 1, 1, 1, 2305843009213693950, 1, 1);
    PowPow(37, 1152921504606846975, 2, 2305843009213693951);
  }

  lemma Prime64Ends()
    ensures EndsLater(37, 2305843009213693951, 2)
    ensures EndsLater(37, 2305843009213693951, 3)
    ensures EndsLater(37, 2305843009213693951, 5)
    ensures EndsLater(37, 2305843009213693951, 7)
    ensures EndsLater(37, 2305843009213693951, 11)
    ensures EndsLater(37, 2305843009213693951, 13)
    ensures EndsLater(37, 2305843009213693951, 31)
    ensures EndsLater(37, 2305843009213693951, 41)
    ensures EndsLater(37, 2305843009213693951, 61)
    ensures EndsLater(37, 2305843009213693951, 151)
    ensures EndsLater(37, 2305843009213693951, 331)
    ensures EndsLater(37, 2305843009213693951, 1321)
  {
    hide PowMod;
    Prime64To1152921504606846975();
    Prime64To768614336404564650();
    Prime64To461168601842738790();
    Prime64To329406144173384850();
    Prime64To209622091746699450();
    Prime64To177372539170284150();
    Prime64To74382032555280450();
    Prime64To56240073395455950();
    Prime64To37800705069076950();
    Prime64To15270483504726450();
    Prime64To6966293079195450();
    Prime64To1745528394559950();
  }

  lemma Prime64Factors()
    ensures IsPrime(2)
    ensures IsPrime(3)
    ensures IsPrime(5)
    ensures IsPrime(7)
    ensures IsPrime(11)
    ensures IsPrime(13)
    ensures IsPrime(31)
    ensures IsPrime(41)
    ensures IsPrime(61)
    ensures IsPrime(151)
    ensures IsPrime(331)
    ensures IsPrime(1321)
  {
    hide IsPrime;
    SmallPrime(2, 2);
    SmallPrime(3, 2);
    SmallPrime(5, 3);
    SmallPrime(7, 3);
    SmallPrime(11, 4);
    SmallPrime(13, 4);
    SmallPrime(31, 6);
    SmallPrime(41, 7);
    SmallPrime(61, 8);
    assert NoneOfEights(151, 2, 13);
    SmallPrime(151, 13);
    assert NoneOfEights(331, 2, 19);
    SmallPrime(331, 19);
    Prime1321();
  }

  lemma Prime64LowProduct()
    ensures Product([2, 3, 3, 5, 5, 7, 11]) == 34650
  {
  }

  lemma Prime64HighProduct()
    ensures Product([13, 31, 41, 61, 151, 331, 1321]) == 66546695792603
  {
  }

  lemma Prime64Product()
    ensures Product([2, 3, 3, 5, 5, 7, 11, 13, 31, 41, 61, 151, 331, 1321]) == 2305843009213693950
  {
    hide Product;
    Prime64LowProduct();
    Prime64HighProduct();
    assert [2, 3, 3, 5, 5, 7, 11] + [13, 31, 41, 61, 151, 331, 1321] == [2, 3, 3, 5, 5, 7, 11, 13, 31, 41, 61, 151, 331, 1321];
    ProductOfBoth([2, 3, 3, 5, 5, 7, 11], [13, 31, 41, 61, 151, 331, 1321]);
  }

  lemma Prime64()
    ensures IsPrime(2305843009213693951)
  {
    hide PowMod, IsPrime, EndsLater, Product;
    Prime64Factors();
    Prime64Ends();
    Prime64All();
    Prime64Product();
    Certified(2305843009213693951, 37, [2, 3, 3, 5, 5, 7, 11, 13, 31, 41, 61, 151, 331, 1321]);
  }

  /** No prime above the first fits 2^30 pointers. */
  lemma NoneAbovePrime32(x: nat)
    requires 1073741789 < x <= 0x4000_0000
    ensures !IsPrime(x)
  {
    hide IsPrime;
    var j: nat := x - 1073741789;
    if (j + 1) % 2 == 0 {
      Sieved(1073741789, j, 2, (j + 1) / 2);
    } else if (j + 2) % 3 == 0 {
      Sieved(1073741789, j, 3, (j + 2) / 3);
    } else if (j + 4) % 5 == 0 {
      Sieved(1073741789, j, 5, (j + 4) / 5);
    } else if (j + 1) % 7 == 0 {
      Sieved(1073741789, j, 7, (j + 1) / 7);
    } else {
      Composite(1073741791, 29);
      Composite(1073741797, 193);
      Composite(1073741801, 11);
      Composite(1073741803, 3671);
      Composite(1073741807, 101);
      Composite(1073741813, 19);
      Composite(1073741819, 2969);
      Composite(1073741821, 23);
      UnsievedPrime32(j);
    }
  }

  lemma UnsievedPrime32(j: nat)
    requires 0 < j < 36 && (j + 1) % 2 != 0 && (j + 2) % 3 != 0 && (j + 4) % 5 != 0 && (j + 1) % 7 != 0
    ensures j in {2, 8, 12, 14, 18, 24, 30, 32}
  {
  }

  /** No prime above the second fits 2^61 pointers. */
  lemma NoneAbovePrime64(x: nat)
    requires 2305843009213693951 < x <= 0x2000_0000_0000_0000
    ensures !IsPrime(x)
  {
    hide IsPrime;
    Composite(0x2000_0000_0000_0000, 2);
  }
}
