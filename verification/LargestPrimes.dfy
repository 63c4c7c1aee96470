/**
 * The two constants of the overflow check are the largest primes that fit in a word of 32 and of 64 bits. What the
 * certificates need is listed here: powers modulo the prime, one hexadecimal digit of the exponent a line.
 */
module LargestPrimes {

  import opened Primes
  import opened PrimeCertificates

  lemma Power22605091()
    ensures PowMod(11, 32761, 22605091) == 1595915
  {
    hide PowMod;
    ToTheNothing(11, 22605091);
    Hex(22605091, 11, 0, 1, 7, 1, 1, 1, 11, 121, 1331, 1771561, 19487171);
    Hex(22605091, 11, 7, 19487171, 15, 15321486, 10300709, 15983605, 17584018, 9945212, 18976968, 15542555, 12732468);
    Hex(22605091, 11, 127, 12732468, 15, 8316147, 1057253, 7366241, 13213378, 21775645, 13481185, 16949690, 5605862);
    Hex(22605091, 11, 2047, 5605862, 9, 834480, 9179280, 15711178, 15711178, 8088801, 8088801, 6310108, 1595915);
  }

  lemma Power22605091By2()
    ensures PowMod(1595915, 345, 22605091) == 22605090
  {
    hide PowMod;
    ToTheNothing(1595915, 22605091);
    Hex(22605091, 1595915, 0, 1, 1, 1, 1, 1, 1, 1, 1, 1, 1595915);
    Hex(22605091, 1595915, 1, 1595915, 5, 6479164, 6479164, 13324252, 13182881, 4960523, 4960523, 16625479, 12731580);
    Hex(22605091, 1595915, 21, 12731580, 9, 1332523, 19507720, 16070877, 16070877, 21844271, 21844271, 21112254, 22605090);
  }

  lemma Power22605091By3()
    ensures PowMod(1595915, 230, 22605091) == 14127152
  {
    hide PowMod;
    ToTheNothing(1595915, 22605091);
    Hex(22605091, 1595915, 0, 1, 14, 1, 1595915, 6479164, 16054203, 18496687, 10890163, 6877986, 6877986);
    Hex(22605091, 1595915, 14, 6877986, 6, 251401, 251401, 21233456, 18931233, 4029156, 14127153, 14127152, 14127152);
  }

  lemma Power22605091By5()
    ensures PowMod(1595915, 138, 22605091) == 18020114
  {
    hide PowMod;
    ToTheNothing(1595915, 22605091);
    Hex(22605091, 1595915, 0, 1, 8, 1, 1595915, 6479164, 6479164, 13324252, 13324252, 8504432, 8504432);
    Hex(22605091, 1595915, 8, 8504432, 10, 13306668, 3531452, 14943968, 14943968, 20539998, 18952341, 18020114, 18020114);
  }

  lemma Power22605091By23()
    ensures PowMod(1595915, 30, 22605091) == 13266577
  {
    hide PowMod;
    ToTheNothing(1595915, 22605091);
    Hex(22605091, 1595915, 0, 1, 1, 1, 1, 1, 1, 1, 1, 1, 1595915);
    Hex(22605091, 1595915, 1, 1595915, 14, 6479164, 16054203, 18496687, 10890163, 6877986, 10519046, 13266577, 13266577);
  }

  lemma Power22605091All()
    ensures PowMod(1595915, 690, 22605091) == 1
  {
    hide PowMod;
    ToTheNothing(1595915, 22605091);
    Hex(22605091, 1595915, 0, 1, 2, 1, 1, 1, 1, 1, 1595915, 6479164, 6479164);
    Hex(22605091, 1595915, 2, 6479164, 11, 13324252, 13182881, 4960523, 4960523, 16625479, 12731580, 1332523, 19507720);
    Hex(22605091, 1595915, 43, 19507720, 2, 16070877, 16070877, 21844271, 21844271, 21112254, 22605090, 1, 1);
  }

  lemma Power22605091By181()
    ensures PowMod(11, 124890, 22605091) == 16340705
  {
    hide PowMod;
    ToTheNothing(11, 22605091);
    Hex(22605091, 11, 0, 1, 1, 1, 1, 1, 1, 1, 1, 1, 11);
    Hex(22605091, 11, 1, 11, 14, 121, 1331, 1771561, 19487171, 15321486, 10300709, 15983605, 15983605);
    Hex(22605091, 11, 30, 15983605, 7, 10917690, 10917690, 10850921, 6334676, 14583596, 2183919, 8838289, 6800815);
    Hex(22605091, 11, 487, 6800815, 13, 6038948, 21218246, 7491381, 14589918, 7750659, 7750659, 2073055, 198514);
    Hex(22605091, 11, 7805, 198514, 10, 7134583, 10665140, 10122160, 10122160, 5585916, 16234894, 16340705, 16340705);
  }

  lemma Factors22605091()
    ensures IsPrime(2)
    ensures IsPrime(3)
    ensures IsPrime(5)
    ensures IsPrime(23)
    ensures IsPrime(181)
  {
    hide IsPrime;
    SmallPrime(2, 2);
    SmallPrime(3, 2);
    SmallPrime(5, 3);
    SmallPrime(23, 5);
    assert NoneOfEights(181, 2, 14);
    SmallPrime(181, 14);
  }

  lemma Ends22605091()
    ensures PowMod(11, 22605090, 22605091) == 1
    ensures EndsLater(11, 22605091, 2)
    ensures EndsLater(11, 22605091, 3)
    ensures EndsLater(11, 22605091, 5)
    ensures EndsLater(11, 22605091, 23)
    ensures EndsLater(11, 22605091, 181)
  {
    hide PowMod;
    Power22605091();
    Power22605091By2();
    PowPow(11, 32761, 345, 22605091);
    Power22605091By3();
    PowPow(11, 32761, 230, 22605091);
    Power22605091By5();
    PowPow(11, 32761, 138, 22605091);
    Power22605091By23();
    PowPow(11, 32761, 30, 22605091);
    Power22605091All();
    PowPow(11, 32761, 690, 22605091);
    Power22605091By181();
  }

  lemma Prime22605091()
    ensures IsPrime(22605091)
  {
    hide PowMod, IsPrime, EndsLater;
    Factors22605091();
    Ends22605091();
    assert Product([2, 3, 5, 23, 181, 181]) == 22605090;
    Certified(22605091, 11, [2, 3, 5, 23, 181, 181]);
  }

  lemma PowerWord32()
    ensures PowMod(2, 22605091, 4294967291) == 3079820090
  {
    hide PowMod;
    ToTheNothing(2, 4294967291);
    Hex(4294967291, 2, 0, 1, 1, 1, 1, 1, 1, 1, 1, 1, 2);
    Hex(4294967291, 2, 1, 2, 5, 4, 4, 16, 32, 1024, 1024, 1048576, 2097152);
    Hex(4294967291, 2, 21, 2097152, 8, 5120, 10240, 104857600, 104857600, 12800000, 12800000, 4177717514, 4177717514);
    Hex(4294967291, 2, 344, 4177717514, 14, 2807857998, 1320748705, 703090202, 1406180404, 1963202296, 3926404592, 3573352005, 3573352005);
    Hex(4294967291, 2, 5518, 3573352005, 13, 579702016, 1159404032, 3689552490, 3084137689, 1683374409, 1683374409, 3126044454, 1957121617);
    Hex(4294967291, 2, 88301, 1957121617, 2, 3077288758, 3077288758, 296768785, 296768785, 1539359462, 3078718924, 1463403700, 1463403700);
    Hex(4294967291, 2, 1412818, 1463403700, 3, 468038204, 468038204, 312657541, 312657541, 2500753963, 706540635, 1539910045, 3079820090);
  }

  lemma PowerWord32By2()
    ensures PowMod(3079820090, 95, 4294967291) == 4294967290
  {
    hide PowMod;
    ToTheNothing(3079820090, 4294967291);
    Hex(4294967291, 3079820090, 0, 1, 5, 1, 1, 1, 3079820090, 2271431246, 2271431246, 937855534, 3786472082);
    Hex(4294967291, 3079820090, 5, 3786472082, 15, 81549662, 3320787185, 1384859387, 3953863656, 3694807967, 2868998035, 2901239235, 4294967290);
  }

  lemma PowerWord32By5()
    ensures PowMod(3079820090, 38, 4294967291) == 149005400
  {
    hide PowMod;
    ToTheNothing(3079820090, 4294967291);
    Hex(4294967291, 3079820090, 0, 1, 2, 1, 1, 1, 1, 1, 3079820090, 2271431246, 2271431246);
    Hex(4294967291, 3079820090, 2, 2271431246, 6, 937855534, 937855534, 2521168688, 1752502665, 764026430, 1304151046, 149005400, 149005400);
  }

  lemma PowerWord32By19()
    ensures PowMod(3079820090, 10, 4294967291) == 81549662
  {
    hide PowMod;
    ToTheNothing(3079820090, 4294967291);
    Hex(4294967291, 3079820090, 0, 1, 10, 1, 3079820090, 2271431246, 2271431246, 937855534, 3786472082, 81549662, 81549662);
  }

  lemma PowerWord32All()
    ensures PowMod(3079820090, 190, 4294967291) == 1
  {
    hide PowMod;
    ToTheNothing(3079820090, 4294967291);
    Hex(4294967291, 3079820090, 0, 1, 11, 1, 3079820090, 2271431246, 2271431246, 937855534, 3786472082, 81549662, 3320787185);
    Hex(4294967291, 3079820090, 11, 3320787185, 14, 1384859387, 3953863656, 3694807967, 2868998035, 2901239235, 4294967290, 1, 1);
  }

  lemma PowerWord32By22605091()
    ensures PowMod(2, 190, 4294967291) == 1073745729
  {
    hide PowMod;
    ToTheNothing(2, 4294967291);
    Hex(4294967291, 2, 0, 1, 11, 1, 2, 4, 4, 16, 32, 1024, 2048);
    Hex(4294967291, 2, 11, 2048, 14, 4194304, 8388608, 81920, 163840, 1073741854, 2147483708, 1073745729, 1073745729);
  }

  lemma FactorsWord32()
    ensures IsPrime(2)
    ensures IsPrime(5)
    ensures IsPrime(19)
    ensures IsPrime(22605091)
  {
    hide IsPrime;
    SmallPrime(2, 2);
    SmallPrime(5, 3);
    SmallPrime(19, 5);
    Prime22605091();
  }

  lemma EndsWord32()
    ensures PowMod(2, 4294967290, 4294967291) == 1
    ensures EndsLater(2, 4294967291, 2)
    ensures EndsLater(2, 4294967291, 5)
    ensures EndsLater(2, 4294967291, 19)
    ensures EndsLater(2, 4294967291, 22605091)
  {
    hide PowMod;
    PowerWord32();
    PowerWord32By2();
    PowPow(2, 22605091, 95, 4294967291);
    PowerWord32By5();
    PowPow(2, 22605091, 38, 4294967291);
    PowerWord32By19();
    PowPow(2, 22605091, 10, 4294967291);
    PowerWord32All();
    PowPow(2, 22605091, 190, 4294967291);
    PowerWord32By22605091();
  }

  lemma PrimeWord32()
    ensures IsPrime(4294967291)
  {
    hide PowMod, IsPrime, EndsLater;
    FactorsWord32();
    EndsWord32();
    assert Product([2, 5, 19, 22605091]) == 4294967290;
    Certified(4294967291, 2, [2, 5, 19, 22605091]);
  }

  lemma Power5594472617641()
    ensures PowMod(13, 32670361, 5594472617641) == 907655201892
  {
    hide PowMod;
    ToTheNothing(13, 5594472617641);
    Hex(5594472617641, 13, 0, 1, 1, 1, 1, 1, 1, 1, 1, 1, 13);
    Hex(5594472617641, 13, 1, 13, 15, 169, 2197, 4826809, 62748517, 4462135497666, 2063035293248, 1385820921355, 1232254124692);
    Hex(5594472617641, 13, 31, 1232254124692, 2, 615425820159, 615425820159, 683065543075, 683065543075, 4264525200296, 5088574045079, 2825522816076, 2825522816076);
    Hex(5594472617641, 13, 498, 2825522816076, 8, 4894354761534, 2087413105891, 1994001838588, 1994001838588, 86014233720, 86014233720, 2069863688472, 2069863688472);
    Hex(5594472617641, 13, 7976, 2069863688472, 2, 1686655721184, 1686655721184, 994345126688, 994345126688, 795525825279, 4747363110986, 1436406980591, 1436406980591);
    Hex(5594472617641, 13, 127618, 1436406980591, 9, 4684975555712, 4959956047846, 4264445758221, 4264445758221, 4752955963731, 4752955963731, 1746709295327, 329330368687);
    Hex(5594472617641, 13, 2041897, 329330368687, 9, 3781621044152, 4405292632848, 4184450224743, 4184450224743, 519816293409, 519816293409, 2221539868469, 907655201892);
  }

  lemma Power5594472617641By2()
    ensures PowMod(907655201892, 85620, 5594472617641) == 5594472617640
  {
    hide PowMod;
    ToTheNothing(907655201892, 5594472617641);
    Hex(5594472617641, 907655201892, 0, 1, 1, 1, 1, 1, 1, 1, 1, 1, 907655201892);
    Hex(5594472617641, 907655201892, 1, 907655201892, 4, 2872802469513, 2872802469513, 821178453505, 752772979597, 5548541119874, 5548541119874, 3944467591848, 3944467591848);
    Hex(5594472617641, 907655201892, 20, 3944467591848, 14, 3640240218167, 145168042408, 311823387017, 4505092961657, 1763102654970, 2360905663669, 4207327149324, 4207327149324);
    Hex(5594472617641, 907655201892, 334, 4207327149324, 7, 3518038897689, 3518038897689, 5506664170982, 776540283444, 1514551056784, 3211436807010, 4005260270616, 2140028306197);
    Hex(5594472617641, 907655201892, 5351, 2140028306197, 4, 1068648272872, 1068648272872, 2167492111938, 182511628489, 2391128334597, 2391128334597, 5594472617640, 5594472617640);
  }

  lemma Power5594472617641By3()
    ensures PowMod(907655201892, 57080, 5594472617641) == 633520002390
  {
    hide PowMod;
    ToTheNothing(907655201892, 5594472617641);
    Hex(5594472617641, 907655201892, 0, 1, 13, 1, 907655201892, 2872802469513, 1605192620402, 4841661495572, 4841661495572, 3017158577326, 1023328300558);
    Hex(5594472617641, 907655201892, 13, 1023328300558, 14, 533348872758, 3628806086454, 4819159798294, 5127625182359, 1327229974681, 280380066928, 3525665940932, 3525665940932);
    Hex(5594472617641, 907655201892, 222, 3525665940932, 15, 4780897137221, 5170489995407, 3340977557858, 193970531625, 781946847261, 1057167628317, 1952838604423, 3718083078554);
    Hex(5594472617641, 907655201892, 3567, 3718083078554, 8, 4175153502480, 2719782183444, 3627359075360, 3627359075360, 633520002391, 633520002391, 633520002390, 633520002390);
  }

  lemma Power5594472617641By5()
    ensures PowMod(907655201892, 34248, 5594472617641) == 5539104407118
  {
    hide PowMod;
    ToTheNothing(907655201892, 5594472617641);
    Hex(5594472617641, 907655201892, 0, 1, 8, 1, 907655201892, 2872802469513, 2872802469513, 821178453505, 821178453505, 2323652525328, 2323652525328);
    Hex(5594472617641, 907655201892, 8, 2323652525328, 5, 4465642468882, 4465642468882, 2915006941214, 1165962355042, 2490475661966, 2490475661966, 1541413468013, 1378442838838);
    Hex(5594472617641, 907655201892, 133, 1378442838838, 12, 486163561499, 66651946578, 5303563596344, 4069300726236, 3032545826171, 3032545826171, 525279572174, 525279572174);
    Hex(5594472617641, 907655201892, 2140, 525279572174, 8, 4204250762585, 2111540592281, 3265308720052, 3265308720052, 1977729824461, 1977729824461, 5539104407118, 5539104407118);
  }

  lemma Power5594472617641By1427()
    ensures PowMod(907655201892, 120, 5594472617641) == 693744849281
  {
    hide PowMod;
    ToTheNothing(907655201892, 5594472617641);
    Hex(5594472617641, 907655201892, 0, 1, 7, 1, 1, 1, 907655201892, 2872802469513, 1605192620402, 4841661495572, 989540171294);
    Hex(5594472617641, 907655201892, 7, 989540171294, 8, 3805917094103, 4923748641428, 3182795134182, 3182795134182, 4414230967158, 4414230967158, 693744849281, 693744849281);
  }

  lemma Power5594472617641All()
    ensures PowMod(907655201892, 171240, 5594472617641) == 1
  {
    hide PowMod;
    ToTheNothing(907655201892, 5594472617641);
    Hex(5594472617641, 907655201892, 0, 1, 2, 1, 1, 1, 1, 1, 907655201892, 2872802469513, 2872802469513);
    Hex(5594472617641, 907655201892, 2, 2872802469513, 9, 821178453505, 752772979597, 5548541119874, 5548541119874, 3944467591848, 3944467591848, 3640240218167, 145168042408);
    Hex(5594472617641, 907655201892, 41, 145168042408, 12, 311823387017, 4505092961657, 1763102654970, 2360905663669, 4207327149324, 4207327149324, 3518038897689, 3518038897689);
    Hex(5594472617641, 907655201892, 668, 3518038897689, 14, 5506664170982, 776540283444, 1514551056784, 3211436807010, 4005260270616, 2140028306197, 1068648272872, 1068648272872);
    Hex(5594472617641, 907655201892, 10702, 1068648272872, 8, 2167492111938, 182511628489, 2391128334597, 2391128334597, 5594472617640, 5594472617640, 1, 1);
  }

  lemma Power5594472617641By2131()
    ensures PowMod(13, 2625280440, 5594472617641) == 2614630137118
  {
    hide PowMod;
    ToTheNothing(13, 5594472617641);
    Hex(5594472617641, 13, 0, 1, 9, 1, 13, 169, 169, 28561, 28561, 815730721, 10604499373);
    Hex(5594472617641, 13, 9, 10604499373, 12, 965718976646, 1365401461116, 944103145281, 1084395653371, 3189474782855, 3189474782855, 4849753709612, 4849753709612);
    Hex(5594472617641, 13, 156, 4849753709612, 7, 1368128931094, 1368128931094, 4113249432981, 3121989069984, 5521588034598, 4646973038082, 2033336726808, 4055486977940);
    Hex(5594472617641, 13, 2503, 4055486977940, 10, 3545475137089, 1335395841029, 4917442004892, 4917442004892, 2203419299064, 672087799627, 2123381957156, 2123381957156);
    Hex(5594472617641, 13, 40058, 2123381957156, 9, 1623162441732, 4317693889593, 1592163738043, 1592163738043, 1904873512466, 1904873512466, 2742153916962, 2081165214660);
    Hex(5594472617641, 13, 640937, 2081165214660, 9, 1533400437371, 3150787832900, 3532800425510, 3532800425510, 3675697350069, 3675697350069, 4071732653736, 2582270939799);
    Hex(5594472617641, 13, 10255001, 2582270939799, 11, 5092318224390, 4660938123019, 1452830446907, 1452830446907, 4390949075570, 1137611806000, 3683275428298, 3126799626746);
    Hex(5594472617641, 13, 164080027, 3126799626746, 8, 3439021020292, 5545964940309, 2824757112090, 2824757112090, 4548611759596, 4548611759596, 2614630137118, 2614630137118);
  }

  lemma Power5594472617641By15331()
    ensures PowMod(13, 364912440, 5594472617641) == 4170830691369
  {
    hide PowMod;
    ToTheNothing(13, 5594472617641);
    Hex(5594472617641, 13, 0, 1, 1, 1, 1, 1, 1, 1, 1, 1, 13);
    Hex(5594472617641, 13, 1, 13, 5, 169, 169, 28561, 371293, 137858491849, 137858491849, 966801141585, 1379469605323);
    Hex(5594472617641, 13, 21, 1379469605323, 12, 4766387958662, 423844668555, 1550997320396, 3379547312225, 872230303981, 872230303981, 383132946598, 383132946598);
    Hex(5594472617641, 13, 348, 383132946598, 0, 2862926023423, 2862926023423, 3181277587052, 3181277587052, 1323842610083, 1323842610083, 5115346857607, 5115346857607);
    Hex(5594472617641, 13, 5568, 5115346857607, 1, 1541021294116, 1541021294116, 1013165549109, 1013165549109, 5291362474307, 5291362474307, 2789681241586, 2699020434772);
    Hex(5594472617641, 13, 89089, 2699020434772, 15, 3782364912963, 4414962927391, 4090598346564, 2827524946563, 5167651654090, 45800091478, 4265419540129, 5100200462908);
    Hex(5594472617641, 13, 1425439, 5100200462908, 3, 1182399763775, 1182399763775, 3064278910005, 3064278910005, 3592479898239, 1946457735979, 297430687305, 3866598934965);
    Hex(5594472617641, 13, 22807027, 3866598934965, 8, 2513336974299, 4701017577682, 2527139750365, 2527139750365, 1686791990884, 1686791990884, 4170830691369, 4170830691369);
  }

  lemma Prime1427()
    ensures IsPrime(1427)
  {
    hide IsPrime;
    assert NoneOfEights(1427, 2, 38);
    SmallPrime(1427, 38);
  }

  lemma Prime2131()
    ensures IsPrime(2131)
  {
    hide IsPrime;
    assert NoneOfEights(2131, 2, 47);
    SmallPrime(2131, 47);
  }

  lemma Prime15331()
    ensures IsPrime(15331)
  {
    hide IsPrime;
    assert NoneOfEights(15331, 66, 124);
    assert NoneOfEights(15331, 2, 124);
    SmallPrime(15331, 124);
  }

  lemma Factors5594472617641()
    ensures IsPrime(2)
    ensures IsPrime(3)
    ensures IsPrime(5)
    ensures IsPrime(1427)
    ensures IsPrime(2131)
    ensures IsPrime(15331)
  {
    hide IsPrime;
    SmallPrime(2, 2);
    SmallPrime(3, 2);
    SmallPrime(5, 3);
    Prime1427();
    Prime2131();
    Prime15331();
  }

  lemma Ends5594472617641()
    ensures PowMod(13, 5594472617640, 5594472617641) == 1
    ensures EndsLater(13, 5594472617641, 2)
    ensures EndsLater(13, 5594472617641, 3)
    ensures EndsLater(13, 5594472617641, 5)
    ensures EndsLater(13, 5594472617641, 1427)
    ensures EndsLater(13, 5594472617641, 2131)
    ensures EndsLater(13, 5594472617641, 15331)
  {
    hide PowMod;
    Power5594472617641();
    Power5594472617641By2();
    PowPow(13, 32670361, 85620, 5594472617641);
    Power5594472617641By3();
    PowPow(13, 32670361, 57080, 5594472617641);
    Power5594472617641By5();
    PowPow(13, 32670361, 34248, 5594472617641);
    Power5594472617641By1427();
    PowPow(13, 32670361, 120, 5594472617641);
    Power5594472617641All();
    PowPow(13, 32670361, 171240, 5594472617641);
    Power5594472617641By2131();
    Power5594472617641By15331();
  }

  lemma Prime5594472617641()
    ensures IsPrime(5594472617641)
  {
    hide PowMod, IsPrime, EndsLater;
    Factors5594472617641();
    Ends5594472617641();
    assert Product([2, 2, 2, 3, 5, 1427, 2131, 15331]) == 5594472617640;
    Certified(5594472617641, 13, [2, 2, 2, 3, 5, 1427, 2131, 15331]);
  }

  lemma PowerWord64()
    ensures PowMod(2, 5594472617641, 18446744073709551557) == 2715265821331066152
  {
    hide PowMod;
    ToTheNothing(2, 18446744073709551557);
    Hex(18446744073709551557, 2, 0, 1, 5, 1, 1, 1, 2, 4, 4, 16, 32);
    Hex(18446744073709551557, 2, 5, 32, 1, 1024, 1024, 1048576, 1048576, 1099511627776, 1099511627776, 3866624, 7733248);
    Hex(18446744073709551557, 2, 81, 7733248, 6, 59803124629504, 59803124629504, 11438788784, 22877577568, 6874721315989351028, 13749442631978702056, 8321915967997229547, 8321915967997229547);
    Hex(18446744073709551557, 2, 1302, 8321915967997229547, 9, 17464673212868330242, 16482602352027108927, 15889612057342589158, 15889612057342589158, 2224664233278470490, 2224664233278470490, 17666386028545311783, 16886027983381072009);
    Hex(18446744073709551557, 2, 20841, 16886027983381072009, 0, 7749825984804161829, 7749825984804161829, 14335190264372006525, 14335190264372006525, 7442590960919933700, 7442590960919933700, 2389833909762813637, 2389833909762813637);
    Hex(18446744073709551557, 2, 333456, 2389833909762813637, 8, 9133279029473851652, 18266558058947703304, 4801633988615481812, 4801633988615481812, 2739032180671499955, 2739032180671499955, 17704686701237468030, 17704686701237468030);
    Hex(18446744073709551557, 2, 5335304, 17704686701237468030, 13, 9513171239867604061, 579598406025656565, 18379283795924867451, 18311823518140183345, 13712094988054377948, 13712094988054377948, 7951911905136317678, 15903823810272635356);
    Hex(18446744073709551557, 2, 85364877, 15903823810272635356, 9, 9150304812121663321, 18300609624243326642, 3124177490876118026, 3124177490876118026, 3474461688646142365, 3474461688646142365, 4327360700973313925, 8654721401946627850);
    Hex(18446744073709551557, 2, 1365838041, 8654721401946627850, 6, 14640136045212877596, 14640136045212877596, 5866864972897239411, 11733729945794478822, 16504438012590381098, 14562131951471210639, 8410024564022191812, 8410024564022191812);
    Hex(18446744073709551557, 2, 21853408662, 8410024564022191812, 10, 15897346984028012392, 13347949894346473227, 15761892089815848269, 15761892089815848269, 3477996631860758301, 6955993263721516602, 4639957268374347390, 4639957268374347390);
    Hex(18446744073709551557, 2, 349654538602, 4639957268374347390, 9, 2068992000725341732, 4137984001450683464, 6817421367326588060, 6817421367326588060, 18142799519489114187, 18142799519489114187, 1357632910665533076, 2715265821331066152);
  }

  lemma PowerWord64By2()
    ensures PowMod(2715265821331066152, 1648658, 18446744073709551557) == 18446744073709551556
  {
    hide PowMod;
    ToTheNothing(2715265821331066152, 18446744073709551557);
    Hex(18446744073709551557, 2715265821331066152, 0, 1, 1, 1, 1, 1, 1, 1, 1, 1, 2715265821331066152);
    Hex(18446744073709551557, 2715265821331066152, 1, 2715265821331066152, 9, 10259862434326059576, 4206685795973338148, 16536883026031638271, 16536883026031638271, 16268799181417951865, 16268799181417951865, 1165255249089571208, 5208709299978039298);
    Hex(18446744073709551557, 2715265821331066152, 25, 5208709299978039298, 2, 14348688626557710188, 14348688626557710188, 3268041432527485913, 3268041432527485913, 14562731669154723713, 12875435281554345489, 11692783917982039183, 11692783917982039183);
    Hex(18446744073709551557, 2715265821331066152, 402, 11692783917982039183, 8, 16630139979731883066, 6964973113914955521, 9145798466391342285, 9145798466391342285, 16122840451952207054, 16122840451952207054, 8213398757262022497, 8213398757262022497);
    Hex(18446744073709551557, 2715265821331066152, 6440, 8213398757262022497, 1, 4566767849877541903, 4566767849877541903, 16037465166778049024, 16037465166778049024, 882850066151018458, 882850066151018458, 14290880760435243878, 10481686445434836718);
    Hex(18446744073709551557, 2715265821331066152, 103041, 10481686445434836718, 2, 5980479585654755228, 5980479585654755228, 5522736409337680011, 5522736409337680011, 2018692041780972648, 2296021864060584341, 18446744073709551556, 18446744073709551556);
  }

  lemma PowerWord64By11()
    ensures PowMod(2715265821331066152, 299756, 18446744073709551557) == 7233656613878036887
  {
    hide PowMod;
    ToTheNothing(2715265821331066152, 18446744073709551557);
    Hex(18446744073709551557, 2715265821331066152, 0, 1, 4, 1, 1, 1, 2715265821331066152, 10259862434326059576, 10259862434326059576, 15933614639231938029, 15933614639231938029);
    Hex(18446744073709551557, 2715265821331066152, 4, 15933614639231938029, 9, 4456888961727571530, 3415150430584019735, 2880521199722538173, 2880521199722538173, 9056278458822112128, 9056278458822112128, 10583571458071870103, 3600837118995355779);
    Hex(18446744073709551557, 2715265821331066152, 73, 3600837118995355779, 2, 18377955803234489354, 18377955803234489354, 1862463325220489258, 1862463325220489258, 7354621308669539885, 15822123741911200359, 3756297996277076540, 3756297996277076540);
    Hex(18446744073709551557, 2715265821331066152, 1170, 3756297996277076540, 14, 9248868470991216312, 1595122148722191983, 17836734531404167322, 275883995145912823, 15533225524259821518, 2324680873025223696, 15981710309842565914, 15981710309842565914);
    Hex(18446744073709551557, 2715265821331066152, 18734, 15981710309842565914, 12, 15917564449039484966, 2343482768102503974, 1571648329632033762, 7294920275989742900, 928663288498776163, 928663288498776163, 7233656613878036887, 7233656613878036887);
  }

  lemma PowerWord64By137()
    ensures PowMod(2715265821331066152, 24068, 18446744073709551557) == 808296807897363856
  {
    hide PowMod;
    ToTheNothing(2715265821331066152, 18446744073709551557);
    Hex(18446744073709551557, 2715265821331066152, 0, 1, 5, 1, 1, 1, 2715265821331066152, 10259862434326059576, 10259862434326059576, 15933614639231938029, 15016055147562010979);
    Hex(18446744073709551557, 2715265821331066152, 5, 15016055147562010979, 14, 7787982395164250022, 7365814970734502076, 1355342718739392739, 13683807793899719727, 13708739991826363971, 8316609803613071948, 10992788824577747766, 10992788824577747766);
    Hex(18446744073709551557, 2715265821331066152, 94, 10992788824577747766, 0, 2256735215208404012, 2256735215208404012, 12586656538535931314, 12586656538535931314, 14213591368336192959, 14213591368336192959, 14244979774237102401, 14244979774237102401);
    Hex(18446744073709551557, 2715265821331066152, 1504, 14244979774237102401, 4, 5578980307182729918, 5578980307182729918, 17134669372216149462, 10155823581609721551, 6700062861834553240, 6700062861834553240, 808296807897363856, 808296807897363856);
  }

  lemma PowerWord64By547()
    ensures PowMod(2715265821331066152, 6028, 18446744073709551557) == 16285151747536493802
  {
    hide PowMod;
    ToTheNothing(2715265821331066152, 18446744073709551557);
    Hex(18446744073709551557, 2715265821331066152, 0, 1, 1, 1, 1, 1, 1, 1, 1, 1, 2715265821331066152);
    Hex(18446744073709551557, 2715265821331066152, 1, 2715265821331066152, 7, 10259862434326059576, 10259862434326059576, 15933614639231938029, 15016055147562010979, 7787982395164250022, 7365814970734502076, 1355342718739392739, 13683807793899719727);
    Hex(18446744073709551557, 2715265821331066152, 23, 13683807793899719727, 8, 13708739991826363971, 8316609803613071948, 10992788824577747766, 10992788824577747766, 2256735215208404012, 2256735215208404012, 12586656538535931314, 12586656538535931314);
    Hex(18446744073709551557, 2715265821331066152, 376, 12586656538535931314, 12, 14213591368336192959, 9384949056701709125, 7968062986359317211, 1562805362464533308, 13042536835934171541, 13042536835934171541, 16285151747536493802, 16285151747536493802);
  }

  lemma PowerWord64All()
    ensures PowMod(2715265821331066152, 3297316, 18446744073709551557) == 1
  {
    hide PowMod;
    ToTheNothing(2715265821331066152, 18446744073709551557);
    Hex(18446744073709551557, 2715265821331066152, 0, 1, 3, 1, 1, 1, 1, 1, 2715265821331066152, 10259862434326059576, 4206685795973338148);
    Hex(18446744073709551557, 2715265821331066152, 3, 4206685795973338148, 2, 16536883026031638271, 16536883026031638271, 16268799181417951865, 16268799181417951865, 1165255249089571208, 5208709299978039298, 14348688626557710188, 14348688626557710188);
    Hex(18446744073709551557, 2715265821331066152, 50, 14348688626557710188, 5, 3268041432527485913, 3268041432527485913, 14562731669154723713, 12875435281554345489, 11692783917982039183, 11692783917982039183, 16630139979731883066, 6964973113914955521);
    Hex(18446744073709551557, 2715265821331066152, 805, 6964973113914955521, 0, 9145798466391342285, 9145798466391342285, 16122840451952207054, 16122840451952207054, 8213398757262022497, 8213398757262022497, 4566767849877541903, 4566767849877541903);
    Hex(18446744073709551557, 2715265821331066152, 12880, 4566767849877541903, 2, 16037465166778049024, 16037465166778049024, 882850066151018458, 882850066151018458, 14290880760435243878, 10481686445434836718, 5980479585654755228, 5980479585654755228);
    Hex(18446744073709551557, 2715265821331066152, 206082, 5980479585654755228, 4, 5522736409337680011, 5522736409337680011, 2018692041780972648, 2296021864060584341, 18446744073709551556, 18446744073709551556, 1, 1);
  }

  lemma PowerWord64By5594472617641()
    ensures PowMod(2, 3297316, 18446744073709551557) == 11493017446059487016
  {
    hide PowMod;
    ToTheNothing(2, 18446744073709551557);
    Hex(18446744073709551557, 2, 0, 1, 3, 1, 1, 1, 1, 1, 2, 4, 8);
    Hex(18446744073709551557, 2, 3, 8, 2, 64, 64, 4096, 4096, 16777216, 33554432, 1125899906842624, 1125899906842624);
    Hex(18446744073709551557, 2, 50, 1125899906842624, 5, 4054449127424, 4054449127424, 52577024, 105154048, 11057373810786304, 11057373810786304, 3980787042087127104, 7961574084174254208);
    Hex(18446744073709551557, 2, 805, 7961574084174254208, 0, 18236870514628348699, 18236870514628348699, 15207024341622358901, 15207024341622358901, 10692998876667082725, 10692998876667082725, 3199590993540181000, 3199590993540181000);
    Hex(18446744073709551557, 2, 12880, 3199590993540181000, 2, 11075302503556232453, 11075302503556232453, 15945028504836738021, 15945028504836738021, 17085842822743485717, 15724941571777419877, 1929396281097936233, 1929396281097936233);
    Hex(18446744073709551557, 2, 206082, 1929396281097936233, 4, 12498645655068347334, 12498645655068347334, 3693579951573680582, 7387159903147361164, 13518867379275528496, 13518867379275528496, 11493017446059487016, 11493017446059487016);
  }

  lemma FactorsWord64()
    ensures IsPrime(2)
    ensures IsPrime(11)
    ensures IsPrime(137)
    ensures IsPrime(547)
    ensures IsPrime(5594472617641)
  {
    hide IsPrime;
    SmallPrime(2, 2);
    SmallPrime(11, 4);
    assert NoneOfEights(137, 2, 12);
    SmallPrime(137, 12);
    assert NoneOfEights(547, 2, 24);
    SmallPrime(547, 24);
    Prime5594472617641();
  }

  lemma EndsWord64()
    ensures PowMod(2, 18446744073709551556, 18446744073709551557) == 1
    ensures EndsLater(2, 18446744073709551557, 2)
    ensures EndsLater(2, 18446744073709551557, 11)
    ensures EndsLater(2, 18446744073709551557, 137)
    ensures EndsLater(2, 18446744073709551557, 547)
    ensures EndsLater(2, 18446744073709551557, 5594472617641)
  {
    hide PowMod;
    PowerWord64();
    PowerWord64By2();
    PowPow(2, 5594472617641, 1648658, 18446744073709551557);
    PowerWord64By11();
    PowPow(2, 5594472617641, 299756, 18446744073709551557);
    PowerWord64By137();
    PowPow(2, 5594472617641, 24068, 18446744073709551557);
    PowerWord64By547();
    PowPow(2, 5594472617641, 6028, 18446744073709551557);
    PowerWord64All();
    PowPow(2, 5594472617641, 3297316, 18446744073709551557);
    PowerWord64By5594472617641();
  }

  lemma PrimeWord64()
    ensures IsPrime(18446744073709551557)
  {
    hide PowMod, IsPrime, EndsLater;
    FactorsWord64();
    EndsWord64();
    assert Product([2, 2, 11, 137, 547, 5594472617641]) == 18446744073709551556;
    Certified(18446744073709551557, 2, [2, 2, 11, 137, 547, 5594472617641]);
  }

  lemma Composite(n: nat, d: nat)
    requires 2 <= d < n && n % d == 0
    ensures !IsPrime(n)
  {
    assert Divides(d, n);
  }

  /** Numbers above base whose distance to it is right for d to divide them. */
  lemma Sieved(base: nat, j: nat, d: nat, k: nat)
    requires 2 <= d < base && base % d + j == k * d
    ensures !IsPrime(base + j)
  {
    var q := base / d;
    assert base + j == (q + k) * d;
    MultipleDivides(d, q + k);
    assert Divides(d, base + j);
  }

  /** No prime above the constant fits in the word. */
  lemma NoneAboveWord32(x: nat)
    requires 4294967291 < x < 4294967296
    ensures !IsPrime(x)
  {
    hide IsPrime;
    var j: nat := x - 4294967291;
    if (j + 1) % 2 == 0 {
      Sieved(4294967291, j, 2, (j + 1) / 2);
    } else if (j + 2) % 3 == 0 {
      Sieved(4294967291, j, 3, (j + 2) / 3);
    } else if (j + 1) % 5 == 0 {
      Sieved(4294967291, j, 5, (j + 1) / 5);
    } else if (j + 6) % 7 == 0 {
      Sieved(4294967291, j, 7, (j + 6) / 7);
    } else {
      Composite(4294967293, 9241);
      assert j in {2};
    }
  }

  /** No prime above the constant fits in the word. */
  lemma NoneAboveWord64(x: nat)
    requires 18446744073709551557 < x < 18446744073709551616
    ensures !IsPrime(x)
  {
    hide IsPrime;
    var j: nat := x - 18446744073709551557;
    if (j + 1) % 2 == 0 {
      Sieved(18446744073709551557, j, 2, (j + 1) / 2);
    } else if (j + 2) % 3 == 0 {
      Sieved(18446744073709551557, j, 3, (j + 2) / 3);
    } else if (j + 2) % 5 == 0 {
      Sieved(18446744073709551557, j, 5, (j + 2) / 5);
    } else if (j + 6) % 7 == 0 {
      Sieved(18446744073709551557, j, 7, (j + 6) / 7);
    } else {
      Composite(18446744073709551559, 41);
      Composite(18446744073709551563, 29);
      Composite(18446744073709551569, 31);
      Composite(18446744073709551571, 11071);
      Composite(18446744073709551577, 139646831);
      Composite(18446744073709551581, 17);
      Composite(18446744073709551583, 827);
      Composite(18446744073709551587, 13);
      Composite(18446744073709551589, 11);
      Composite(18446744073709551599, 19);
      Composite(18446744073709551601, 53);
      Composite(18446744073709551611, 11);
      Composite(18446744073709551613, 13);
      Unsieved(j);
    }
  }

  lemma Unsieved(j: nat)
    requires 0 < j < 59 && (j + 1) % 2 != 0 && (j + 2) % 3 != 0 && (j + 2) % 5 != 0 && (j + 6) % 7 != 0
    ensures j in {2, 6, 12, 14, 20, 24, 26, 30, 32, 42, 44, 54, 56}
  {
  }
}
