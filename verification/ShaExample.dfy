/** The worked example of FIPS 180-2, appendix B.1: the digest of "abc", eight
    rounds at a time. */
module ShaExample {
  import opened Gf
  import opened Compression
  import opened Sha256

  const ABC: seq<Byte> := [0x61, 0x62, 0x63]

  /** The message and its padding fill one block. */
  const BLOCK: seq<Byte> := ABC + [0x80] + Zeros(59) + [24]

  datatype Eight = Eight(w0: Word, w1: Word, w2: Word, w3: Word, w4: Word, w5: Word, w6: Word, w7: Word)

  function Run(w: Work, k: Eight, m: Eight): Work {
    Round(Round(Round(Round(Round(Round(Round(Round(w, k.w0, m.w0), k.w1, m.w1), k.w2, m.w2), k.w3, m.w3),
      k.w4, m.w4), k.w5, m.w5), k.w6, m.w6), k.w7, m.w7)
  }

  function Constants(t: nat): Eight
    requires t + 8 <= 64
  {
    Eight(K[t], K[t + 1], K[t + 2], K[t + 3], K[t + 4], K[t + 5], K[t + 6], K[t + 7])
  }

  function Words(block: seq<Byte>, t: nat): Eight
    requires |block| == 64
  {
    Eight(Schedule(block, t), Schedule(block, t + 1), Schedule(block, t + 2), Schedule(block, t + 3),
          Schedule(block, t + 4), Schedule(block, t + 5), Schedule(block, t + 6), Schedule(block, t + 7))
  }

  function Word16(w2: Word, w7: Word, w15: Word, w16: Word): Word {
    Plus(Plus(Plus(Sig1(w2), w7), Sig0(w15)), w16)
  }

  /** n are the eight words of the schedule behind p and q. */
  ghost predicate Follows(p: Eight, q: Eight, n: Eight) {
    && n.w0 == Word16(q.w6, q.w1, p.w1, p.w0) && n.w1 == Word16(q.w7, q.w2, p.w2, p.w1)
    && n.w2 == Word16(n.w0, q.w3, p.w3, p.w2) && n.w3 == Word16(n.w1, q.w4, p.w4, p.w3)
    && n.w4 == Word16(n.w2, q.w5, p.w5, p.w4) && n.w5 == Word16(n.w3, q.w6, p.w6, p.w5)
    && n.w6 == Word16(n.w4, q.w7, p.w7, p.w6) && n.w7 == Word16(n.w5, n.w0, q.w0, p.w7)
  }

  lemma OneFollows(p: Eight, q: Eight, n: Eight, n': Eight)
    requires Follows(p, q, n) && Follows(p, q, n')
    ensures n == n'
  {
    hide Word16;
  }

  lemma NextWords(block: seq<Byte>, t: nat)
    requires |block| == 64
    ensures Follows(Words(block, t), Words(block, t + 8), Words(block, t + 16))
  {
    hide Plus, Sig0, Sig1, Head;
  }

  ghost predicate Step(w: Work, k: Word, m: Word, r: Work) { Round(w, k, m) == r }

  /** The states between the rounds of one run. */
  ghost predicate Trace(k: Eight, m: Eight, s0: Work, s1: Work, s2: Work, s3: Work, s4: Work, s5: Work, s6: Work, s7: Work, s8: Work) {
    && Step(s0, k.w0, m.w0, s1) && Step(s1, k.w1, m.w1, s2) && Step(s2, k.w2, m.w2, s3) && Step(s3, k.w3, m.w3, s4)
    && Step(s4, k.w4, m.w4, s5) && Step(s5, k.w5, m.w5, s6) && Step(s6, k.w6, m.w6, s7) && Step(s7, k.w7, m.w7, s8)
  }

  ghost predicate Traced(k: Eight, m: Eight, s0: Work, s8: Work) {
    exists s1, s2, s3, s4, s5, s6, s7 :: Trace(k, m, s0, s1, s2, s3, s4, s5, s6, s7, s8)
  }

  lemma TracedRun(k: Eight, m: Eight, s0: Work, s8: Work)
    requires Traced(k, m, s0, s8)
    ensures Run(s0, k, m) == s8
  {
    hide Round;
  }

  lemma RunRounds(w: Work, block: seq<Byte>, t: nat)
    requires |block| == 64 && t + 8 <= 64
    ensures Rounds(w, block, t + 8) == Run(Rounds(w, block, t), Constants(t), Words(block, t))
  {
    hide Round, Schedule;
    assert forall i :: t <= i < t + 8 ==> Rounds(w, block, i + 1) == Round(Rounds(w, block, i), K[i], Schedule(block, i));
  }

  /** Words 8 * i and on of the schedule of the block. */
  function Column(i: nat): Eight {
    match i
    case 0 => Eight(0x61626380, 0x00000000, 0x00000000, 0x00000000, 0x00000000, 0x00000000, 0x00000000, 0x00000000)
    case 1 => Eight(0x00000000, 0x00000000, 0x00000000, 0x00000000, 0x00000000, 0x00000000, 0x00000000, 0x00000018)
    case 2 => Eight(0x61626380, 0x000f0000, 0x7da86405, 0x600003c6, 0x3e9d7b78, 0x0183fc00, 0x12dcbfdb, 0xe2e2c38e)
    case 3 => Eight(0xc8215c1a, 0xb73679a2, 0xe5bc3909, 0x32663c5b, 0x9d209d67, 0xec8726cb, 0x702138a4, 0xd3b7973b)
    case 4 => Eight(0x93f5997f, 0x3b68ba73, 0xaff4ffc1, 0xf10a5c62, 0x0a8b3996, 0x72af830a, 0x9409e33e, 0x24641522)
    case 5 => Eight(0x9f47bf94, 0xf0a64f5a, 0x3e246a79, 0x27333ba3, 0x0c4763f2, 0x840abf27, 0x7a290d5d, 0x065c43da)
    case 6 => Eight(0xfb3e89cb, 0xcc7617db, 0xb9e66c34, 0xa9993667, 0x84badedd, 0xc21462bc, 0x1487472c, 0xb20f7a99)
    case _ => Eight(0xef57b9cd, 0xebe6b238, 0x9fe3095e, 0x78bc8d4b, 0xa43fcf15, 0x668b2ff8, 0xeeaba2cc, 0x12b1edeb)
  }

  /** The working variables after 8 * i rounds. */
  function At(i: nat): Work {
    match i
    case 0 => Work(0x6a09e667, 0xbb67ae85, 0x3c6ef372, 0xa54ff53a, 0x510e527f, 0x9b05688c, 0x1f83d9ab, 0x5be0cd19)
    case 1 => Work(0x85a07b5f, 0xe5030380, 0x2b4209f5, 0x04409a6a, 0x0c657a79, 0x9b27a401, 0x714260ad, 0x43ada245)
    case 2 => Work(0xb0fa238e, 0xc0645fde, 0xd932eb16, 0x87912990, 0x07590dcd, 0x0b92f20c, 0x745a48de, 0x1e578218)
    case 3 => Work(0xc5d53d8d, 0xa7a3623f, 0xc2606d6d, 0x9dc68b63, 0xaa47c347, 0x49f5114a, 0xe1257970, 0x8ada8930)
    case 4 => Work(0x73b33bf5, 0xea992a22, 0xa0060b30, 0x363482c9, 0xba591112, 0x0109ab3a, 0xade79437, 0x6112a3b7)
    case 5 => Work(0x79ea687a, 0x6dc57a8a, 0x34df1604, 0x41a65cb1, 0x1efbc0a0, 0xf0781bc8, 0xa507a53d, 0x0772a26b)
    case 6 => Work(0x4172328d, 0xa14c14b0, 0x72ab4b91, 0x26628815, 0xfecf0bc6, 0xd57b94a9, 0xb7755da1, 0xa80f11f0)
    case 7 => Work(0x38cc9913, 0x3ec45cdb, 0xf5702fdb, 0x101fd28f, 0x54cb266b, 0xe50e1b4f, 0x9f4787c3, 0x529e7d00)
    case _ => Work(0x506e3058, 0xd39a2165, 0x04d24d6c, 0xb85e2ce9, 0x5ef50f24, 0xfb121210, 0x948d25b6, 0x961f4894)
  }

  lemma Constants0()
    ensures Constants(0) == Eight(0x428a2f98, 0x71374491, 0xb5c0fbcf, 0xe9b5dba5, 0x3956c25b, 0x59f111f1, 0x923f82a4, 0xab1c5ed5)
  {
  }

  lemma Constants1()
    ensures Constants(8) == Eight(0xd807aa98, 0x12835b01, 0x243185be, 0x550c7dc3, 0x72be5d74, 0x80deb1fe, 0x9bdc06a7, 0xc19bf174)
  {
  }

  lemma Constants2()
    ensures Constants(16) == Eight(0xe49b69c1, 0xefbe4786, 0x0fc19dc6, 0x240ca1cc, 0x2de92c6f, 0x4a7484aa, 0x5cb0a9dc, 0x76f988da)
  {
  }

  lemma Constants3()
    ensures Constants(24) == Eight(0x983e5152, 0xa831c66d, 0xb00327c8, 0xbf597fc7, 0xc6e00bf3, 0xd5a79147, 0x06ca6351, 0x14292967)
  {
  }

  lemma Constants4()
    ensures Constants(32) == Eight(0x27b70a85, 0x2e1b2138, 0x4d2c6dfc, 0x53380d13, 0x650a7354, 0x766a0abb, 0x81c2c92e, 0x92722c85)
  {
  }

  lemma Constants5()
    ensures Constants(40) == Eight(0xa2bfe8a1, 0xa81a664b, 0xc24b8b70, 0xc76c51a3, 0xd192e819, 0xd6990624, 0xf40e3585, 0x106aa070)
  {
  }

  lemma Constants6()
    ensures Constants(48) == Eight(0x19a4c116, 0x1e376c08, 0x2748774c, 0x34b0bcb5, 0x391c0cb3, 0x4ed8aa4a, 0x5b9cca4f, 0x682e6ff3)
  {
  }

  lemma Constants7()
    ensures Constants(56) == Eight(0x748f82ee, 0x78a5636f, 0x84c87814, 0x8cc70208, 0x90befffa, 0xa4506ceb, 0xbef9a3f7, 0xc67178f2)
  {
  }

  lemma Steps0()
    ensures Traced(Eight(0x428a2f98, 0x71374491, 0xb5c0fbcf, 0xe9b5dba5, 0x3956c25b, 0x59f111f1, 0x923f82a4, 0xab1c5ed5),
                   Eight(0x61626380, 0x00000000, 0x00000000, 0x00000000, 0x00000000, 0x00000000, 0x00000000, 0x00000000),
                   Work(0x6a09e667, 0xbb67ae85, 0x3c6ef372, 0xa54ff53a, 0x510e527f, 0x9b05688c, 0x1f83d9ab, 0x5be0cd19),
                   Work(0x85a07b5f, 0xe5030380, 0x2b4209f5, 0x04409a6a, 0x0c657a79, 0x9b27a401, 0x714260ad, 0x43ada245))
  {
    var k := Eight(0x428a2f98, 0x71374491, 0xb5c0fbcf, 0xe9b5dba5, 0x3956c25b, 0x59f111f1, 0x923f82a4, 0xab1c5ed5);
    var m := Eight(0x61626380, 0x00000000, 0x00000000, 0x00000000, 0x00000000, 0x00000000, 0x00000000, 0x00000000);
    var s0 := Work(0x6a09e667, 0xbb67ae85, 0x3c6ef372, 0xa54ff53a, 0x510e527f, 0x9b05688c, 0x1f83d9ab, 0x5be0cd19);
    var s1 := Work(0x5d6aebcd, 0x6a09e667, 0xbb67ae85, 0x3c6ef372, 0xfa2a4622, 0x510e527f, 0x9b05688c, 0x1f83d9ab);
    var s2 := Work(0x5a6ad9ad, 0x5d6aebcd, 0x6a09e667, 0xbb67ae85, 0x78ce7989, 0xfa2a4622, 0x510e527f, 0x9b05688c);
    var s3 := Work(0xc8c347a7, 0x5a6ad9ad, 0x5d6aebcd, 0x6a09e667, 0xf92939eb, 0x78ce7989, 0xfa2a4622, 0x510e527f);
    var s4 := Work(0xd550f666, 0xc8c347a7, 0x5a6ad9ad, 0x5d6aebcd, 0x24e00850, 0xf92939eb, 0x78ce7989, 0xfa2a4622);
    var s5 := Work(0x04409a6a, 0xd550f666, 0xc8c347a7, 0x5a6ad9ad, 0x43ada245, 0x24e00850, 0xf92939eb, 0x78ce7989);
    var s6 := Work(0x2b4209f5, 0x04409a6a, 0xd550f666, 0xc8c347a7, 0x714260ad, 0x43ada245, 0x24e00850, 0xf92939eb);
    var s7 := Work(0xe5030380, 0x2b4209f5, 0x04409a6a, 0xd550f666, 0x9b27a401, 0x714260ad, 0x43ada245, 0x24e00850);
    var s8 := Work(0x85a07b5f, 0xe5030380, 0x2b4209f5, 0x04409a6a, 0x0c657a79, 0x9b27a401, 0x714260ad, 0x43ada245);
    assert Step(s0, k.w0, m.w0, s1) && Step(s1, k.w1, m.w1, s2) && Step(s2, k.w2, m.w2, s3) && Step(s3, k.w3, m.w3, s4);
    assert Step(s4, k.w4, m.w4, s5) && Step(s5, k.w5, m.w5, s6) && Step(s6, k.w6, m.w6, s7) && Step(s7, k.w7, m.w7, s8);
    assert Trace(k, m, s0, s1, s2, s3, s4, s5, s6, s7, s8);
  }

  lemma Steps1()
    ensures Traced(Eight(0xd807aa98, 0x12835b01, 0x243185be, 0x550c7dc3, 0x72be5d74, 0x80deb1fe, 0x9bdc06a7, 0xc19bf174),
                   Eight(0x00000000, 0x00000000, 0x00000000, 0x00000000, 0x00000000, 0x00000000, 0x00000000, 0x00000018),
                   Work(0x85a07b5f, 0xe5030380, 0x2b4209f5, 0x04409a6a, 0x0c657a79, 0x9b27a401, 0x714260ad, 0x43ada245),
                   Work(0xb0fa238e, 0xc0645fde, 0xd932eb16, 0x87912990, 0x07590dcd, 0x0b92f20c, 0x745a48de, 0x1e578218))
  {
    var k := Eight(0xd807aa98, 0x12835b01, 0x243185be, 0x550c7dc3, 0x72be5d74, 0x80deb1fe, 0x9bdc06a7, 0xc19bf174);
    var m := Eight(0x00000000, 0x00000000, 0x00000000, 0x00000000, 0x00000000, 0x00000000, 0x00000000, 0x00000018);
    var s0 := Work(0x85a07b5f, 0xe5030380, 0x2b4209f5, 0x04409a6a, 0x0c657a79, 0x9b27a401, 0x714260ad, 0x43ada245);
    var s1 := Work(0x8e04ecb9, 0x85a07b5f, 0xe5030380, 0x2b4209f5, 0x32ca2d8c, 0x0c657a79, 0x9b27a401, 0x714260ad);
    var s2 := Work(0x8c87346b, 0x8e04ecb9, 0x85a07b5f, 0xe5030380, 0x1cc92596, 0x32ca2d8c, 0x0c657a79, 0x9b27a401);
    var s3 := Work(0x4798a3f4, 0x8c87346b, 0x8e04ecb9, 0x85a07b5f, 0x436b23e8, 0x1cc92596, 0x32ca2d8c, 0x0c657a79);
    var s4 := Work(0xf71fc5a9, 0x4798a3f4, 0x8c87346b, 0x8e04ecb9, 0x816fd6e9, 0x436b23e8, 0x1cc92596, 0x32ca2d8c);
    var s5 := Work(0x87912990, 0xf71fc5a9, 0x4798a3f4, 0x8c87346b, 0x1e578218, 0x816fd6e9, 0x436b23e8, 0x1cc92596);
    var s6 := Work(0xd932eb16, 0x87912990, 0xf71fc5a9, 0x4798a3f4, 0x745a48de, 0x1e578218, 0x816fd6e9, 0x436b23e8);
    var s7 := Work(0xc0645fde, 0xd932eb16, 0x87912990, 0xf71fc5a9, 0x0b92f20c, 0x745a48de, 0x1e578218, 0x816fd6e9);
    var s8 := Work(0xb0fa238e, 0xc0645fde, 0xd932eb16, 0x87912990, 0x07590dcd, 0x0b92f20c, 0x745a48de, 0x1e578218);
    assert Step(s0, k.w0, m.w0, s1) && Step(s1, k.w1, m.w1, s2) && Step(s2, k.w2, m.w2, s3) && Step(s3, k.w3, m.w3, s4);
    assert Step(s4, k.w4, m.w4, s5) && Step(s5, k.w5, m.w5, s6) && Step(s6, k.w6, m.w6, s7) && Step(s7, k.w7, m.w7, s8);
    assert Trace(k, m, s0, s1, s2, s3, s4, s5, s6, s7, s8);
  }

  lemma Steps2()
    ensures Traced(Eight(0xe49b69c1, 0xefbe4786, 0x0fc19dc6, 0x240ca1cc, 0x2de92c6f, 0x4a7484aa, 0x5cb0a9dc, 0x76f988da),
                   Eight(0x61626380, 0x000f0000, 0x7da86405, 0x600003c6, 0x3e9d7b78, 0x0183fc00, 0x12dcbfdb, 0xe2e2c38e),
                   Work(0xb0fa238e, 0xc0645fde, 0xd932eb16, 0x87912990, 0x07590dcd, 0x0b92f20c, 0x745a48de, 0x1e578218),
                   Work(0xc5d53d8d, 0xa7a3623f, 0xc2606d6d, 0x9dc68b63, 0xaa47c347, 0x49f5114a, 0xe1257970, 0x8ada8930))
  {
    var k := Eight(0xe49b69c1, 0xefbe4786, 0x0fc19dc6, 0x240ca1cc, 0x2de92c6f, 0x4a7484aa, 0x5cb0a9dc, 0x76f988da);
    var m := Eight(0x61626380, 0x000f0000, 0x7da86405, 0x600003c6, 0x3e9d7b78, 0x0183fc00, 0x12dcbfdb, 0xe2e2c38e);
    var s0 := Work(0xb0fa238e, 0xc0645fde, 0xd932eb16, 0x87912990, 0x07590dcd, 0x0b92f20c, 0x745a48de, 0x1e578218);
    var s1 := Work(0x21da9a9b, 0xb0fa238e, 0xc0645fde, 0xd932eb16, 0x8034229c, 0x07590dcd, 0x0b92f20c, 0x745a48de);
    var s2 := Work(0xc2fbd9d1, 0x21da9a9b, 0xb0fa238e, 0xc0645fde, 0x846ee454, 0x8034229c, 0x07590dcd, 0x0b92f20c);
    var s3 := Work(0xfe777bbf, 0xc2fbd9d1, 0x21da9a9b, 0xb0fa238e, 0xcc899961, 0x846ee454, 0x8034229c, 0x07590dcd);
    var s4 := Work(0xe1f20c33, 0xfe777bbf, 0xc2fbd9d1, 0x21da9a9b, 0xb0638179, 0xcc899961, 0x846ee454, 0x8034229c);
    var s5 := Work(0x9dc68b63, 0xe1f20c33, 0xfe777bbf, 0xc2fbd9d1, 0x8ada8930, 0xb0638179, 0xcc899961, 0x846ee454);
    var s6 := Work(0xc2606d6d, 0x9dc68b63, 0xe1f20c33, 0xfe777bbf, 0xe1257970, 0x8ada8930, 0xb0638179, 0xcc899961);
    var s7 := Work(0xa7a3623f, 0xc2606d6d, 0x9dc68b63, 0xe1f20c33, 0x49f5114a, 0xe1257970, 0x8ada8930, 0xb0638179);
    var s8 := Work(0xc5d53d8d, 0xa7a3623f, 0xc2606d6d, 0x9dc68b63, 0xaa47c347, 0x49f5114a, 0xe1257970, 0x8ada8930);
    assert Step(s0, k.w0, m.w0, s1) && Step(s1, k.w1, m.w1, s2) && Step(s2, k.w2, m.w2, s3) && Step(s3, k.w3, m.w3, s4);
    assert Step(s4, k.w4, m.w4, s5) && Step(s5, k.w5, m.w5, s6) && Step(s6, k.w6, m.w6, s7) && Step(s7, k.w7, m.w7, s8);
    assert Trace(k, m, s0, s1, s2, s3, s4, s5, s6, s7, s8);
  }

  lemma Steps3()
    ensures Traced(Eight(0x983e5152, 0xa831c66d, 0xb00327c8, 0xbf597fc7, 0xc6e00bf3, 0xd5a79147, 0x06ca6351, 0x14292967),
                   Eight(0xc8215c1a, 0xb73679a2, 0xe5bc3909, 0x32663c5b, 0x9d209d67, 0xec8726cb, 0x702138a4, 0xd3b7973b),
                   Work(0xc5d53d8d, 0xa7a3623f, 0xc2606d6d, 0x9dc68b63, 0xaa47c347, 0x49f5114a, 0xe1257970, 0x8ada8930),
                   Work(0x73b33bf5, 0xea992a22, 0xa0060b30, 0x363482c9, 0xba591112, 0x0109ab3a, 0xade79437, 0x6112a3b7))
  {
    var k := Eight(0x983e5152, 0xa831c66d, 0xb00327c8, 0xbf597fc7, 0xc6e00bf3, 0xd5a79147, 0x06ca6351, 0x14292967);
    var m := Eight(0xc8215c1a, 0xb73679a2, 0xe5bc3909, 0x32663c5b, 0x9d209d67, 0xec8726cb, 0x702138a4, 0xd3b7973b);
    var s0 := Work(0xc5d53d8d, 0xa7a3623f, 0xc2606d6d, 0x9dc68b63, 0xaa47c347, 0x49f5114a, 0xe1257970, 0x8ada8930);
    var s1 := Work(0x1c2c2838, 0xc5d53d8d, 0xa7a3623f, 0xc2606d6d, 0x2823ef91, 0xaa47c347, 0x49f5114a, 0xe1257970);
    var s2 := Work(0xcde8037d, 0x1c2c2838, 0xc5d53d8d, 0xa7a3623f, 0x14383d8e, 0x2823ef91, 0xaa47c347, 0x49f5114a);
    var s3 := Work(0xb62ec4bc, 0xcde8037d, 0x1c2c2838, 0xc5d53d8d, 0xc74c6516, 0x14383d8e, 0x2823ef91, 0xaa47c347);
    var s4 := Work(0x77d37528, 0xb62ec4bc, 0xcde8037d, 0x1c2c2838, 0xedffbff8, 0xc74c6516, 0x14383d8e, 0x2823ef91);
    var s5 := Work(0x363482c9, 0x77d37528, 0xb62ec4bc, 0xcde8037d, 0x6112a3b7, 0xedffbff8, 0xc74c6516, 0x14383d8e);
    var s6 := Work(0xa0060b30, 0x363482c9, 0x77d37528, 0xb62ec4bc, 0xade79437, 0x6112a3b7, 0xedffbff8, 0xc74c6516);
    var s7 := Work(0xea992a22, 0xa0060b30, 0x363482c9, 0x77d37528, 0x0109ab3a, 0xade79437, 0x6112a3b7, 0xedffbff8);
    var s8 := Work(0x73b33bf5, 0xea992a22, 0xa0060b30, 0x363482c9, 0xba591112, 0x0109ab3a, 0xade79437, 0x6112a3b7);
    assert Step(s0, k.w0, m.w0, s1) && Step(s1, k.w1, m.w1, s2) && Step(s2, k.w2, m.w2, s3) && Step(s3, k.w3, m.w3, s4);
    assert Step(s4, k.w4, m.w4, s5) && Step(s5, k.w5, m.w5, s6) && Step(s6, k.w6, m.w6, s7) && Step(s7, k.w7, m.w7, s8);
    assert Trace(k, m, s0, s1, s2, s3, s4, s5, s6, s7, s8);
  }

  lemma Steps4()
    ensures Traced(Eight(0x27b70a85, 0x2e1b2138, 0x4d2c6dfc, 0x53380d13, 0x650a7354, 0x766a0abb, 0x81c2c92e, 0x92722c85),
                   Eight(0x93f5997f, 0x3b68ba73, 0xaff4ffc1, 0xf10a5c62, 0x0a8b3996, 0x72af830a, 0x9409e33e, 0x24641522),
                   Work(0x73b33bf5, 0xea992a22, 0xa0060b30, 0x363482c9, 0xba591112, 0x0109ab3a, 0xade79437, 0x6112a3b7),
                   Work(0x79ea687a, 0x6dc57a8a, 0x34df1604, 0x41a65cb1, 0x1efbc0a0, 0xf0781bc8, 0xa507a53d, 0x0772a26b))
  {
    var k := Eight(0x27b70a85, 0x2e1b2138, 0x4d2c6dfc, 0x53380d13, 0x650a7354, 0x766a0abb, 0x81c2c92e, 0x92722c85);
    var m := Eight(0x93f5997f, 0x3b68ba73, 0xaff4ffc1, 0xf10a5c62, 0x0a8b3996, 0x72af830a, 0x9409e33e, 0x24641522);
    var s0 := Work(0x73b33bf5, 0xea992a22, 0xa0060b30, 0x363482c9, 0xba591112, 0x0109ab3a, 0xade79437, 0x6112a3b7);
    var s1 := Work(0x98e12507, 0x73b33bf5, 0xea992a22, 0xa0060b30, 0x9cd9f5f6, 0xba591112, 0x0109ab3a, 0xade79437);
    var s2 := Work(0xfe604df5, 0x98e12507, 0x73b33bf5, 0xea992a22, 0x59249dd3, 0x9cd9f5f6, 0xba591112, 0x0109ab3a);
    var s3 := Work(0xa9a7738c, 0xfe604df5, 0x98e12507, 0x73b33bf5, 0x085f3833, 0x59249dd3, 0x9cd9f5f6, 0xba591112);
    var s4 := Work(0x65a0cfe4, 0xa9a7738c, 0xfe604df5, 0x98e12507, 0xf4b002d6, 0x085f3833, 0x59249dd3, 0x9cd9f5f6);
    var s5 := Work(0x41a65cb1, 0x65a0cfe4, 0xa9a7738c, 0xfe604df5, 0x0772a26b, 0xf4b002d6, 0x085f3833, 0x59249dd3);
    var s6 := Work(0x34df1604, 0x41a65cb1, 0x65a0cfe4, 0xa9a7738c, 0xa507a53d, 0x0772a26b, 0xf4b002d6, 0x085f3833);
    var s7 := Work(0x6dc57a8a, 0x34df1604, 0x41a65cb1, 0x65a0cfe4, 0xf0781bc8, 0xa507a53d, 0x0772a26b, 0xf4b002d6);
    var s8 := Work(0x79ea687a, 0x6dc57a8a, 0x34df1604, 0x41a65cb1, 0x1efbc0a0, 0xf0781bc8, 0xa507a53d, 0x0772a26b);
    assert Step(s0, k.w0, m.w0, s1) && Step(s1, k.w1, m.w1, s2) && Step(s2, k.w2, m.w2, s3) && Step(s3, k.w3, m.w3, s4);
    assert Step(s4, k.w4, m.w4, s5) && Step(s5, k.w5, m.w5, s6) && Step(s6, k.w6, m.w6, s7) && Step(s7, k.w7, m.w7, s8);
    assert Trace(k, m, s0, s1, s2, s3, s4, s5, s6, s7, s8);
  }

  lemma Steps5()
    ensures Traced(Eight(0xa2bfe8a1, 0xa81a664b, 0xc24b8b70, 0xc76c51a3, 0xd192e819, 0xd6990624, 0xf40e3585, 0x106aa070),
                   Eight(0x9f47bf94, 0xf0a64f5a, 0x3e246a79, 0x27333ba3, 0x0c4763f2, 0x840abf27, 0x7a290d5d, 0x065c43da),
                   Work(0x79ea687a, 0x6dc57a8a, 0x34df1604, 0x41a65cb1, 0x1efbc0a0, 0xf0781bc8, 0xa507a53d, 0x0772a26b),
                   Work(0x4172328d, 0xa14c14b0, 0x72ab4b91, 0x26628815, 0xfecf0bc6, 0xd57b94a9, 0xb7755da1, 0xa80f11f0))
  {
    var k := Eight(0xa2bfe8a1, 0xa81a664b, 0xc24b8b70, 0xc76c51a3, 0xd192e819, 0xd6990624, 0xf40e3585, 0x106aa070);
    var m := Eight(0x9f47bf94, 0xf0a64f5a, 0x3e246a79, 0x27333ba3, 0x0c4763f2, 0x840abf27, 0x7a290d5d, 0x065c43da);
    var s0 := Work(0x79ea687a, 0x6dc57a8a, 0x34df1604, 0x41a65cb1, 0x1efbc0a0, 0xf0781bc8, 0xa507a53d, 0x0772a26b);
    var s1 := Work(0xd6670766, 0x79ea687a, 0x6dc57a8a, 0x34df1604, 0x26352d63, 0x1efbc0a0, 0xf0781bc8, 0xa507a53d);
    var s2 := Work(0xdf46652f, 0xd6670766, 0x79ea687a, 0x6dc57a8a, 0x838b2711, 0x26352d63, 0x1efbc0a0, 0xf0781bc8);
    var s3 := Work(0x17aa0dfe, 0xdf46652f, 0xd6670766, 0x79ea687a, 0xdecd4715, 0x838b2711, 0x26352d63, 0x1efbc0a0);
    var s4 := Work(0x9d4baf93, 0x17aa0dfe, 0xdf46652f, 0xd6670766, 0xfda24c2e, 0xdecd4715, 0x838b2711, 0x26352d63);
    var s5 := Work(0x26628815, 0x9d4baf93, 0x17aa0dfe, 0xdf46652f, 0xa80f11f0, 0xfda24c2e, 0xdecd4715, 0x838b2711);
    var s6 := Work(0x72ab4b91, 0x26628815, 0x9d4baf93, 0x17aa0dfe, 0xb7755da1, 0xa80f11f0, 0xfda24c2e, 0xdecd4715);
    var s7 := Work(0xa14c14b0, 0x72ab4b91, 0x26628815, 0x9d4baf93, 0xd57b94a9, 0xb7755da1, 0xa80f11f0, 0xfda24c2e);
    var s8 := Work(0x4172328d, 0xa14c14b0, 0x72ab4b91, 0x26628815, 0xfecf0bc6, 0xd57b94a9, 0xb7755da1, 0xa80f11f0);
    assert Step(s0, k.w0, m.w0, s1) && Step(s1, k.w1, m.w1, s2) && Step(s2, k.w2, m.w2, s3) && Step(s3, k.w3, m.w3, s4);
    assert Step(s4, k.w4, m.w4, s5) && Step(s5, k.w5, m.w5, s6) && Step(s6, k.w6, m.w6, s7) && Step(s7, k.w7, m.w7, s8);
    assert Trace(k, m, s0, s1, s2, s3, s4, s5, s6, s7, s8);
  }

  lemma Steps6()
    ensures Traced(Eight(0x19a4c116, 0x1e376c08, 0x2748774c, 0x34b0bcb5, 0x391c0cb3, 0x4ed8aa4a, 0x5b9cca4f, 0x682e6ff3),
                   Eight(0xfb3e89cb, 0xcc7617db, 0xb9e66c34, 0xa9993667, 0x84badedd, 0xc21462bc, 0x1487472c, 0xb20f7a99),
                   Work(0x4172328d, 0xa14c14b0, 0x72ab4b91, 0x26628815, 0xfecf0bc6, 0xd57b94a9, 0xb7755da1, 0xa80f11f0),
                   Work(0x38cc9913, 0x3ec45cdb, 0xf5702fdb, 0x101fd28f, 0x54cb266b, 0xe50e1b4f, 0x9f4787c3, 0x529e7d00))
  {
    var k := Eight(0x19a4c116, 0x1e376c08, 0x2748774c, 0x34b0bcb5, 0x391c0cb3, 0x4ed8aa4a, 0x5b9cca4f, 0x682e6ff3);
    var m := Eight(0xfb3e89cb, 0xcc7617db, 0xb9e66c34, 0xa9993667, 0x84badedd, 0xc21462bc, 0x1487472c, 0xb20f7a99);
    var s0 := Work(0x4172328d, 0xa14c14b0, 0x72ab4b91, 0x26628815, 0xfecf0bc6, 0xd57b94a9, 0xb7755da1, 0xa80f11f0);
    var s1 := Work(0x05757ceb, 0x4172328d, 0xa14c14b0, 0x72ab4b91, 0xbd714038, 0xfecf0bc6, 0xd57b94a9, 0xb7755da1);
    var s2 := Work(0xf11bfaa8, 0x05757ceb, 0x4172328d, 0xa14c14b0, 0x6e5c390c, 0xbd714038, 0xfecf0bc6, 0xd57b94a9);
    var s3 := Work(0x7a0508a1, 0xf11bfaa8, 0x05757ceb, 0x4172328d, 0x52f1ccf7, 0x6e5c390c, 0xbd714038, 0xfecf0bc6);
    var s4 := Work(0x886e7a22, 0x7a0508a1, 0xf11bfaa8, 0x05757ceb, 0x49231c1e, 0x52f1ccf7, 0x6e5c390c, 0xbd714038);
    var s5 := Work(0x101fd28f, 0x886e7a22, 0x7a0508a1, 0xf11bfaa8, 0x529e7d00, 0x49231c1e, 0x52f1ccf7, 0x6e5c390c);
    var s6 := Work(0xf5702fdb, 0x101fd28f, 0x886e7a22, 0x7a0508a1, 0x9f4787c3, 0x529e7d00, 0x49231c1e, 0x52f1ccf7);
    var s7 := Work(0x3ec45cdb, 0xf5702fdb, 0x101fd28f, 0x886e7a22, 0xe50e1b4f, 0x9f4787c3, 0x529e7d00, 0x49231c1e);
    var s8 := Work(0x38cc9913, 0x3ec45cdb, 0xf5702fdb, 0x101fd28f, 0x54cb266b, 0xe50e1b4f, 0x9f4787c3, 0x529e7d00);
    assert Step(s0, k.w0, m.w0, s1) && Step(s1, k.w1, m.w1, s2) && Step(s2, k.w2, m.w2, s3) && Step(s3, k.w3, m.w3, s4);
    assert Step(s4, k.w4, m.w4, s5) && Step(s5, k.w5, m.w5, s6) && Step(s6, k.w6, m.w6, s7) && Step(s7, k.w7, m.w7, s8);
    assert Trace(k, m, s0, s1, s2, s3, s4, s5, s6, s7, s8);
  }

  lemma Steps7()
    ensures Traced(Eight(0x748f82ee, 0x78a5636f, 0x84c87814, 0x8cc70208, 0x90befffa, 0xa4506ceb, 0xbef9a3f7, 0xc67178f2),
                   Eight(0xef57b9cd, 0xebe6b238, 0x9fe3095e, 0x78bc8d4b, 0xa43fcf15, 0x668b2ff8, 0xeeaba2cc, 0x12b1edeb),
                   Work(0x38cc9913, 0x3ec45cdb, 0xf5702fdb, 0x101fd28f, 0x54cb266b, 0xe50e1b4f, 0x9f4787c3, 0x529e7d00),
                   Work(0x506e3058, 0xd39a2165, 0x04d24d6c, 0xb85e2ce9, 0x5ef50f24, 0xfb121210, 0x948d25b6, 0x961f4894))
  {
    var k := Eight(0x748f82ee, 0x78a5636f, 0x84c87814, 0x8cc70208, 0x90befffa, 0xa4506ceb, 0xbef9a3f7, 0xc67178f2);
    var m := Eight(0xef57b9cd, 0xebe6b238, 0x9fe3095e, 0x78bc8d4b, 0xa43fcf15, 0x668b2ff8, 0xeeaba2cc, 0x12b1edeb);
    var s0 := Work(0x38cc9913, 0x3ec45cdb, 0xf5702fdb, 0x101fd28f, 0x54cb266b, 0xe50e1b4f, 0x9f4787c3, 0x529e7d00);
    var s1 := Work(0xfcd1887b, 0x38cc9913, 0x3ec45cdb, 0xf5702fdb, 0x9b5e906c, 0x54cb266b, 0xe50e1b4f, 0x9f4787c3);
    var s2 := Work(0xc062d46f, 0xfcd1887b, 0x38cc9913, 0x3ec45cdb, 0x7e44008e, 0x9b5e906c, 0x54cb266b, 0xe50e1b4f);
    var s3 := Work(0xffb70472, 0xc062d46f, 0xfcd1887b, 0x38cc9913, 0x6d83bfc6, 0x7e44008e, 0x9b5e906c, 0x54cb266b);
    var s4 := Work(0xb6ae8fff, 0xffb70472, 0xc062d46f, 0xfcd1887b, 0xb21bad3d, 0x6d83bfc6, 0x7e44008e, 0x9b5e906c);
    var s5 := Work(0xb85e2ce9, 0xb6ae8fff, 0xffb70472, 0xc062d46f, 0x961f4894, 0xb21bad3d, 0x6d83bfc6, 0x7e44008e);
    var s6 := Work(0x04d24d6c, 0xb85e2ce9, 0xb6ae8fff, 0xffb70472, 0x948d25b6, 0x961f4894, 0xb21bad3d, 0x6d83bfc6);
    var s7 := Work(0xd39a2165, 0x04d24d6c, 0xb85e2ce9, 0xb6ae8fff, 0xfb121210, 0x948d25b6, 0x961f4894, 0xb21bad3d);
    var s8 := Work(0x506e3058, 0xd39a2165, 0x04d24d6c, 0xb85e2ce9, 0x5ef50f24, 0xfb121210, 0x948d25b6, 0x961f4894);
    assert Step(s0, k.w0, m.w0, s1) && Step(s1, k.w1, m.w1, s2) && Step(s2, k.w2, m.w2, s3) && Step(s3, k.w3, m.w3, s4);
    assert Step(s4, k.w4, m.w4, s5) && Step(s5, k.w5, m.w5, s6) && Step(s6, k.w6, m.w6, s7) && Step(s7, k.w7, m.w7, s8);
    assert Trace(k, m, s0, s1, s2, s3, s4, s5, s6, s7, s8);
  }

  lemma Rounds0()
    ensures Traced(Constants(0), Column(0), At(0), At(1))
  {
    hide Traced, Constants;
    Constants0();
    Steps0();
  }

  lemma Rounds1()
    ensures Traced(Constants(8), Column(1), At(1), At(2))
  {
    hide Traced, Constants;
    Constants1();
    Steps1();
  }

  lemma Rounds2()
    ensures Traced(Constants(16), Column(2), At(2), At(3))
  {
    hide Traced, Constants;
    Constants2();
    Steps2();
  }

  lemma Rounds3()
    ensures Traced(Constants(24), Column(3), At(3), At(4))
  {
    hide Traced, Constants;
    Constants3();
    Steps3();
  }

  lemma Rounds4()
    ensures Traced(Constants(32), Column(4), At(4), At(5))
  {
    hide Traced, Constants;
    Constants4();
    Steps4();
  }

  lemma Rounds5()
    ensures Traced(Constants(40), Column(5), At(5), At(6))
  {
    hide Traced, Constants;
    Constants5();
    Steps5();
  }

  lemma Rounds6()
    ensures Traced(Constants(48), Column(6), At(6), At(7))
  {
    hide Traced, Constants;
    Constants6();
    Steps6();
  }

  lemma Rounds7()
    ensures Traced(Constants(56), Column(7), At(7), At(8))
  {
    hide Traced, Constants;
    Constants7();
    Steps7();
  }

  lemma Words2()
    ensures Follows(Eight(0x61626380, 0x00000000, 0x00000000, 0x00000000, 0x00000000, 0x00000000, 0x00000000, 0x00000000),
                    Eight(0x00000000, 0x00000000, 0x00000000, 0x00000000, 0x00000000, 0x00000000, 0x00000000, 0x00000018),
                    Eight(0x61626380, 0x000f0000, 0x7da86405, 0x600003c6, 0x3e9d7b78, 0x0183fc00, 0x12dcbfdb, 0xe2e2c38e))
  {
  }

  lemma Words3()
    ensures Follows(Eight(0x00000000, 0x00000000, 0x00000000, 0x00000000, 0x00000000, 0x00000000, 0x00000000, 0x00000018),
                    Eight(0x61626380, 0x000f0000, 0x7da86405, 0x600003c6, 0x3e9d7b78, 0x0183fc00, 0x12dcbfdb, 0xe2e2c38e),
                    Eight(0xc8215c1a, 0xb73679a2, 0xe5bc3909, 0x32663c5b, 0x9d209d67, 0xec8726cb, 0x702138a4, 0xd3b7973b))
  {
  }

  lemma Words4()
    ensures Follows(Eight(0x61626380, 0x000f0000, 0x7da86405, 0x600003c6, 0x3e9d7b78, 0x0183fc00, 0x12dcbfdb, 0xe2e2c38e),
                    Eight(0xc8215c1a, 0xb73679a2, 0xe5bc3909, 0x32663c5b, 0x9d209d67, 0xec8726cb, 0x702138a4, 0xd3b7973b),
                    Eight(0x93f5997f, 0x3b68ba73, 0xaff4ffc1, 0xf10a5c62, 0x0a8b3996, 0x72af830a, 0x9409e33e, 0x24641522))
  {
  }

  lemma Words5()
    ensures Follows(Eight(0xc8215c1a, 0xb73679a2, 0xe5bc3909, 0x32663c5b, 0x9d209d67, 0xec8726cb, 0x702138a4, 0xd3b7973b),
                    Eight(0x93f5997f, 0x3b68ba73, 0xaff4ffc1, 0xf10a5c62, 0x0a8b3996, 0x72af830a, 0x9409e33e, 0x24641522),
                    Eight(0x9f47bf94, 0xf0a64f5a, 0x3e246a79, 0x27333ba3, 0x0c4763f2, 0x840abf27, 0x7a290d5d, 0x065c43da))
  {
  }

  lemma Words6()
    ensures Follows(Eight(0x93f5997f, 0x3b68ba73, 0xaff4ffc1, 0xf10a5c62, 0x0a8b3996, 0x72af830a, 0x9409e33e, 0x24641522),
                    Eight(0x9f47bf94, 0xf0a64f5a, 0x3e246a79, 0x27333ba3, 0x0c4763f2, 0x840abf27, 0x7a290d5d, 0x065c43da),
                    Eight(0xfb3e89cb, 0xcc7617db, 0xb9e66c34, 0xa9993667, 0x84badedd, 0xc21462bc, 0x1487472c, 0xb20f7a99))
  {
  }

  lemma Words7()
    ensures Follows(Eight(0x9f47bf94, 0xf0a64f5a, 0x3e246a79, 0x27333ba3, 0x0c4763f2, 0x840abf27, 0x7a290d5d, 0x065c43da),
                    Eight(0xfb3e89cb, 0xcc7617db, 0xb9e66c34, 0xa9993667, 0x84badedd, 0xc21462bc, 0x1487472c, 0xb20f7a99),
                    Eight(0xef57b9cd, 0xebe6b238, 0x9fe3095e, 0x78bc8d4b, 0xa43fcf15, 0x668b2ff8, 0xeeaba2cc, 0x12b1edeb))
  {
  }

  lemma Columns(i: nat)
    requires 2 <= i < 8
    ensures Follows(Column(i - 2), Column(i - 1), Column(i))
  {
    hide Follows;
    match i
    case 2 => Words2();
    case 3 => Words3();
    case 4 => Words4();
    case 5 => Words5();
    case 6 => Words6();
    case 7 => Words7();
  }

  lemma FirstWords()
    ensures Words(BLOCK, 0) == Column(0) && Words(BLOCK, 8) == Column(1)
  {
    assert BLOCK[..4] == [0x61, 0x62, 0x63, 0x80] && BLOCK[63] == 24;
    assert forall i :: 4 <= i < 63 ==> BLOCK[i] == 0;
    assert Join(0, 0, 0, 0) == 0 && Join(0, 0, 0, 24) == 24 && Join(0x61, 0x62, 0x63, 0x80) == 0x61626380;
    hide Join;
  }

  lemma FirstColumns(i: nat)
    requires i < 2
    ensures Words(BLOCK, 8 * i) == Column(i)
  {
    hide BLOCK, Words, Column;
    match i
    case 0 => FirstWords();
    case 1 => FirstWords();
  }

  lemma {:induction false} Schedules(i: nat)
    requires i < 8
    ensures Words(BLOCK, 8 * i) == Column(i)
  {
    hide *;
    if i < 2 {
      FirstColumns(i);
    } else {
      Schedules(i - 2);
      Schedules(i - 1);
      Columns(i);
      Following(8 * (i - 2), Column(i - 2), Column(i - 1), Column(i));
    }
  }

  lemma Following(t: nat, p: Eight, q: Eight, n: Eight)
    requires Words(BLOCK, t) == p && Words(BLOCK, t + 8) == q && Follows(p, q, n)
    ensures Words(BLOCK, t + 16) == n
  {
    hide *;
    BlockSize();
    NextWords(BLOCK, t);
    OneFollows(p, q, n, Words(BLOCK, t + 16));
  }

  lemma BlockSize()
    ensures |BLOCK| == 64
  {
  }

  lemma First()
    ensures Rounds(H0, BLOCK, 0) == At(0)
  {
  }

  lemma {:induction false} Reaches(i: nat)
    requires i <= 8
    ensures Rounds(H0, BLOCK, 8 * i) == At(i)
  {
    hide Rounds, Traced, At, Column, Words, Constants, Run, H0;
    if i == 0 {
      First();
    } else {
      Reaches(i - 1);
      Rounds0(); Rounds1(); Rounds2(); Rounds3(); Rounds4(); Rounds5(); Rounds6(); Rounds7();
      RunRounds(H0, BLOCK, 8 * (i - 1));
      Schedules(i - 1);
      TracedRun(Constants(8 * (i - 1)), Column(i - 1), At(i - 1), At(i));
    }
  }

  lemma PaddedAbc()
    ensures Padded(ABC) == BLOCK
  {
    hide Gap, Big64, Zeros;
    assert Gap(3) == 52;
    LengthOfAbc();
    ZerosJoin(52, 7);
    assert ABC + [0x80] + Zeros(52) + (Zeros(7) + [24]) == ABC + [0x80] + (Zeros(52) + Zeros(7)) + [24];
  }

  lemma ZerosJoin(a: nat, b: nat)
    ensures Zeros(a) + Zeros(b) == Zeros(a + b)
  {
  }

  lemma LengthOfAbc()
    ensures Big64(24) == Zeros(7) + [24]
  {
    hide Big32;
    assert Big32(0) == [0, 0, 0, 0] by { NoBytes(); }
    assert Big32(24) == [0, 0, 0, 24] by { LowByte(); }
  }

  lemma NoBytes()
    ensures Big32(0) == [0, 0, 0, 0]
  {
  }

  lemma LowByte()
    ensures Big32(24) == [0, 0, 0, 24]
  {
    hide Digit;
    HighDigits();
    LowDigit();
  }

  lemma HighDigits()
    ensures Digit(24, 0x100_0000) == 0 && Digit(24, 0x1_0000) == 0 && Digit(24, 0x100) == 0
  {
  }

  lemma LowDigit()
    ensures Digit(24, 1) == 24
  {
  }

  lemma Sum()
    ensures Add(H0, At(8)) == Work(0xba7816bf, 0x8f01cfea, 0x414140de, 0x5dae2223, 0xb00361a3, 0x96177a9c, 0xb410ff61, 0xf20015ad)
  {
  }

  lemma Bytes()
    ensures Digest(Work(0xba7816bf, 0x8f01cfea, 0x414140de, 0x5dae2223, 0xb00361a3, 0x96177a9c, 0xb410ff61, 0xf20015ad)) == [
              0xba, 0x78, 0x16, 0xbf, 0x8f, 0x01, 0xcf, 0xea, 0x41, 0x41, 0x40, 0xde, 0x5d, 0xae, 0x22, 0x23,
              0xb0, 0x03, 0x61, 0xa3, 0x96, 0x17, 0x7a, 0x9c, 0xb4, 0x10, 0xff, 0x61, 0xf2, 0x00, 0x15, 0xad]
  {
  }

  lemma DigestOfAbc()
    ensures Digest(Sha(ABC)) == [
              0xba, 0x78, 0x16, 0xbf, 0x8f, 0x01, 0xcf, 0xea, 0x41, 0x41, 0x40, 0xde, 0x5d, 0xae, 0x22, 0x23,
              0xb0, 0x03, 0x61, 0xa3, 0x96, 0x17, 0x7a, 0x9c, 0xb4, 0x10, 0xff, 0x61, 0xf2, 0x00, 0x15, 0xad]
  {
    hide Rounds, Padded, Digest, Add, At, H0, ABC, BLOCK, Fold;
    Reaches(8);
    PaddedAbc();
    Sum();
    Bytes();
    BlockSize();
    OneFold(BLOCK);
  }

  lemma OneFold(b: seq<Byte>)
    requires |b| == 64
    ensures Fold(H0, b) == Compress(H0, b)
  {
    hide Compress, H0;
    assert b[..64] == b && b[64..] == [];
  }
}
