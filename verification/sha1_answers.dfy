/** Worked examples of SHA-1: the digest of "abc" (FIPS 180) and of the key in the
    opening handshake of section 1.3 of RFC 6455, word by word and round by round. */
module Sha1Answers {
  import opened Blocks
  import opened Bytes
  import opened Sha1Spec

  lemma NextWord(block: seq<byte>, t: nat, w3: word, w8: word, w14: word, w16: word)
    requires |block| == 64 && t >= 16
    requires Schedule(block, t - 3) == w3 && Schedule(block, t - 8) == w8
    requires Schedule(block, t - 14) == w14 && Schedule(block, t - 16) == w16
    ensures Schedule(block, t) == Rotl(1, Xor(w3, w8, w14, w16))
  {
    hide Rotl, Xor;
  }

  lemma NextRound(v: Vars, block: seq<byte>, t: nat, a: word, b: word, c: word, d: word, e: word, w: word)
    requires |block| == 64 && Rounds(v, block, t) == Vars(a, b, c, d, e) && Schedule(block, t) == w
    ensures Rounds(v, block, t + 1) == Vars(Sum(Rotl(5, a), Logical(t, b, c, d), e, Constant(t), w), a, Rotl(30, b), c, d)
  {
    hide Rotl, Sum, Logical, Constant, Schedule;
  }

  predicate IsAbc(block: seq<byte>) {
    && |block| == 64
    && BlockWord(block, 0) == 0x61626380 && BlockWord(block, 1) == 0x00000000 && BlockWord(block, 2) == 0x00000000 && BlockWord(block, 3) == 0x00000000
    && BlockWord(block, 4) == 0x00000000 && BlockWord(block, 5) == 0x00000000 && BlockWord(block, 6) == 0x00000000 && BlockWord(block, 7) == 0x00000000
    && BlockWord(block, 8) == 0x00000000 && BlockWord(block, 9) == 0x00000000 && BlockWord(block, 10) == 0x00000000 && BlockWord(block, 11) == 0x00000000
    && BlockWord(block, 12) == 0x00000000 && BlockWord(block, 13) == 0x00000000 && BlockWord(block, 14) == 0x00000000 && BlockWord(block, 15) == 0x00000018
  }

  lemma AbcWords0(block: seq<byte>)
    requires IsAbc(block)
    ensures Schedule(block, 0) == 0x61626380 && Schedule(block, 1) == 0x00000000 && Schedule(block, 2) == 0x00000000 && Schedule(block, 3) == 0x00000000
    ensures Schedule(block, 4) == 0x00000000 && Schedule(block, 5) == 0x00000000 && Schedule(block, 6) == 0x00000000 && Schedule(block, 7) == 0x00000000
    ensures Schedule(block, 8) == 0x00000000 && Schedule(block, 9) == 0x00000000 && Schedule(block, 10) == 0x00000000 && Schedule(block, 11) == 0x00000000
    ensures Schedule(block, 12) == 0x00000000 && Schedule(block, 13) == 0x00000000 && Schedule(block, 14) == 0x00000000 && Schedule(block, 15) == 0x00000018
  {
    hide BlockWord;
  }

  lemma AbcWords16(block: seq<byte>)
    requires IsAbc(block)
    ensures Schedule(block, 16) == 0xc2c4c700 && Schedule(block, 17) == 0x00000000 && Schedule(block, 18) == 0x00000030 && Schedule(block, 19) == 0x85898e01
    ensures Schedule(block, 20) == 0x00000000 && Schedule(block, 21) == 0x00000060 && Schedule(block, 22) == 0x0b131c03 && Schedule(block, 23) == 0x00000030
    ensures Schedule(block, 24) == 0x85898ec1 && Schedule(block, 25) == 0x16263806 && Schedule(block, 26) == 0x00000000 && Schedule(block, 27) == 0x00000180
    ensures Schedule(block, 28) == 0x2c4c700c && Schedule(block, 29) == 0x000000f0 && Schedule(block, 30) == 0x93afb507 && Schedule(block, 31) == 0x5898e048
  {
    hide Schedule, BlockWord;
    AbcWords0(block);
    NextWord(block, 16, 0x00000000, 0x00000000, 0x00000000, 0x61626380);
    NextWord(block, 17, 0x00000000, 0x00000000, 0x00000000, 0x00000000);
    NextWord(block, 18, 0x00000018, 0x00000000, 0x00000000, 0x00000000);
    NextWord(block, 19, 0xc2c4c700, 0x00000000, 0x00000000, 0x00000000);
    NextWord(block, 20, 0x00000000, 0x00000000, 0x00000000, 0x00000000);
    NextWord(block, 21, 0x00000030, 0x00000000, 0x00000000, 0x00000000);
    NextWord(block, 22, 0x85898e01, 0x00000000, 0x00000000, 0x00000000);
    NextWord(block, 23, 0x00000000, 0x00000018, 0x00000000, 0x00000000);
    NextWord(block, 24, 0x00000060, 0xc2c4c700, 0x00000000, 0x00000000);
    NextWord(block, 25, 0x0b131c03, 0x00000000, 0x00000000, 0x00000000);
    NextWord(block, 26, 0x00000030, 0x00000030, 0x00000000, 0x00000000);
    NextWord(block, 27, 0x85898ec1, 0x85898e01, 0x00000000, 0x00000000);
    NextWord(block, 28, 0x16263806, 0x00000000, 0x00000000, 0x00000000);
    NextWord(block, 29, 0x00000000, 0x00000060, 0x00000018, 0x00000000);
    NextWord(block, 30, 0x00000180, 0x0b131c03, 0xc2c4c700, 0x00000000);
    NextWord(block, 31, 0x2c4c700c, 0x00000030, 0x00000000, 0x00000018);
  }

  lemma AbcWords32(block: seq<byte>)
    requires IsAbc(block)
    ensures Schedule(block, 32) == 0x8e9a9202 && Schedule(block, 33) == 0x00000600 && Schedule(block, 34) == 0xb131c0f0 && Schedule(block, 35) == 0x16263bc6
    ensures Schedule(block, 36) == 0x4ebed41e && Schedule(block, 37) == 0x626380a1 && Schedule(block, 38) == 0x16263806 && Schedule(block, 39) == 0x000018c0
    ensures Schedule(block, 40) == 0xd2e138c4 && Schedule(block, 41) == 0x00000f00 && Schedule(block, 42) == 0x3afb5079 && Schedule(block, 43) == 0x898e04e5
    ensures Schedule(block, 44) == 0xe2ba3c2b && Schedule(block, 45) == 0x000060c0 && Schedule(block, 46) == 0x053a37cd && Schedule(block, 47) == 0x74458547
  {
    hide Schedule, BlockWord;
    AbcWords16(block);
    NextWord(block, 32, 0x000000f0, 0x85898ec1, 0x00000030, 0xc2c4c700);
    NextWord(block, 33, 0x93afb507, 0x16263806, 0x85898e01, 0x00000000);
    NextWord(block, 34, 0x5898e048, 0x00000000, 0x00000000, 0x00000030);
    NextWord(block, 35, 0x8e9a9202, 0x00000180, 0x00000060, 0x85898e01);
    NextWord(block, 36, 0x00000600, 0x2c4c700c, 0x0b131c03, 0x00000000);
    NextWord(block, 37, 0xb131c0f0, 0x000000f0, 0x00000030, 0x00000060);
    NextWord(block, 38, 0x16263bc6, 0x93afb507, 0x85898ec1, 0x0b131c03);
    NextWord(block, 39, 0x4ebed41e, 0x5898e048, 0x16263806, 0x00000030);
    NextWord(block, 40, 0x626380a1, 0x8e9a9202, 0x00000000, 0x85898ec1);
    NextWord(block, 41, 0x16263806, 0x00000600, 0x00000180, 0x16263806);
    NextWord(block, 42, 0x000018c0, 0xb131c0f0, 0x2c4c700c, 0x00000000);
    NextWord(block, 43, 0xd2e138c4, 0x16263bc6, 0x000000f0, 0x00000180);
    NextWord(block, 44, 0x00000f00, 0x4ebed41e, 0x93afb507, 0x2c4c700c);
    NextWord(block, 45, 0x3afb5079, 0x626380a1, 0x5898e048, 0x000000f0);
    NextWord(block, 46, 0x898e04e5, 0x16263806, 0x8e9a9202, 0x93afb507);
    NextWord(block, 47, 0xe2ba3c2b, 0x000018c0, 0x00000600, 0x5898e048);
  }

  lemma AbcWords48(block: seq<byte>)
    requires IsAbc(block)
    ensures Schedule(block, 48) == 0xda9415ed && Schedule(block, 49) == 0x26380a16 && Schedule(block, 50) == 0x626383a1 && Schedule(block, 51) == 0x4ebf54de
    ensures Schedule(block, 52) == 0x3835b44b && Schedule(block, 53) == 0x0000f600 && Schedule(block, 54) == 0x1e84c7a3 && Schedule(block, 55) == 0x98e04d98
    ensures Schedule(block, 56) == 0x651d16a0 && Schedule(block, 57) == 0x62658ca1 && Schedule(block, 58) == 0x458544d6 && Schedule(block, 59) == 0x44584cb7
    ensures Schedule(block, 60) == 0x7ba06619 && Schedule(block, 61) == 0x6380aea2 && Schedule(block, 62) == 0x0ae55269 && Schedule(block, 63) == 0x627b49a1
  {
    hide Schedule, BlockWord;
    AbcWords32(block);
    NextWord(block, 48, 0x000060c0, 0xd2e138c4, 0xb131c0f0, 0x8e9a9202);
    NextWord(block, 49, 0x053a37cd, 0x00000f00, 0x16263bc6, 0x00000600);
    NextWord(block, 50, 0x74458547, 0x3afb5079, 0x4ebed41e, 0xb131c0f0);
    NextWord(block, 51, 0xda9415ed, 0x898e04e5, 0x626380a1, 0x16263bc6);
    NextWord(block, 52, 0x26380a16, 0xe2ba3c2b, 0x16263806, 0x4ebed41e);
    NextWord(block, 53, 0x626383a1, 0x000060c0, 0x000018c0, 0x626380a1);
    NextWord(block, 54, 0x4ebf54de, 0x053a37cd, 0xd2e138c4, 0x16263806);
    NextWord(block, 55, 0x3835b44b, 0x74458547, 0x00000f00, 0x000018c0);
    NextWord(block, 56, 0x0000f600, 0xda9415ed, 0x3afb5079, 0xd2e138c4);
    NextWord(block, 57, 0x1e84c7a3, 0x26380a16, 0x898e04e5, 0x00000f00);
    NextWord(block, 58, 0x98e04d98, 0x626383a1, 0xe2ba3c2b, 0x3afb5079);
    NextWord(block, 59, 0x651d16a0, 0x4ebf54de, 0x000060c0, 0x898e04e5);
    NextWord(block, 60, 0x62658ca1, 0x3835b44b, 0x053a37cd, 0xe2ba3c2b);
    NextWord(block, 61, 0x458544d6, 0x0000f600, 0x74458547, 0x000060c0);
    NextWord(block, 62, 0x44584cb7, 0x1e84c7a3, 0xda9415ed, 0x053a37cd);
    NextWord(block, 63, 0x7ba06619, 0x98e04d98, 0x26380a16, 0x74458547);
  }

  lemma AbcWords64(block: seq<byte>)
    requires IsAbc(block)
    ensures Schedule(block, 64) == 0x7cd45c9d && Schedule(block, 65) == 0x000f0000 && Schedule(block, 66) == 0xfb50753a && Schedule(block, 67) == 0xec6765e8
    ensures Schedule(block, 68) == 0xba3c2be2 && Schedule(block, 69) == 0x0060c000 && Schedule(block, 70) == 0x3a37cd05 && Schedule(block, 71) == 0x458546f4
    ensures Schedule(block, 72) == 0xb8599dd6 && Schedule(block, 73) == 0x380a1a26 && Schedule(block, 74) == 0x01e02203 && Schedule(block, 75) == 0xe7cc3456
    ensures Schedule(block, 76) == 0xe6e60b69 && Schedule(block, 77) == 0x00f60a00 && Schedule(block, 78) == 0x5795ef4f && Schedule(block, 79) == 0x822e0879
  {
    hide Schedule, BlockWord;
    AbcWords48(block);
    NextWord(block, 64, 0x6380aea2, 0x651d16a0, 0x626383a1, 0xda9415ed);
    NextWord(block, 65, 0x0ae55269, 0x62658ca1, 0x4ebf54de, 0x26380a16);
    NextWord(block, 66, 0x627b49a1, 0x458544d6, 0x3835b44b, 0x626383a1);
    NextWord(block, 67, 0x7cd45c9d, 0x44584cb7, 0x0000f600, 0x4ebf54de);
    NextWord(block, 68, 0x000f0000, 0x7ba06619, 0x1e84c7a3, 0x3835b44b);
    NextWord(block, 69, 0xfb50753a, 0x6380aea2, 0x98e04d98, 0x0000f600);
    NextWord(block, 70, 0xec6765e8, 0x0ae55269, 0x651d16a0, 0x1e84c7a3);
    NextWord(block, 71, 0xba3c2be2, 0x627b49a1, 0x62658ca1, 0x98e04d98);
    NextWord(block, 72, 0x0060c000, 0x7cd45c9d, 0x458544d6, 0x651d16a0);
    NextWord(block, 73, 0x3a37cd05, 0x000f0000, 0x44584cb7, 0x62658ca1);
    NextWord(block, 74, 0x458546f4, 0xfb50753a, 0x7ba06619, 0x458544d6);
    NextWord(block, 75, 0xb8599dd6, 0xec6765e8, 0x6380aea2, 0x44584cb7);
    NextWord(block, 76, 0x380a1a26, 0xba3c2be2, 0x0ae55269, 0x7ba06619);
    NextWord(block, 77, 0x01e02203, 0x0060c000, 0x627b49a1, 0x6380aea2);
    NextWord(block, 78, 0xe7cc3456, 0x3a37cd05, 0x7cd45c9d, 0x0ae55269);
    NextWord(block, 79, 0xe6e60b69, 0x458546f4, 0x000f0000, 0x627b49a1);
  }

  lemma AbcRounds16(block: seq<byte>)
    requires IsAbc(block)
    ensures Rounds(Vars(0x67452301, 0xefcdab89, 0x98badcfe, 0x10325476, 0xc3d2e1f0), block, 16)
            == Vars(0x20bdd62f, 0x196bee77, 0x644a3da5, 0x1181ed99, 0x18c623f9)
  {
    hide Rounds, Schedule, BlockWord;
    var v := Vars(0x67452301, 0xefcdab89, 0x98badcfe, 0x10325476, 0xc3d2e1f0);
    NoRounds(v, block);
    AbcWords0(block);
    NextRound(v, block, 0, 0x67452301, 0xefcdab89, 0x98badcfe, 0x10325476, 0xc3d2e1f0, 0x61626380);
    NextRound(v, block, 1, 0x0116fc33, 0x67452301, 0x7bf36ae2, 0x98badcfe, 0x10325476, 0x00000000);
    NextRound(v, block, 2, 0x8990536d, 0x0116fc33, 0x59d148c0, 0x7bf36ae2, 0x98badcfe, 0x00000000);
    NextRound(v, block, 3, 0xa1390f08, 0x8990536d, 0xc045bf0c, 0x59d148c0, 0x7bf36ae2, 0x00000000);
    NextRound(v, block, 4, 0xcdd8e11b, 0xa1390f08, 0x626414db, 0xc045bf0c, 0x59d148c0, 0x00000000);
    NextRound(v, block, 5, 0xcfd499de, 0xcdd8e11b, 0x284e43c2, 0x626414db, 0xc045bf0c, 0x00000000);
    NextRound(v, block, 6, 0x3fc7ca40, 0xcfd499de, 0xf3763846, 0x284e43c2, 0x626414db, 0x00000000);
    NextRound(v, block, 7, 0x993e30c1, 0x3fc7ca40, 0xb3f52677, 0xf3763846, 0x284e43c2, 0x00000000);
    NextRound(v, block, 8, 0x9e8c07d4, 0x993e30c1, 0x0ff1f290, 0xb3f52677, 0xf3763846, 0x00000000);
    NextRound(v, block, 9, 0x4b6ae328, 0x9e8c07d4, 0x664f8c30, 0x0ff1f290, 0xb3f52677, 0x00000000);
    NextRound(v, block, 10, 0x8351f929, 0x4b6ae328, 0x27a301f5, 0x664f8c30, 0x0ff1f290, 0x00000000);
    NextRound(v, block, 11, 0xfbda9e89, 0x8351f929, 0x12dab8ca, 0x27a301f5, 0x664f8c30, 0x00000000);
    NextRound(v, block, 12, 0x63188fe4, 0xfbda9e89, 0x60d47e4a, 0x12dab8ca, 0x27a301f5, 0x00000000);
    NextRound(v, block, 13, 0x4607b664, 0x63188fe4, 0x7ef6a7a2, 0x60d47e4a, 0x12dab8ca, 0x00000000);
    NextRound(v, block, 14, 0x9128f695, 0x4607b664, 0x18c623f9, 0x7ef6a7a2, 0x60d47e4a, 0x00000000);
    NextRound(v, block, 15, 0x196bee77, 0x9128f695, 0x1181ed99, 0x18c623f9, 0x7ef6a7a2, 0x00000018);
  }

  lemma AbcRounds32(block: seq<byte>)
    requires IsAbc(block)
    ensures Rounds(Vars(0x67452301, 0xefcdab89, 0x98badcfe, 0x10325476, 0xc3d2e1f0), block, 32)
            == Vars(0x3b845d33, 0x1267b407, 0x717eebd7, 0xa0dc2d4b, 0xd2aa1365)
  {
    hide Rounds, Schedule, BlockWord;
    var v := Vars(0x67452301, 0xefcdab89, 0x98badcfe, 0x10325476, 0xc3d2e1f0);
    AbcRounds16(block);
    AbcWords16(block);
    NextRound(v, block, 16, 0x20bdd62f, 0x196bee77, 0x644a3da5, 0x1181ed99, 0x18c623f9, 0xc2c4c700);
    NextRound(v, block, 17, 0x4e925823, 0x20bdd62f, 0xc65afb9d, 0x644a3da5, 0x1181ed99, 0x00000000);
    NextRound(v, block, 18, 0x82aa6728, 0x4e925823, 0xc82f758b, 0xc65afb9d, 0x644a3da5, 0x00000030);
    NextRound(v, block, 19, 0xdc64901d, 0x82aa6728, 0xd3a49608, 0xc82f758b, 0xc65afb9d, 0x85898e01);
    NextRound(v, block, 20, 0xfd9e1d7d, 0xdc64901d, 0x20aa99ca, 0xd3a49608, 0xc82f758b, 0x00000000);
    NextRound(v, block, 21, 0x1a37b0ca, 0xfd9e1d7d, 0x77192407, 0x20aa99ca, 0xd3a49608, 0x00000060);
    NextRound(v, block, 22, 0x33a23bfc, 0x1a37b0ca, 0x7f67875f, 0x77192407, 0x20aa99ca, 0x0b131c03);
    NextRound(v, block, 23, 0x21283486, 0x33a23bfc, 0x868dec32, 0x7f67875f, 0x77192407, 0x00000030);
    NextRound(v, block, 24, 0xd541f12d, 0x21283486, 0x0ce88eff, 0x868dec32, 0x7f67875f, 0x85898ec1);
    NextRound(v, block, 25, 0xc7567dc6, 0xd541f12d, 0x884a0d21, 0x0ce88eff, 0x868dec32, 0x16263806);
    NextRound(v, block, 26, 0x48413ba4, 0xc7567dc6, 0x75507c4b, 0x884a0d21, 0x0ce88eff, 0x00000000);
    NextRound(v, block, 27, 0xbe35fbd5, 0x48413ba4, 0xb1d59f71, 0x75507c4b, 0x884a0d21, 0x00000180);
    NextRound(v, block, 28, 0x4aa84d97, 0xbe35fbd5, 0x12104ee9, 0xb1d59f71, 0x75507c4b, 0x2c4c700c);
    NextRound(v, block, 29, 0x8370b52e, 0x4aa84d97, 0x6f8d7ef5, 0x12104ee9, 0xb1d59f71, 0x000000f0);
    NextRound(v, block, 30, 0xc5fbaf5d, 0x8370b52e, 0xd2aa1365, 0x6f8d7ef5, 0x12104ee9, 0x93afb507);
    NextRound(v, block, 31, 0x1267b407, 0xc5fbaf5d, 0xa0dc2d4b, 0xd2aa1365, 0x6f8d7ef5, 0x5898e048);
  }

  lemma AbcRounds48(block: seq<byte>)
    requires IsAbc(block)
    ensures Rounds(Vars(0x67452301, 0xefcdab89, 0x98badcfe, 0x10325476, 0xc3d2e1f0), block, 48)
            == Vars(0xbead02ca, 0xa01b846c, 0x8714787c, 0x503ca382, 0xfb86c6ab)
  {
    hide Rounds, Schedule, BlockWord;
    var v := Vars(0x67452301, 0xefcdab89, 0x98badcfe, 0x10325476, 0xc3d2e1f0);
    AbcRounds32(block);
    AbcWords32(block);
    NextRound(v, block, 32, 0x3b845d33, 0x1267b407, 0x717eebd7, 0xa0dc2d4b, 0xd2aa1365, 0x8e9a9202);
    NextRound(v, block, 33, 0x046faa0a, 0x3b845d33, 0xc499ed01, 0x717eebd7, 0xa0dc2d4b, 0x00000600);
    NextRound(v, block, 34, 0x2c0ebc11, 0x046faa0a, 0xcee1174c, 0xc499ed01, 0x717eebd7, 0xb131c0f0);
    NextRound(v, block, 35, 0x21796ad4, 0x2c0ebc11, 0x811bea82, 0xcee1174c, 0xc499ed01, 0x16263bc6);
    NextRound(v, block, 36, 0xdcbbb0cb, 0x21796ad4, 0x4b03af04, 0x811bea82, 0xcee1174c, 0x4ebed41e);
    NextRound(v, block, 37, 0x0f511fd8, 0xdcbbb0cb, 0x085e5ab5, 0x4b03af04, 0x811bea82, 0x626380a1);
    NextRound(v, block, 38, 0xdc63973f, 0x0f511fd8, 0xf72eec32, 0x085e5ab5, 0x4b03af04, 0x16263806);
    NextRound(v, block, 39, 0x4c986405, 0xdc63973f, 0x03d447f6, 0xf72eec32, 0x085e5ab5, 0x000018c0);
    NextRound(v, block, 40, 0x32de1cba, 0x4c986405, 0xf718e5cf, 0x03d447f6, 0xf72eec32, 0xd2e138c4);
    NextRound(v, block, 41, 0xfc87dedf, 0x32de1cba, 0x53261901, 0xf718e5cf, 0x03d447f6, 0x00000f00);
    NextRound(v, block, 42, 0x970a0d5c, 0xfc87dedf, 0x8cb7872e, 0x53261901, 0xf718e5cf, 0x3afb5079);
    NextRound(v, block, 43, 0x7f193dc5, 0x970a0d5c, 0xff21f7b7, 0x8cb7872e, 0x53261901, 0x898e04e5);
    NextRound(v, block, 44, 0xee1b1aaf, 0x7f193dc5, 0x25c28357, 0xff21f7b7, 0x8cb7872e, 0xe2ba3c2b);
    NextRound(v, block, 45, 0x40f28e09, 0xee1b1aaf, 0x5fc64f71, 0x25c28357, 0xff21f7b7, 0x000060c0);
    NextRound(v, block, 46, 0x1c51e1f2, 0x40f28e09, 0xfb86c6ab, 0x5fc64f71, 0x25c28357, 0x053a37cd);
    NextRound(v, block, 47, 0xa01b846c, 0x1c51e1f2, 0x503ca382, 0xfb86c6ab, 0x5fc64f71, 0x74458547);
  }

  lemma AbcRounds64(block: seq<byte>)
    requires IsAbc(block)
    ensures Rounds(Vars(0x67452301, 0xefcdab89, 0x98badcfe, 0x10325476, 0xc3d2e1f0), block, 64)
            == Vars(0x6b61c9e1, 0xb66c020b, 0x9523272c, 0xf5d5b051, 0x8fd4b796)
  {
    hide Rounds, Schedule, BlockWord;
    var v := Vars(0x67452301, 0xefcdab89, 0x98badcfe, 0x10325476, 0xc3d2e1f0);
    AbcRounds48(block);
    AbcWords48(block);
    NextRound(v, block, 48, 0xbead02ca, 0xa01b846c, 0x8714787c, 0x503ca382, 0xfb86c6ab, 0xda9415ed);
    NextRound(v, block, 49, 0xbaf39337, 0xbead02ca, 0x2806e11b, 0x8714787c, 0x503ca382, 0x26380a16);
    NextRound(v, block, 50, 0x120731c5, 0xbaf39337, 0xafab40b2, 0x2806e11b, 0x8714787c, 0x626383a1);
    NextRound(v, block, 51, 0x641db2ce, 0x120731c5, 0xeebce4cd, 0xafab40b2, 0x2806e11b, 0x4ebf54de);
    NextRound(v, block, 52, 0x3847ad66, 0x641db2ce, 0x4481cc71, 0xeebce4cd, 0xafab40b2, 0x3835b44b);
    NextRound(v, block, 53, 0xe490436d, 0x3847ad66, 0x99076cb3, 0x4481cc71, 0xeebce4cd, 0x0000f600);
    NextRound(v, block, 54, 0x27e9f1d8, 0xe490436d, 0x8e11eb59, 0x99076cb3, 0x4481cc71, 0x1e84c7a3);
    NextRound(v, block, 55, 0x7b71f76d, 0x27e9f1d8, 0x792410db, 0x8e11eb59, 0x99076cb3, 0x98e04d98);
    NextRound(v, block, 56, 0x5e6456af, 0x7b71f76d, 0x09fa7c76, 0x792410db, 0x8e11eb59, 0x651d16a0);
    NextRound(v, block, 57, 0xc846093f, 0x5e6456af, 0x5edc7ddb, 0x09fa7c76, 0x792410db, 0x62658ca1);
    NextRound(v, block, 58, 0xd262ff50, 0xc846093f, 0xd79915ab, 0x5edc7ddb, 0x09fa7c76, 0x458544d6);
    NextRound(v, block, 59, 0x09d785fd, 0xd262ff50, 0xf211824f, 0xd79915ab, 0x5edc7ddb, 0x44584cb7);
    NextRound(v, block, 60, 0x3f52de5a, 0x09d785fd, 0x3498bfd4, 0xf211824f, 0xd79915ab, 0x7ba06619);
    NextRound(v, block, 61, 0xd756c147, 0x3f52de5a, 0x4275e17f, 0x3498bfd4, 0xf211824f, 0x6380aea2);
    NextRound(v, block, 62, 0x548c9cb2, 0xd756c147, 0x8fd4b796, 0x4275e17f, 0x3498bfd4, 0x0ae55269);
    NextRound(v, block, 63, 0xb66c020b, 0x548c9cb2, 0xf5d5b051, 0x8fd4b796, 0x4275e17f, 0x627b49a1);
  }

  lemma AbcRounds80(block: seq<byte>)
    requires IsAbc(block)
    ensures Rounds(Vars(0x67452301, 0xefcdab89, 0x98badcfe, 0x10325476, 0xc3d2e1f0), block, 80)
            == Vars(0x42541b35, 0x5738d5e1, 0x21834873, 0x681e6df6, 0xd8fdf6ad)
  {
    hide Rounds, Schedule, BlockWord;
    var v := Vars(0x67452301, 0xefcdab89, 0x98badcfe, 0x10325476, 0xc3d2e1f0);
    AbcRounds64(block);
    AbcWords64(block);
    NextRound(v, block, 64, 0x6b61c9e1, 0xb66c020b, 0x9523272c, 0xf5d5b051, 0x8fd4b796, 0x7cd45c9d);
    NextRound(v, block, 65, 0x19dfa7ac, 0x6b61c9e1, 0xed9b0082, 0x9523272c, 0xf5d5b051, 0x000f0000);
    NextRound(v, block, 66, 0x101655f9, 0x19dfa7ac, 0x5ad87278, 0xed9b0082, 0x9523272c, 0xfb50753a);
    NextRound(v, block, 67, 0x0c3df2b4, 0x101655f9, 0x0677e9eb, 0x5ad87278, 0xed9b0082, 0xec6765e8);
    NextRound(v, block, 68, 0x78dd4d2b, 0x0c3df2b4, 0x4405957e, 0x0677e9eb, 0x5ad87278, 0xba3c2be2);
    NextRound(v, block, 69, 0x497093c0, 0x78dd4d2b, 0x030f7cad, 0x4405957e, 0x0677e9eb, 0x0060c000);
    NextRound(v, block, 70, 0x3f2588c2, 0x497093c0, 0xde37534a, 0x030f7cad, 0x4405957e, 0x3a37cd05);
    NextRound(v, block, 71, 0xc199f8c7, 0x3f2588c2, 0x125c24f0, 0xde37534a, 0x030f7cad, 0x458546f4);
    NextRound(v, block, 72, 0x39859de7, 0xc199f8c7, 0x8fc96230, 0x125c24f0, 0xde37534a, 0xb8599dd6);
    NextRound(v, block, 73, 0xedb42de4, 0x39859de7, 0xf0667e31, 0x8fc96230, 0x125c24f0, 0x380a1a26);
    NextRound(v, block, 74, 0x11793f6f, 0xedb42de4, 0xce616779, 0xf0667e31, 0x8fc96230, 0x01e02203);
    NextRound(v, block, 75, 0x5ee76897, 0x11793f6f, 0x3b6d0b79, 0xce616779, 0xf0667e31, 0xe7cc3456);
    NextRound(v, block, 76, 0x63f7dab7, 0x5ee76897, 0xc45e4fdb, 0x3b6d0b79, 0xce616779, 0xe6e60b69);
    NextRound(v, block, 77, 0xa079b7d9, 0x63f7dab7, 0xd7b9da25, 0xc45e4fdb, 0x3b6d0b79, 0x00f60a00);
    NextRound(v, block, 78, 0x860d21cc, 0xa079b7d9, 0xd8fdf6ad, 0xd7b9da25, 0xc45e4fdb, 0x5795ef4f);
    NextRound(v, block, 79, 0x5738d5e1, 0x860d21cc, 0x681e6df6, 0xd8fdf6ad, 0xd7b9da25, 0x822e0879);
  }

  lemma AbcCompresses(block: seq<byte>)
    requires IsAbc(block)
    ensures Compress(Vars(0x67452301, 0xefcdab89, 0x98badcfe, 0x10325476, 0xc3d2e1f0), block)
            == Vars(0xa9993e36, 0x4706816a, 0xba3e2571, 0x7850c26c, 0x9cd0d89d)
  {
    hide Rounds, BlockWord;
    AbcRounds80(block);
  }

  predicate IsFirst(block: seq<byte>) {
    && |block| == 64
    && BlockWord(block, 0) == 0x6447686c && BlockWord(block, 1) == 0x49484e68 && BlockWord(block, 2) == 0x62584273 && BlockWord(block, 3) == 0x5a534275
    && BlockWord(block, 4) == 0x6232356a && BlockWord(block, 5) == 0x5a513d3d && BlockWord(block, 6) == 0x32353845 && BlockWord(block, 7) == 0x41464135
    && BlockWord(block, 8) == 0x2d453931 && BlockWord(block, 9) == 0x342d3437 && BlockWord(block, 10) == 0x44412d39 && BlockWord(block, 11) == 0x3543412d
    && BlockWord(block, 12) == 0x43354142 && BlockWord(block, 13) == 0x30444338 && BlockWord(block, 14) == 0x35423131 && BlockWord(block, 15) == 0x80000000
  }

  lemma FirstWords0(block: seq<byte>)
    requires IsFirst(block)
    ensures Schedule(block, 0) == 0x6447686c && Schedule(block, 1) == 0x49484e68 && Schedule(block, 2) == 0x62584273 && Schedule(block, 3) == 0x5a534275
    ensures Schedule(block, 4) == 0x6232356a && Schedule(block, 5) == 0x5a513d3d && Schedule(block, 6) == 0x32353845 && Schedule(block, 7) == 0x41464135
    ensures Schedule(block, 8) == 0x2d453931 && Schedule(block, 9) == 0x342d3437 && Schedule(block, 10) == 0x44412d39 && Schedule(block, 11) == 0x3543412d
    ensures Schedule(block, 12) == 0x43354142 && Schedule(block, 13) == 0x30444338 && Schedule(block, 14) == 0x35423131 && Schedule(block, 15) == 0x80000000
  {
    hide BlockWord;
  }

  lemma FirstWords16(block: seq<byte>)
    requires IsFirst(block)
    ensures Schedule(block, 16) == 0x363ca02c && Schedule(block, 17) == 0x24e81236 && Schedule(block, 18) == 0x8856b441 && Schedule(block, 19) == 0x06fb3c92
    ensures Schedule(block, 20) == 0x6fb4bcb6 && Schedule(block, 21) == 0x460b16e3 && Schedule(block, 22) == 0x599219ae && Schedule(block, 23) == 0x35bf9369
    ensures Schedule(block, 24) == 0x3267458e && Schedule(block, 25) == 0xf828fd04 && Schedule(block, 26) == 0x753a96a7 && Schedule(block, 27) == 0x6336f612
    ensures Schedule(block, 28) == 0xc3d66383 && Schedule(block, 29) == 0x06eb86f9 && Schedule(block, 30) == 0x73b4fd42 && Schedule(block, 31) == 0xa503c5b8
  {
    hide Schedule, BlockWord;
    FirstWords0(block);
    NextWord(block, 16, 0x30444338, 0x2d453931, 0x62584273, 0x6447686c);
    NextWord(block, 17, 0x35423131, 0x342d3437, 0x5a534275, 0x49484e68);
    NextWord(block, 18, 0x80000000, 0x44412d39, 0x6232356a, 0x62584273);
    NextWord(block, 19, 0x363ca02c, 0x3543412d, 0x5a513d3d, 0x5a534275);
    NextWord(block, 20, 0x24e81236, 0x43354142, 0x32353845, 0x6232356a);
    NextWord(block, 21, 0x8856b441, 0x30444338, 0x41464135, 0x5a513d3d);
    NextWord(block, 22, 0x06fb3c92, 0x35423131, 0x2d453931, 0x32353845);
    NextWord(block, 23, 0x6fb4bcb6, 0x80000000, 0x342d3437, 0x41464135);
    NextWord(block, 24, 0x460b16e3, 0x363ca02c, 0x44412d39, 0x2d453931);
    NextWord(block, 25, 0x599219ae, 0x24e81236, 0x3543412d, 0x342d3437);
    NextWord(block, 26, 0x35bf9369, 0x8856b441, 0x43354142, 0x44412d39);
    NextWord(block, 27, 0x3267458e, 0x06fb3c92, 0x30444338, 0x3543412d);
    NextWord(block, 28, 0xf828fd04, 0x6fb4bcb6, 0x35423131, 0x43354142);
    NextWord(block, 29, 0x753a96a7, 0x460b16e3, 0x80000000, 0x30444338);
    NextWord(block, 30, 0x6336f612, 0x599219ae, 0x363ca02c, 0x35423131);
    NextWord(block, 31, 0xc3d66383, 0x35bf9369, 0x24e81236, 0x80000000);
  }

  lemma FirstWords32(block: seq<byte>)
    requires IsFirst(block)
    ensures Schedule(block, 32) == 0x15cdae35 && Schedule(block, 33) == 0x531e5dc5 && Schedule(block, 34) == 0x6fb6b7d0 && Schedule(block, 35) == 0x6c16e4ac
    ensures Schedule(block, 36) == 0x4ddd36bd && Schedule(block, 37) == 0x35d36946 && Schedule(block, 38) == 0xe8ae8b9c && Schedule(block, 39) == 0x4a933ad0
    ensures Schedule(block, 40) == 0xce8628b4 && Schedule(block, 41) == 0x415dba9e && Schedule(block, 42) == 0x2792f049 && Schedule(block, 43) == 0x8e9b79e7
    ensures Schedule(block, 44) == 0x79c425c5 && Schedule(block, 45) == 0x6353b49d && Schedule(block, 46) == 0x00994218 && Schedule(block, 47) == 0x8a950ed1
  {
    hide Schedule, BlockWord;
    FirstWords16(block);
    NextWord(block, 32, 0x06eb86f9, 0x3267458e, 0x8856b441, 0x363ca02c);
    NextWord(block, 33, 0x73b4fd42, 0xf828fd04, 0x06fb3c92, 0x24e81236);
    NextWord(block, 34, 0xa503c5b8, 0x753a96a7, 0x6fb4bcb6, 0x8856b441);
    NextWord(block, 35, 0x15cdae35, 0x6336f612, 0x460b16e3, 0x06fb3c92);
    NextWord(block, 36, 0x531e5dc5, 0xc3d66383, 0x599219ae, 0x6fb4bcb6);
    NextWord(block, 37, 0x6fb6b7d0, 0x06eb86f9, 0x35bf9369, 0x460b16e3);
    NextWord(block, 38, 0x6c16e4ac, 0x73b4fd42, 0x3267458e, 0x599219ae);
    NextWord(block, 39, 0x4ddd36bd, 0xa503c5b8, 0xf828fd04, 0x35bf9369);
    NextWord(block, 40, 0x35d36946, 0x15cdae35, 0x753a96a7, 0x3267458e);
    NextWord(block, 41, 0xe8ae8b9c, 0x531e5dc5, 0x6336f612, 0xf828fd04);
    NextWord(block, 42, 0x4a933ad0, 0x6fb6b7d0, 0xc3d66383, 0x753a96a7);
    NextWord(block, 43, 0xce8628b4, 0x6c16e4ac, 0x06eb86f9, 0x6336f612);
    NextWord(block, 44, 0x415dba9e, 0x4ddd36bd, 0x73b4fd42, 0xc3d66383);
    NextWord(block, 45, 0x2792f049, 0x35d36946, 0xa503c5b8, 0x06eb86f9);
    NextWord(block, 46, 0x8e9b79e7, 0xe8ae8b9c, 0x15cdae35, 0x73b4fd42);
    NextWord(block, 47, 0x79c425c5, 0x4a933ad0, 0x531e5dc5, 0xa503c5b8);
  }

  lemma FirstWords48(block: seq<byte>)
    requires IsFirst(block)
    ensures Schedule(block, 48) == 0xaf5d0b99 && Schedule(block, 49) == 0xfd9883de && Schedule(block, 50) == 0x1ed8ffeb && Schedule(block, 51) == 0xf007ff28
    ensures Schedule(block, 52) == 0x425e3674 && Schedule(block, 53) == 0x059631c0 && Schedule(block, 54) == 0xad6c3c31 && Schedule(block, 55) == 0x860b71d7
    ensures Schedule(block, 56) == 0x87bfc548 && Schedule(block, 57) == 0x3e64f92d && Schedule(block, 58) == 0x8d0ab761 && Schedule(block, 59) == 0x34e1ee35
    ensures Schedule(block, 60) == 0x0acf5108 && Schedule(block, 61) == 0xc2b479da && Schedule(block, 62) == 0x6c93370a && Schedule(block, 63) == 0xf7935ba1
  {
    hide Schedule, BlockWord;
    FirstWords32(block);
    NextWord(block, 48, 0x6353b49d, 0xce8628b4, 0x6fb6b7d0, 0x15cdae35);
    NextWord(block, 49, 0x00994218, 0x415dba9e, 0x6c16e4ac, 0x531e5dc5);
    NextWord(block, 50, 0x8a950ed1, 0x2792f049, 0x4ddd36bd, 0x6fb6b7d0);
    NextWord(block, 51, 0xaf5d0b99, 0x8e9b79e7, 0x35d36946, 0x6c16e4ac);
    NextWord(block, 52, 0xfd9883de, 0x79c425c5, 0xe8ae8b9c, 0x4ddd36bd);
    NextWord(block, 53, 0x1ed8ffeb, 0x6353b49d, 0x4a933ad0, 0x35d36946);
    NextWord(block, 54, 0xf007ff28, 0x00994218, 0xce8628b4, 0xe8ae8b9c);
    NextWord(block, 55, 0x425e3674, 0x8a950ed1, 0x415dba9e, 0x4a933ad0);
    NextWord(block, 56, 0x059631c0, 0xaf5d0b99, 0x2792f049, 0xce8628b4);
    NextWord(block, 57, 0xad6c3c31, 0xfd9883de, 0x8e9b79e7, 0x415dba9e);
    NextWord(block, 58, 0x860b71d7, 0x1ed8ffeb, 0x79c425c5, 0x2792f049);
    NextWord(block, 59, 0x87bfc548, 0xf007ff28, 0x6353b49d, 0x8e9b79e7);
    NextWord(block, 60, 0x3e64f92d, 0x425e3674, 0x00994218, 0x79c425c5);
    NextWord(block, 61, 0x8d0ab761, 0x059631c0, 0x8a950ed1, 0x6353b49d);
    NextWord(block, 62, 0x34e1ee35, 0xad6c3c31, 0xaf5d0b99, 0x00994218);
    NextWord(block, 63, 0x0acf5108, 0x860b71d7, 0xfd9883de, 0x8a950ed1);
  }

  lemma FirstWords64(block: seq<byte>)
    requires IsFirst(block)
    ensures Schedule(block, 64) == 0xe91c91c1 && Schedule(block, 65) == 0xbed165a2 && Schedule(block, 66) == 0x4c3e4abe && Schedule(block, 67) == 0x50d96238
    ensures Schedule(block, 68) == 0xb6587dde && Schedule(block, 69) == 0x1a2ee6e6 && Schedule(block, 70) == 0x2d335896 && Schedule(block, 71) == 0xf3495d0b
    ensures Schedule(block, 72) == 0xf30e0a1d && Schedule(block, 73) == 0x32ce5459 && Schedule(block, 74) == 0x7165e3b8 && Schedule(block, 75) == 0xab05ff94
    ensures Schedule(block, 76) == 0xc5949f0b && Schedule(block, 77) == 0xbcd84e4a && Schedule(block, 78) == 0x07720392 && Schedule(block, 79) == 0xff3ff806
  {
    hide Schedule, BlockWord;
    FirstWords48(block);
    NextWord(block, 64, 0xc2b479da, 0x87bfc548, 0x1ed8ffeb, 0xaf5d0b99);
    NextWord(block, 65, 0x6c93370a, 0x3e64f92d, 0xf007ff28, 0xfd9883de);
    NextWord(block, 66, 0xf7935ba1, 0x8d0ab761, 0x425e3674, 0x1ed8ffeb);
    NextWord(block, 67, 0xe91c91c1, 0x34e1ee35, 0x059631c0, 0xf007ff28);
    NextWord(block, 68, 0xbed165a2, 0x0acf5108, 0xad6c3c31, 0x425e3674);
    NextWord(block, 69, 0x4c3e4abe, 0xc2b479da, 0x860b71d7, 0x059631c0);
    NextWord(block, 70, 0x50d96238, 0x6c93370a, 0x87bfc548, 0xad6c3c31);
    NextWord(block, 71, 0xb6587dde, 0xf7935ba1, 0x3e64f92d, 0x860b71d7);
    NextWord(block, 72, 0x1a2ee6e6, 0xe91c91c1, 0x8d0ab761, 0x87bfc548);
    NextWord(block, 73, 0x2d335896, 0xbed165a2, 0x34e1ee35, 0x3e64f92d);
    NextWord(block, 74, 0xf3495d0b, 0x4c3e4abe, 0x0acf5108, 0x8d0ab761);
    NextWord(block, 75, 0xf30e0a1d, 0x50d96238, 0xc2b479da, 0x34e1ee35);
    NextWord(block, 76, 0x32ce5459, 0xb6587dde, 0x6c93370a, 0x0acf5108);
    NextWord(block, 77, 0x7165e3b8, 0x1a2ee6e6, 0xf7935ba1, 0xc2b479da);
    NextWord(block, 78, 0xab05ff94, 0x2d335896, 0xe91c91c1, 0x6c93370a);
    NextWord(block, 79, 0xc5949f0b, 0xf3495d0b, 0xbed165a2, 0xf7935ba1);
  }

  lemma FirstRounds16(block: seq<byte>)
    requires IsFirst(block)
    ensures Rounds(Vars(0x67452301, 0xefcdab89, 0x98badcfe, 0x10325476, 0xc3d2e1f0), block, 16)
            == Vars(0xa004c468, 0xe922cc9d, 0xab86825b, 0xd86f6caf, 0x8d33ae61)
  {
    hide Rounds, Schedule, BlockWord;
    var v := Vars(0x67452301, 0xefcdab89, 0x98badcfe, 0x10325476, 0xc3d2e1f0);
    NoRounds(v, block);
    FirstWords0(block);
    NextRound(v, block, 0, 0x67452301, 0xefcdab89, 0x98badcfe, 0x10325476, 0xc3d2e1f0, 0x6447686c);
    NextRound(v, block, 1, 0x03fc011f, 0x67452301, 0x7bf36ae2, 0x98badcfe, 0x10325476, 0x49484e68);
    NextRound(v, block, 2, 0x2f793f55, 0x03fc011f, 0x59d148c0, 0x7bf36ae2, 0x98badcfe, 0x62584273);
    NextRound(v, block, 3, 0xbe90ee8f, 0x2f793f55, 0xc0ff0047, 0x59d148c0, 0x7bf36ae2, 0x5a534275);
    NextRound(v, block, 4, 0x53e039ac, 0xbe90ee8f, 0x4bde4fd5, 0xc0ff0047, 0x59d148c0, 0x6232356a);
    NextRound(v, block, 5, 0xdd8c7c12, 0x53e039ac, 0xefa43ba3, 0x4bde4fd5, 0xc0ff0047, 0x5a513d3d);
    NextRound(v, block, 6, 0x7320b969, 0xdd8c7c12, 0x14f80e6b, 0xefa43ba3, 0x4bde4fd5, 0x32353845);
    NextRound(v, block, 7, 0x73553e84, 0x7320b969, 0xb7631f04, 0x14f80e6b, 0xefa43ba3, 0x41464135);
    NextRound(v, block, 8, 0x2e0ce601, 0x73553e84, 0x5cc82e5a, 0xb7631f04, 0x14f80e6b, 0x2d453931);
    NextRound(v, block, 9, 0x32beb05a, 0x2e0ce601, 0x1cd54fa1, 0x5cc82e5a, 0xb7631f04, 0x342d3437);
    NextRound(v, block, 10, 0xfaad2675, 0x32beb05a, 0x4b833980, 0x1cd54fa1, 0x5cc82e5a, 0x44412d39);
    NextRound(v, block, 11, 0x5ff4238c, 0xfaad2675, 0x8cafac16, 0x4b833980, 0x1cd54fa1, 0x3543412d);
    NextRound(v, block, 12, 0x34ceb986, 0x5ff4238c, 0x7eab499d, 0x8cafac16, 0x4b833980, 0x43354142);
    NextRound(v, block, 13, 0x61bdb2bf, 0x34ceb986, 0x17fd08e3, 0x7eab499d, 0x8cafac16, 0x30444338);
    NextRound(v, block, 14, 0xae1a096e, 0x61bdb2bf, 0x8d33ae61, 0x17fd08e3, 0x7eab499d, 0x35423131);
    NextRound(v, block, 15, 0xe922cc9d, 0xae1a096e, 0xd86f6caf, 0x8d33ae61, 0x17fd08e3, 0x80000000);
  }

  lemma FirstRounds32(block: seq<byte>)
    requires IsFirst(block)
    ensures Rounds(Vars(0x67452301, 0xefcdab89, 0x98badcfe, 0x10325476, 0xc3d2e1f0), block, 32)
            == Vars(0xa6680a1f, 0xb7dabc8b, 0x4206d8f9, 0xc6aec70d, 0x95c7df60)
  {
    hide Rounds, Schedule, BlockWord;
    var v := Vars(0x67452301, 0xefcdab89, 0x98badcfe, 0x10325476, 0xc3d2e1f0);
    FirstRounds16(block);
    FirstWords16(block);
    NextRound(v, block, 16, 0xa004c468, 0xe922cc9d, 0xab86825b, 0xd86f6caf, 0x8d33ae61, 0x363ca02c);
    NextRound(v, block, 17, 0xd7daf575, 0xa004c468, 0x7a48b327, 0xab86825b, 0xd86f6caf, 0x24e81236);
    NextRound(v, block, 18, 0x7ebb296b, 0xd7daf575, 0x2801311a, 0x7a48b327, 0xab86825b, 0x8856b441);
    NextRound(v, block, 19, 0x8dc510b6, 0x7ebb296b, 0x75f6bd5d, 0x2801311a, 0x7a48b327, 0x06fb3c92);
    NextRound(v, block, 20, 0x091ab97c, 0x8dc510b6, 0xdfaeca5a, 0x75f6bd5d, 0x2801311a, 0x6fb4bcb6);
    NextRound(v, block, 21, 0x518470a3, 0x091ab97c, 0xa371442d, 0xdfaeca5a, 0x75f6bd5d, 0x460b16e3);
    NextRound(v, block, 22, 0xd12f0b56, 0x518470a3, 0x0246ae5f, 0xa371442d, 0xdfaeca5a, 0x599219ae);
    NextRound(v, block, 23, 0xbeafd554, 0xd12f0b56, 0xd4611c28, 0x0246ae5f, 0xa371442d, 0x35bf9369);
    NextRound(v, block, 24, 0x250e26ef, 0xbeafd554, 0xb44bc2d5, 0xd4611c28, 0x0246ae5f, 0x3267458e);
    NextRound(v, block, 25, 0x23d1c91b, 0x250e26ef, 0x2fabf555, 0xb44bc2d5, 0xd4611c28, 0xf828fd04);
    NextRound(v, block, 26, 0x748b39a0, 0x23d1c91b, 0xc94389bb, 0x2fabf555, 0xb44bc2d5, 0x753a96a7);
    NextRound(v, block, 27, 0xef012f20, 0x748b39a0, 0xc8f47246, 0xc94389bb, 0x2fabf555, 0x6336f612);
    NextRound(v, block, 28, 0x571f7d82, 0xef012f20, 0x1d22ce68, 0xc8f47246, 0xc94389bb, 0xc3d66383);
    NextRound(v, block, 29, 0x1abb1c37, 0x571f7d82, 0x3bc04bc8, 0x1d22ce68, 0xc8f47246, 0x06eb86f9);
    NextRound(v, block, 30, 0x081b63e5, 0x1abb1c37, 0x95c7df60, 0x3bc04bc8, 0x1d22ce68, 0x73b4fd42);
    NextRound(v, block, 31, 0xb7dabc8b, 0x081b63e5, 0xc6aec70d, 0x95c7df60, 0x3bc04bc8, 0xa503c5b8);
  }

  lemma FirstRounds48(block: seq<byte>)
    requires IsFirst(block)
    ensures Rounds(Vars(0x67452301, 0xefcdab89, 0x98badcfe, 0x10325476, 0xc3d2e1f0), block, 48)
            == Vars(0xabe1748a, 0xdee4b7a8, 0x5cbfccd3, 0x97d7cd14, 0xdb71a8f5)
  {
    hide Rounds, Schedule, BlockWord;
    var v := Vars(0x67452301, 0xefcdab89, 0x98badcfe, 0x10325476, 0xc3d2e1f0);
    FirstRounds32(block);
    FirstWords32(block);
    NextRound(v, block, 32, 0xa6680a1f, 0xb7dabc8b, 0x4206d8f9, 0xc6aec70d, 0x95c7df60, 0x15cdae35);
    NextRound(v, block, 33, 0x1ae360a9, 0xa6680a1f, 0xedf6af22, 0x4206d8f9, 0xc6aec70d, 0x531e5dc5);
    NextRound(v, block, 34, 0xeeaba35a, 0x1ae360a9, 0xe99a0287, 0xedf6af22, 0x4206d8f9, 0x6fb6b7d0);
    NextRound(v, block, 35, 0x149bb4d3, 0xeeaba35a, 0x46b8d82a, 0xe99a0287, 0xedf6af22, 0x6c16e4ac);
    NextRound(v, block, 36, 0x9de793c8, 0x149bb4d3, 0xbbaae8d6, 0x46b8d82a, 0xe99a0287, 0x4ddd36bd);
    NextRound(v, block, 37, 0x4ccd2227, 0x9de793c8, 0xc526ed34, 0xbbaae8d6, 0x46b8d82a, 0x35d36946);
    NextRound(v, block, 38, 0x68760824, 0x4ccd2227, 0x2779e4f2, 0xc526ed34, 0xbbaae8d6, 0xe8ae8b9c);
    NextRound(v, block, 39, 0xd0869081, 0x68760824, 0xd3334889, 0x2779e4f2, 0xc526ed34, 0x4a933ad0);
    NextRound(v, block, 40, 0x2ba2c83e, 0xd0869081, 0x1a1d8209, 0xd3334889, 0x2779e4f2, 0xce8628b4);
    NextRound(v, block, 41, 0xcb8c52d0, 0x2ba2c83e, 0x7421a420, 0x1a1d8209, 0xd3334889, 0x415dba9e);
    NextRound(v, block, 42, 0x4f589a44, 0xcb8c52d0, 0x8ae8b20f, 0x7421a420, 0x1a1d8209, 0x2792f049);
    NextRound(v, block, 43, 0x868829b7, 0x4f589a44, 0x32e314b4, 0x8ae8b20f, 0x7421a420, 0x8e9b79e7);
    NextRound(v, block, 44, 0x6dc6a3d7, 0x868829b7, 0x13d62691, 0x32e314b4, 0x8ae8b20f, 0x79c425c5);
    NextRound(v, block, 45, 0x5f5f3452, 0x6dc6a3d7, 0xe1a20a6d, 0x13d62691, 0x32e314b4, 0x6353b49d);
    NextRound(v, block, 46, 0x72ff334d, 0x5f5f3452, 0xdb71a8f5, 0xe1a20a6d, 0x13d62691, 0x00994218);
    NextRound(v, block, 47, 0xdee4b7a8, 0x72ff334d, 0x97d7cd14, 0xdb71a8f5, 0xe1a20a6d, 0x8a950ed1);
  }

  lemma FirstRounds64(block: seq<byte>)
    requires IsFirst(block)
    ensures Rounds(Vars(0x67452301, 0xefcdab89, 0x98badcfe, 0x10325476, 0xc3d2e1f0), block, 64)
            == Vars(0x685e2ff6, 0x840054d3, 0xe43c0363, 0x3350802e, 0x921cb616)
  {
    hide Rounds, Schedule, BlockWord;
    var v := Vars(0x67452301, 0xefcdab89, 0x98badcfe, 0x10325476, 0xc3d2e1f0);
    FirstRounds48(block);
    FirstWords48(block);
    NextRound(v, block, 48, 0xabe1748a, 0xdee4b7a8, 0x5cbfccd3, 0x97d7cd14, 0xdb71a8f5, 0xaf5d0b99);
    NextRound(v, block, 49, 0x7510d04f, 0xabe1748a, 0x37b92dea, 0x5cbfccd3, 0x97d7cd14, 0xfd9883de);
    NextRound(v, block, 50, 0x065f8486, 0x7510d04f, 0xaaf85d22, 0x37b92dea, 0x5cbfccd3, 0x1ed8ffeb);
    NextRound(v, block, 51, 0x0e5d77c4, 0x065f8486, 0xdd443413, 0xaaf85d22, 0x37b92dea, 0xf007ff28);
    NextRound(v, block, 52, 0x10e7f671, 0x0e5d77c4, 0x8197e121, 0xdd443413, 0xaaf85d22, 0x425e3674);
    NextRound(v, block, 53, 0x26c69395, 0x10e7f671, 0x03975df1, 0x8197e121, 0xdd443413, 0x059631c0);
    NextRound(v, block, 54, 0x4c608ac4, 0x26c69395, 0x4439fd9c, 0x03975df1, 0x8197e121, 0xad6c3c31);
    NextRound(v, block, 55, 0x50c9104c, 0x4c608ac4, 0x49b1a4e5, 0x4439fd9c, 0x03975df1, 0x860b71d7);
    NextRound(v, block, 56, 0x7e1242f2, 0x50c9104c, 0x131822b1, 0x49b1a4e5, 0x4439fd9c, 0x87bfc548);
    NextRound(v, block, 57, 0x6ef6fef4, 0x7e1242f2, 0x14324413, 0x131822b1, 0x49b1a4e5, 0x3e64f92d);
    NextRound(v, block, 58, 0x0c247c2e, 0x6ef6fef4, 0x9f8490bc, 0x14324413, 0x131822b1, 0x8d0ab761);
    NextRound(v, block, 59, 0xd284f163, 0x0c247c2e, 0x1bbdbfbd, 0x9f8490bc, 0x14324413, 0x34e1ee35);
    NextRound(v, block, 60, 0x4872d85a, 0xd284f163, 0x83091f0b, 0x1bbdbfbd, 0x9f8490bc, 0x0acf5108);
    NextRound(v, block, 61, 0xcd4200b8, 0x4872d85a, 0xf4a13c58, 0x83091f0b, 0x1bbdbfbd, 0xc2b479da);
    NextRound(v, block, 62, 0x90f00d8f, 0xcd4200b8, 0x921cb616, 0xf4a13c58, 0x83091f0b, 0x6c93370a);
    NextRound(v, block, 63, 0x840054d3, 0x90f00d8f, 0x3350802e, 0x921cb616, 0xf4a13c58, 0xf7935ba1);
  }

  lemma FirstRounds80(block: seq<byte>)
    requires IsFirst(block)
    ensures Rounds(Vars(0x67452301, 0xefcdab89, 0x98badcfe, 0x10325476, 0xc3d2e1f0), block, 80)
            == Vars(0xf48a5426, 0x835995e1, 0x25c11efb, 0x4a45c402, 0x9a73c2f2)
  {
    hide Rounds, Schedule, BlockWord;
    var v := Vars(0x67452301, 0xefcdab89, 0x98badcfe, 0x10325476, 0xc3d2e1f0);
    FirstRounds64(block);
    FirstWords64(block);
    NextRound(v, block, 64, 0x685e2ff6, 0x840054d3, 0xe43c0363, 0x3350802e, 0x921cb616, 0xe91c91c1);
    NextRound(v, block, 65, 0xa4cee018, 0x685e2ff6, 0xe1001534, 0xe43c0363, 0x3350802e, 0xbed165a2);
    NextRound(v, block, 66, 0xc3c2e45b, 0xa4cee018, 0x9a178bfd, 0xe1001534, 0xe43c0363, 0x4c3e4abe);
    NextRound(v, block, 67, 0x53131a40, 0xc3c2e45b, 0x2933b806, 0x9a178bfd, 0xe1001534, 0x50d96238);
    NextRound(v, block, 68, 0xcf8658ec, 0x53131a40, 0xf0f0b916, 0x2933b806, 0x9a178bfd, 0xb6587dde);
    NextRound(v, block, 69, 0x966e049a, 0xcf8658ec, 0x14c4c690, 0xf0f0b916, 0x2933b806, 0x1a2ee6e6);
    NextRound(v, block, 70, 0x07381b7e, 0x966e049a, 0x33e1963b, 0x14c4c690, 0xf0f0b916, 0x2d335896);
    NextRound(v, block, 71, 0x80d59773, 0x07381b7e, 0xa59b8126, 0x33e1963b, 0x14c4c690, 0xf3495d0b);
    NextRound(v, block, 72, 0x7e65e044, 0x80d59773, 0x81ce06df, 0xa59b8126, 0x33e1963b, 0xf30e0a1d);
    NextRound(v, block, 73, 0x628e7b47, 0x7e65e044, 0xe03565dc, 0x81ce06df, 0xa59b8126, 0x32ce5459);
    NextRound(v, block, 74, 0x143a8388, 0x628e7b47, 0x1f997811, 0xe03565dc, 0x81ce06df, 0x7165e3b8);
    NextRound(v, block, 75, 0xe20983f9, 0x143a8388, 0xd8a39ed1, 0x1f997811, 0xe03565dc, 0xab05ff94);
    NextRound(v, block, 76, 0x69cf0bca, 0xe20983f9, 0x050ea0e2, 0xd8a39ed1, 0x1f997811, 0xc5949f0b);
    NextRound(v, block, 77, 0x29171009, 0x69cf0bca, 0x788260fe, 0x050ea0e2, 0xd8a39ed1, 0xbcd84e4a);
    NextRound(v, block, 78, 0x97047bec, 0x29171009, 0x9a73c2f2, 0x788260fe, 0x050ea0e2, 0x07720392);
    NextRound(v, block, 79, 0x835995e1, 0x97047bec, 0x4a45c402, 0x9a73c2f2, 0x788260fe, 0xff3ff806);
  }

  lemma FirstCompresses(block: seq<byte>)
    requires IsFirst(block)
    ensures Compress(Vars(0x67452301, 0xefcdab89, 0x98badcfe, 0x10325476, 0xc3d2e1f0), block)
            == Vars(0x5bcf7727, 0x7327416a, 0xbe7bfbf9, 0x5a781878, 0x5e46a4e2)
  {
    hide Rounds, BlockWord;
    FirstRounds80(block);
  }

  predicate IsSecond(block: seq<byte>) {
    && |block| == 64
    && BlockWord(block, 0) == 0x00000000 && BlockWord(block, 1) == 0x00000000 && BlockWord(block, 2) == 0x00000000 && BlockWord(block, 3) == 0x00000000
    && BlockWord(block, 4) == 0x00000000 && BlockWord(block, 5) == 0x00000000 && BlockWord(block, 6) == 0x00000000 && BlockWord(block, 7) == 0x00000000
    && BlockWord(block, 8) == 0x00000000 && BlockWord(block, 9) == 0x00000000 && BlockWord(block, 10) == 0x00000000 && BlockWord(block, 11) == 0x00000000
    && BlockWord(block, 12) == 0x00000000 && BlockWord(block, 13) == 0x00000000 && BlockWord(block, 14) == 0x00000000 && BlockWord(block, 15) == 0x000001e0
  }

  lemma SecondWords0(block: seq<byte>)
    requires IsSecond(block)
    ensures Schedule(block, 0) == 0x00000000 && Schedule(block, 1) == 0x00000000 && Schedule(block, 2) == 0x00000000 && Schedule(block, 3) == 0x00000000
    ensures Schedule(block, 4) == 0x00000000 && Schedule(block, 5) == 0x00000000 && Schedule(block, 6) == 0x00000000 && Schedule(block, 7) == 0x00000000
    ensures Schedule(block, 8) == 0x00000000 && Schedule(block, 9) == 0x00000000 && Schedule(block, 10) == 0x00000000 && Schedule(block, 11) == 0x00000000
    ensures Schedule(block, 12) == 0x00000000 && Schedule(block, 13) == 0x00000000 && Schedule(block, 14) == 0x00000000 && Schedule(block, 15) == 0x000001e0
  {
    hide BlockWord;
  }

  lemma SecondWords16(block: seq<byte>)
    requires IsSecond(block)
    ensures Schedule(block, 16) == 0x00000000 && Schedule(block, 17) == 0x00000000 && Schedule(block, 18) == 0x000003c0 && Schedule(block, 19) == 0x00000000
    ensures Schedule(block, 20) == 0x00000000 && Schedule(block, 21) == 0x00000780 && Schedule(block, 22) == 0x00000000 && Schedule(block, 23) == 0x000003c0
    ensures Schedule(block, 24) == 0x00000f00 && Schedule(block, 25) == 0x00000000 && Schedule(block, 26) == 0x00000000 && Schedule(block, 27) == 0x00001e00
    ensures Schedule(block, 28) == 0x00000000 && Schedule(block, 29) == 0x00000cc0 && Schedule(block, 30) == 0x00003c00 && Schedule(block, 31) == 0x00000440
  {
    hide Schedule, BlockWord;
    SecondWords0(block);
    NextWord(block, 16, 0x00000000, 0x00000000, 0x00000000, 0x00000000);
    NextWord(block, 17, 0x00000000, 0x00000000, 0x00000000, 0x00000000);
    NextWord(block, 18, 0x000001e0, 0x00000000, 0x00000000, 0x00000000);
    NextWord(block, 19, 0x00000000, 0x00000000, 0x00000000, 0x00000000);
    NextWord(block, 20, 0x00000000, 0x00000000, 0x00000000, 0x00000000);
    NextWord(block, 21, 0x000003c0, 0x00000000, 0x00000000, 0x00000000);
    NextWord(block, 22, 0x00000000, 0x00000000, 0x00000000, 0x00000000);
    NextWord(block, 23, 0x00000000, 0x000001e0, 0x00000000, 0x00000000);
    NextWord(block, 24, 0x00000780, 0x00000000, 0x00000000, 0x00000000);
    NextWord(block, 25, 0x00000000, 0x00000000, 0x00000000, 0x00000000);
    NextWord(block, 26, 0x000003c0, 0x000003c0, 0x00000000, 0x00000000);
    NextWord(block, 27, 0x00000f00, 0x00000000, 0x00000000, 0x00000000);
    NextWord(block, 28, 0x00000000, 0x00000000, 0x00000000, 0x00000000);
    NextWord(block, 29, 0x00000000, 0x00000780, 0x000001e0, 0x00000000);
    NextWord(block, 30, 0x00001e00, 0x00000000, 0x00000000, 0x00000000);
    NextWord(block, 31, 0x00000000, 0x000003c0, 0x00000000, 0x000001e0);
  }

  lemma SecondWords32(block: seq<byte>)
    requires IsSecond(block)
    ensures Schedule(block, 32) == 0x00000000 && Schedule(block, 33) == 0x00007800 && Schedule(block, 34) == 0x00000f00 && Schedule(block, 35) == 0x00003300
    ensures Schedule(block, 36) == 0x0000f000 && Schedule(block, 37) == 0x00000f00 && Schedule(block, 38) == 0x00000000 && Schedule(block, 39) == 0x0001ef00
    ensures Schedule(block, 40) == 0x00000000 && Schedule(block, 41) == 0x0000cc00 && Schedule(block, 42) == 0x0003c000 && Schedule(block, 43) == 0x00004380
    ensures Schedule(block, 44) == 0x00000000 && Schedule(block, 45) == 0x00078f00 && Schedule(block, 46) == 0x0000ff00 && Schedule(block, 47) == 0x00032680
  {
    hide Schedule, BlockWord;
    SecondWords16(block);
    NextWord(block, 32, 0x00000cc0, 0x00000f00, 0x000003c0, 0x00000000);
    NextWord(block, 33, 0x00003c00, 0x00000000, 0x00000000, 0x00000000);
    NextWord(block, 34, 0x00000440, 0x00000000, 0x00000000, 0x000003c0);
    NextWord(block, 35, 0x00000000, 0x00001e00, 0x00000780, 0x00000000);
    NextWord(block, 36, 0x00007800, 0x00000000, 0x00000000, 0x00000000);
    NextWord(block, 37, 0x00000f00, 0x00000cc0, 0x000003c0, 0x00000780);
    NextWord(block, 38, 0x00003300, 0x00003c00, 0x00000f00, 0x00000000);
    NextWord(block, 39, 0x0000f000, 0x00000440, 0x00000000, 0x000003c0);
    NextWord(block, 40, 0x00000f00, 0x00000000, 0x00000000, 0x00000f00);
    NextWord(block, 41, 0x00000000, 0x00007800, 0x00001e00, 0x00000000);
    NextWord(block, 42, 0x0001ef00, 0x00000f00, 0x00000000, 0x00000000);
    NextWord(block, 43, 0x00000000, 0x00003300, 0x00000cc0, 0x00001e00);
    NextWord(block, 44, 0x0000cc00, 0x0000f000, 0x00003c00, 0x00000000);
    NextWord(block, 45, 0x0003c000, 0x00000f00, 0x00000440, 0x00000cc0);
    NextWord(block, 46, 0x00004380, 0x00000000, 0x00000000, 0x00003c00);
    NextWord(block, 47, 0x00000000, 0x0001ef00, 0x00007800, 0x00000440);
  }

  lemma SecondWords48(block: seq<byte>)
    requires IsSecond(block)
    ensures Schedule(block, 48) == 0x000f0000 && Schedule(block, 49) == 0x0000f000 && Schedule(block, 50) == 0x00003300 && Schedule(block, 51) == 0x001eff00
    ensures Schedule(block, 52) == 0x00000000 && Schedule(block, 53) == 0x000cb800 && Schedule(block, 54) == 0x003c0000 && Schedule(block, 55) == 0x00040b00
    ensures Schedule(block, 56) == 0x0000f000 && Schedule(block, 57) == 0x0078ff00 && Schedule(block, 58) == 0x000ff000 && Schedule(block, 59) == 0x00338700
    ensures Schedule(block, 60) == 0x00f00000 && Schedule(block, 61) == 0x000fc300 && Schedule(block, 62) == 0x0000f000 && Schedule(block, 63) == 0x01efbb00
  {
    hide Schedule, BlockWord;
    SecondWords32(block);
    NextWord(block, 48, 0x00078f00, 0x00000000, 0x00000f00, 0x00000000);
    NextWord(block, 49, 0x0000ff00, 0x0000cc00, 0x00003300, 0x00007800);
    NextWord(block, 50, 0x00032680, 0x0003c000, 0x0000f000, 0x00000f00);
    NextWord(block, 51, 0x000f0000, 0x00004380, 0x00000f00, 0x00003300);
    NextWord(block, 52, 0x0000f000, 0x00000000, 0x00000000, 0x0000f000);
    NextWord(block, 53, 0x00003300, 0x00078f00, 0x0001ef00, 0x00000f00);
    NextWord(block, 54, 0x001eff00, 0x0000ff00, 0x00000000, 0x00000000);
    NextWord(block, 55, 0x00000000, 0x00032680, 0x0000cc00, 0x0001ef00);
    NextWord(block, 56, 0x000cb800, 0x000f0000, 0x0003c000, 0x00000000);
    NextWord(block, 57, 0x003c0000, 0x0000f000, 0x00004380, 0x0000cc00);
    NextWord(block, 58, 0x00040b00, 0x00003300, 0x00000000, 0x0003c000);
    NextWord(block, 59, 0x0000f000, 0x001eff00, 0x00078f00, 0x00004380);
    NextWord(block, 60, 0x0078ff00, 0x00000000, 0x0000ff00, 0x00000000);
    NextWord(block, 61, 0x000ff000, 0x000cb800, 0x00032680, 0x00078f00);
    NextWord(block, 62, 0x00338700, 0x003c0000, 0x000f0000, 0x0000ff00);
    NextWord(block, 63, 0x00f00000, 0x00040b00, 0x0000f000, 0x00032680);
  }

  lemma SecondWords64(block: seq<byte>)
    requires IsSecond(block)
    ensures Schedule(block, 64) == 0x00000000 && Schedule(block, 65) == 0x00cc0000 && Schedule(block, 66) == 0x03c0f000 && Schedule(block, 67) == 0x00438000
    ensures Schedule(block, 68) == 0x00000000 && Schedule(block, 69) == 0x078f0000 && Schedule(block, 70) == 0x00ff0000 && Schedule(block, 71) == 0x03269e00
    ensures Schedule(block, 72) == 0x0f000000 && Schedule(block, 73) == 0x00f0f000 && Schedule(block, 74) == 0x00333c00 && Schedule(block, 75) == 0x1eff8800
    ensures Schedule(block, 76) == 0x00000000 && Schedule(block, 77) == 0x0cb88800 && Schedule(block, 78) == 0x3c00f000 && Schedule(block, 79) == 0x040a4a00
  {
    hide Schedule, BlockWord;
    SecondWords48(block);
    NextWord(block, 64, 0x000fc300, 0x0000f000, 0x00003300, 0x000f0000);
    NextWord(block, 65, 0x0000f000, 0x0078ff00, 0x001eff00, 0x0000f000);
    NextWord(block, 66, 0x01efbb00, 0x000ff000, 0x00000000, 0x00003300);
    NextWord(block, 67, 0x00000000, 0x00338700, 0x000cb800, 0x001eff00);
    NextWord(block, 68, 0x00cc0000, 0x00f00000, 0x003c0000, 0x00000000);
    NextWord(block, 69, 0x03c0f000, 0x000fc300, 0x00040b00, 0x000cb800);
    NextWord(block, 70, 0x00438000, 0x0000f000, 0x0000f000, 0x003c0000);
    NextWord(block, 71, 0x00000000, 0x01efbb00, 0x0078ff00, 0x00040b00);
    NextWord(block, 72, 0x078f0000, 0x00000000, 0x000ff000, 0x0000f000);
    NextWord(block, 73, 0x00ff0000, 0x00cc0000, 0x00338700, 0x0078ff00);
    NextWord(block, 74, 0x03269e00, 0x03c0f000, 0x00f00000, 0x000ff000);
    NextWord(block, 75, 0x0f000000, 0x00438000, 0x000fc300, 0x00338700);
    NextWord(block, 76, 0x00f0f000, 0x00000000, 0x0000f000, 0x00f00000);
    NextWord(block, 77, 0x00333c00, 0x078f0000, 0x01efbb00, 0x000fc300);
    NextWord(block, 78, 0x1eff8800, 0x00ff0000, 0x00000000, 0x0000f000);
    NextWord(block, 79, 0x00000000, 0x03269e00, 0x00cc0000, 0x01efbb00);
  }

  lemma SecondRounds16(block: seq<byte>)
    requires IsSecond(block)
    ensures Rounds(Vars(0x5bcf7727, 0x7327416a, 0xbe7bfbf9, 0x5a781878, 0x5e46a4e2), block, 16)
            == Vars(0x986df268, 0x990b7be7, 0xab50fce7, 0x195db4b7, 0x4941806b)
  {
    hide Rounds, Schedule, BlockWord;
    var v := Vars(0x5bcf7727, 0x7327416a, 0xbe7bfbf9, 0x5a781878, 0x5e46a4e2);
    NoRounds(v, block);
    SecondWords0(block);
    NextRound(v, block, 0, 0x5bcf7727, 0x7327416a, 0xbe7bfbf9, 0x5a781878, 0x5e46a4e2, 0x00000000);
    NextRound(v, block, 1, 0x6d335cde, 0x5bcf7727, 0x9cc9d05a, 0xbe7bfbf9, 0x5a781878, 0x00000000);
    NextRound(v, block, 2, 0x186006b8, 0x6d335cde, 0xd6f3ddc9, 0x9cc9d05a, 0xbe7bfbf9, 0x00000000);
    NextRound(v, block, 3, 0xf9fb295d, 0x186006b8, 0x9b4cd737, 0xd6f3ddc9, 0x9cc9d05a, 0x00000000);
    NextRound(v, block, 4, 0x15855523, 0xf9fb295d, 0x061801ae, 0x9b4cd737, 0xd6f3ddc9, 0x00000000);
    NextRound(v, block, 5, 0xe43dd2f2, 0x15855523, 0x7e7eca57, 0x061801ae, 0x9b4cd737, 0x00000000);
    NextRound(v, block, 6, 0x93a5efbb, 0xe43dd2f2, 0xc5615548, 0x7e7eca57, 0x061801ae, 0x00000000);
    NextRound(v, block, 7, 0xb3bbcafe, 0x93a5efbb, 0xb90f74bc, 0xc5615548, 0x7e7eca57, 0x00000000);
    NextRound(v, block, 8, 0x25c018be, 0xb3bbcafe, 0xe4e97bee, 0xb90f74bc, 0xc5615548, 0x00000000);
    NextRound(v, block, 9, 0x80946593, 0x25c018be, 0xaceef2bf, 0xe4e97bee, 0xb90f74bc, 0x00000000);
    NextRound(v, block, 10, 0x0b0814c3, 0x80946593, 0x8970062f, 0xaceef2bf, 0xe4e97bee, 0x00000000);
    NextRound(v, block, 11, 0x4ce92417, 0x0b0814c3, 0xe0251964, 0x8970062f, 0xaceef2bf, 0x00000000);
    NextRound(v, block, 12, 0x250601ad, 0x4ce92417, 0xc2c20530, 0xe0251964, 0x8970062f, 0x00000000);
    NextRound(v, block, 13, 0x6576d2dc, 0x250601ad, 0xd33a4905, 0xc2c20530, 0xe0251964, 0x00000000);
    NextRound(v, block, 14, 0xad43f39e, 0x6576d2dc, 0x4941806b, 0xd33a4905, 0xc2c20530, 0x00000000);
    NextRound(v, block, 15, 0x990b7be7, 0xad43f39e, 0x195db4b7, 0x4941806b, 0xd33a4905, 0x000001e0);
  }

  lemma SecondRounds32(block: seq<byte>)
    requires IsSecond(block)
    ensures Rounds(Vars(0x5bcf7727, 0x7327416a, 0xbe7bfbf9, 0x5a781878, 0x5e46a4e2), block, 32)
            == Vars(0x3cf6eb58, 0xf4ddd7b7, 0xc90fb815, 0xbd5f2d4f, 0xe4c9f7db)
  {
    hide Rounds, Schedule, BlockWord;
    var v := Vars(0x5bcf7727, 0x7327416a, 0xbe7bfbf9, 0x5a781878, 0x5e46a4e2);
    SecondRounds16(block);
    SecondWords16(block);
    NextRound(v, block, 16, 0x986df268, 0x990b7be7, 0xab50fce7, 0x195db4b7, 0x4941806b, 0x00000000);
    NextRound(v, block, 17, 0x3ad7440e, 0x986df268, 0xe642def9, 0xab50fce7, 0x195db4b7, 0x00000000);
    NextRound(v, block, 18, 0x72198f06, 0x3ad7440e, 0x261b7c9a, 0xe642def9, 0xab50fce7, 0x000003c0);
    NextRound(v, block, 19, 0x2f193a09, 0x72198f06, 0x8eb5d103, 0x261b7c9a, 0xe642def9, 0x00000000);
    NextRound(v, block, 20, 0x2a008b51, 0x2f193a09, 0x9c8663c1, 0x8eb5d103, 0x261b7c9a, 0x00000000);
    NextRound(v, block, 21, 0x12315b2b, 0x2a008b51, 0x4bc64e82, 0x9c8663c1, 0x8eb5d103, 0x00000780);
    NextRound(v, block, 22, 0x40fbcf98, 0x12315b2b, 0x4a8022d4, 0x4bc64e82, 0x9c8663c1, 0x00000000);
    NextRound(v, block, 23, 0x3e5179e7, 0x40fbcf98, 0xc48c56ca, 0x4a8022d4, 0x4bc64e82, 0x000003c0);
    NextRound(v, block, 24, 0x53c73650, 0x3e5179e7, 0x103ef3e6, 0xc48c56ca, 0x4a8022d4, 0x00000f00);
    NextRound(v, block, 25, 0x1d24c44a, 0x53c73650, 0xcf945e79, 0x103ef3e6, 0xc48c56ca, 0x00000000);
    NextRound(v, block, 26, 0x646c677d, 0x1d24c44a, 0x14f1cd94, 0xcf945e79, 0x103ef3e6, 0x00000000);
    NextRound(v, block, 27, 0xd2e726da, 0x646c677d, 0x87493112, 0x14f1cd94, 0xcf945e79, 0x00001e00);
    NextRound(v, block, 28, 0x9327df6f, 0xd2e726da, 0x591b19df, 0x87493112, 0x14f1cd94, 0x00000000);
    NextRound(v, block, 29, 0xf57cb53e, 0x9327df6f, 0xb4b9c9b6, 0x591b19df, 0x87493112, 0x00000cc0);
    NextRound(v, block, 30, 0x243ee057, 0xf57cb53e, 0xe4c9f7db, 0xb4b9c9b6, 0x591b19df, 0x00003c00);
    NextRound(v, block, 31, 0xf4ddd7b7, 0x243ee057, 0xbd5f2d4f, 0xe4c9f7db, 0xb4b9c9b6, 0x00000440);
  }

  lemma SecondRounds48(block: seq<byte>)
    requires IsSecond(block)
    ensures Rounds(Vars(0x5bcf7727, 0x7327416a, 0xbe7bfbf9, 0x5a781878, 0x5e46a4e2), block, 48)
            == Vars(0xa3ef857e, 0xc8cda3da, 0xcef6480e, 0xff1ef4d7, 0xc7a4d2b3)
  {
    hide Rounds, Schedule, BlockWord;
    var v := Vars(0x5bcf7727, 0x7327416a, 0xbe7bfbf9, 0x5a781878, 0x5e46a4e2);
    SecondRounds32(block);
    SecondWords32(block);
    NextRound(v, block, 32, 0x3cf6eb58, 0xf4ddd7b7, 0xc90fb815, 0xbd5f2d4f, 0xe4c9f7db, 0x00000000);
    NextRound(v, block, 33, 0x730e9170, 0x3cf6eb58, 0xfd3775ed, 0xc90fb815, 0xbd5f2d4f, 0x00007800);
    NextRound(v, block, 34, 0x96d9e59e, 0x730e9170, 0x0f3dbad6, 0xfd3775ed, 0xc90fb815, 0x00000f00);
    NextRound(v, block, 35, 0x942ac4d3, 0x96d9e59e, 0x1cc3a45c, 0x0f3dbad6, 0xfd3775ed, 0x00003300);
    NextRound(v, block, 36, 0x76922a14, 0x942ac4d3, 0xa5b67967, 0x1cc3a45c, 0x0f3dbad6, 0x0000f000);
    NextRound(v, block, 37, 0x7dbcf2ed, 0x76922a14, 0xe50ab134, 0xa5b67967, 0x1cc3a45c, 0x00000f00);
    NextRound(v, block, 38, 0x796adef3, 0x7dbcf2ed, 0x1da48a85, 0xe50ab134, 0xa5b67967, 0x00000000);
    NextRound(v, block, 39, 0xc6ff0cd3, 0x796adef3, 0x5f6f3cbb, 0x1da48a85, 0xe50ab134, 0x0001ef00);
    NextRound(v, block, 40, 0x6f698f1a, 0xc6ff0cd3, 0xde5ab7bc, 0x5f6f3cbb, 0x1da48a85, 0x00000000);
    NextRound(v, block, 41, 0x78716769, 0x6f698f1a, 0xf1bfc334, 0xde5ab7bc, 0x5f6f3cbb, 0x0000cc00);
    NextRound(v, block, 42, 0xfc343a02, 0x78716769, 0x9bda63c6, 0xf1bfc334, 0xde5ab7bc, 0x0003c000);
    NextRound(v, block, 43, 0xedfcd85b, 0xfc343a02, 0x5e1c59da, 0x9bda63c6, 0xf1bfc334, 0x00004380);
    NextRound(v, block, 44, 0x1e934acf, 0xedfcd85b, 0xbf0d0e80, 0x5e1c59da, 0x9bda63c6, 0x00000000);
    NextRound(v, block, 45, 0xfc7bd35f, 0x1e934acf, 0xfb7f3616, 0xbf0d0e80, 0x5e1c59da, 0x00078f00);
    NextRound(v, block, 46, 0x3bd9203b, 0xfc7bd35f, 0xc7a4d2b3, 0xfb7f3616, 0xbf0d0e80, 0x0000ff00);
    NextRound(v, block, 47, 0xc8cda3da, 0x3bd9203b, 0xff1ef4d7, 0xc7a4d2b3, 0xfb7f3616, 0x00032680);
  }

  lemma SecondRounds64(block: seq<byte>)
    requires IsSecond(block)
    ensures Rounds(Vars(0x5bcf7727, 0x7327416a, 0xbe7bfbf9, 0x5a781878, 0x5e46a4e2), block, 64)
            == Vars(0xa5937450, 0xd5ef1ed7, 0xc444cbe3, 0xddd22788, 0x558467c6)
  {
    hide Rounds, Schedule, BlockWord;
    var v := Vars(0x5bcf7727, 0x7327416a, 0xbe7bfbf9, 0x5a781878, 0x5e46a4e2);
    SecondRounds48(block);
    SecondWords48(block);
    NextRound(v, block, 48, 0xa3ef857e, 0xc8cda3da, 0xcef6480e, 0xff1ef4d7, 0xc7a4d2b3, 0x000f0000);
    NextRound(v, block, 49, 0xa39f2041, 0xa3ef857e, 0xb23368f6, 0xcef6480e, 0xff1ef4d7, 0x0000f000);
    NextRound(v, block, 50, 0xa516f265, 0xa39f2041, 0xa8fbe15f, 0xb23368f6, 0xcef6480e, 0x00003300);
    NextRound(v, block, 51, 0xa3abe4f5, 0xa516f265, 0x68e7c810, 0xa8fbe15f, 0xb23368f6, 0x001eff00);
    NextRound(v, block, 52, 0x5fe2a3db, 0xa3abe4f5, 0x6945bc99, 0x68e7c810, 0xa8fbe15f, 0x00000000);
    NextRound(v, block, 53, 0x9e540637, 0x5fe2a3db, 0x68eaf93d, 0x6945bc99, 0x68e7c810, 0x000cb800);
    NextRound(v, block, 54, 0x2c73bd78, 0x9e540637, 0xd7f8a8f6, 0x68eaf93d, 0x6945bc99, 0x003c0000);
    NextRound(v, block, 55, 0x660dd0b1, 0x2c73bd78, 0xe795018d, 0xd7f8a8f6, 0x68eaf93d, 0x00040b00);
    NextRound(v, block, 56, 0xa1b68141, 0x660dd0b1, 0x0b1cef5e, 0xe795018d, 0xd7f8a8f6, 0x0000f000);
    NextRound(v, block, 57, 0x05033fa3, 0xa1b68141, 0x5983742c, 0x0b1cef5e, 0xe795018d, 0x0078ff00);
    NextRound(v, block, 58, 0x21289715, 0x05033fa3, 0x686da050, 0x5983742c, 0x0b1cef5e, 0x000ff000);
    NextRound(v, block, 59, 0x085eb2fe, 0x21289715, 0xc140cfe8, 0x686da050, 0x5983742c, 0x00338700);
    NextRound(v, block, 60, 0x56119f19, 0x085eb2fe, 0x484a25c5, 0xc140cfe8, 0x686da050, 0x00f00000);
    NextRound(v, block, 61, 0x77489e23, 0x56119f19, 0x8217acbf, 0x484a25c5, 0xc140cfe8, 0x000fc300);
    NextRound(v, block, 62, 0x11132f8f, 0x77489e23, 0x558467c6, 0x8217acbf, 0x484a25c5, 0x0000f000);
    NextRound(v, block, 63, 0xd5ef1ed7, 0x11132f8f, 0xddd22788, 0x558467c6, 0x8217acbf, 0x01efbb00);
  }

  lemma SecondRounds80(block: seq<byte>)
    requires IsSecond(block)
    ensures Rounds(Vars(0x5bcf7727, 0x7327416a, 0xbe7bfbf9, 0x5a781878, 0x5e46a4e2), block, 80)
            == Vars(0x57aad805, 0x4d3b0dac, 0xd27a4a0d, 0x74c040cd, 0x54782008)
  {
    hide Rounds, Schedule, BlockWord;
    var v := Vars(0x5bcf7727, 0x7327416a, 0xbe7bfbf9, 0x5a781878, 0x5e46a4e2);
    SecondRounds64(block);
    SecondWords64(block);
    NextRound(v, block, 64, 0xa5937450, 0xd5ef1ed7, 0xc444cbe3, 0xddd22788, 0x558467c6, 0x00000000);
    NextRound(v, block, 65, 0x9ecfa66c, 0xa5937450, 0xf57bc7b5, 0xc444cbe3, 0xddd22788, 0x00cc0000);
    NextRound(v, block, 66, 0x17a22ef7, 0x9ecfa66c, 0x2964dd14, 0xf57bc7b5, 0xc444cbe3, 0x03c0f000);
    NextRound(v, block, 67, 0xc97f1968, 0x17a22ef7, 0x27b3e99b, 0x2964dd14, 0xf57bc7b5, 0x00438000);
    NextRound(v, block, 68, 0x097a511c, 0xc97f1968, 0xc5e88bbd, 0x27b3e99b, 0x2964dd14, 0x00000000);
    NextRound(v, block, 69, 0x4e363db9, 0x097a511c, 0x325fc65a, 0xc5e88bbd, 0x27b3e99b, 0x078f0000);
    NextRound(v, block, 70, 0xbf3a7f95, 0x4e363db9, 0x025e9447, 0x325fc65a, 0xc5e88bbd, 0x00ff0000);
    NextRound(v, block, 71, 0xf6d1afee, 0xbf3a7f95, 0x538d8f6e, 0x025e9447, 0x325fc65a, 0x03269e00);
    NextRound(v, block, 72, 0xc90888ca, 0xf6d1afee, 0x6fce9fe5, 0x538d8f6e, 0x025e9447, 0x0f000000);
    NextRound(v, block, 73, 0xc7652edb, 0xc90888ca, 0xbdb46bfb, 0x6fce9fe5, 0x538d8f6e, 0x00f0f000);
    NextRound(v, block, 74, 0x26f99990, 0xc7652edb, 0xb2422232, 0xbdb46bfb, 0x6fce9fe5, 0x00333c00);
    NextRound(v, block, 75, 0xe22b36d1, 0x26f99990, 0xf1d94bb6, 0xb2422232, 0xbdb46bfb, 0x1eff8800);
    NextRound(v, block, 76, 0x51e08021, 0xe22b36d1, 0x09be6664, 0xf1d94bb6, 0xb2422232, 0x00000000);
    NextRound(v, block, 77, 0xd3010335, 0x51e08021, 0x788acdb4, 0x09be6664, 0xf1d94bb6, 0x0cb88800);
    NextRound(v, block, 78, 0x49e92837, 0xd3010335, 0x54782008, 0x788acdb4, 0x09be6664, 0x3c00f000);
    NextRound(v, block, 79, 0x4d3b0dac, 0x49e92837, 0x74c040cd, 0x54782008, 0x788acdb4, 0x040a4a00);
  }

  lemma SecondCompresses(block: seq<byte>)
    requires IsSecond(block)
    ensures Compress(Vars(0x5bcf7727, 0x7327416a, 0xbe7bfbf9, 0x5a781878, 0x5e46a4e2), block)
            == Vars(0xb37a4f2c, 0xc0624f16, 0x90f64606, 0xcf385945, 0xb2bec4ea)
  {
    hide Rounds, BlockWord;
    SecondRounds80(block);
  }

  lemma NoRounds(v: Vars, block: seq<byte>)
    requires |block| == 64
    ensures Rounds(v, block, 0) == v
  {
  }

  /** Where the padding puts what. */
  lemma PaddingAt(n: nat, i: nat)
    requires 8 * n < 0x1_0000 && i < |Padding(n)|
    ensures var s := Padding(n);
            s[i] == if i == 0 then 0x80 else if i == |s| - 2 then ByteOf(8 * n / 256) else if i == |s| - 1 then ByteOf(8 * n % 256) else 0
    ensures |Padding(n)| == 1 + Gap(n) + 8
  {
    hide ByteOf;
    var b := 8 * n;
    assert b / 256 / 256 == 0;
    assert ToBigEndian(b, 8) == ToBigEndian(b / 256, 7) + [ByteOf(b % 256)];
    assert ToBigEndian(b / 256, 7) == ToBigEndian(0, 6) + [ByteOf(b / 256 % 256)];
    LeadingZeros(6);
  }

  lemma {:induction false} LeadingZeros(width: nat)
    ensures ToBigEndian(0, width) == Zeros(width)
  {
    if width > 0 {
      LeadingZeros(width - 1);
      assert Zeros(width) == Zeros(width - 1) + [0];
    }
  }

  lemma OneBlock(v: Vars, block: seq<byte>)
    requires |block| == 64
    ensures Absorb(v, block) == Compress(v, block)
  {
    assert block[..64] == block && block[64..] == [];
  }

  lemma AbcBlock()
    ensures var block := [0x61, 0x62, 0x63] + Padding(3); IsAbc(block)
  {
    hide ByteOf, Padding;
    var block: seq<byte> := [0x61, 0x62, 0x63] + Padding(3);
    PaddingAt(3, 0);
    assert |Padding(3)| == 61;
    forall i | 3 <= i < 64
      ensures block[i] == if i == 3 then 0x80 else if i == 62 then ByteOf(0) else if i == 63 then ByteOf(24) else 0
    {
      PaddingAt(3, i - 3);
    }
    TwentyFour();
  }

  lemma TwentyFour()
    ensures ByteOf(0) == 0 && ByteOf(24) == 24
  {
  }

  /** The example of FIPS 180. */
  lemma DigestOfAbc()
    ensures Digest([0x61, 0x62, 0x63])
            == [0xa9, 0x99, 0x3e, 0x36, 0x47, 0x06, 0x81, 0x6a, 0xba, 0x3e,
                0x25, 0x71, 0x78, 0x50, 0xc2, 0x6c, 0x9c, 0xd0, 0xd8, 0x9d]
  {
    hide Padding, Rounds, BlockWord;
    var block: seq<byte> := [0x61, 0x62, 0x63] + Padding(3);
    AbcBlock();
    OneBlock(INITIAL, block);
    AbcCompresses(block);
  }
}
