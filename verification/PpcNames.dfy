/**
 The mnemonics and register names of the debugger's tables: no two opcodes have the same mnemonic,
 and the names are such as the disassembler prints and the assembler reads.
 */
module PpcNames {
  import opened Text
  import opened Disassembler
  import opened RoundTrip
  import opened PpcTables

  // ---------------------------------------------------------------------------------
  // Mnemonics

  function Letter(name: string, i: nat): nat
  {
    if i < |name| then name[i] as nat else 0
  }

  /** A number that tells the mnemonics of the table apart. */
  function Key(name: string): nat
  {
    15 * Letter(name, 0) + 5 * Letter(name, 1) + 17 * Letter(name, 2) + 12 * Letter(name, 3)
    + 13 * Letter(name, 4) + 9 * Letter(name, 5) + 26 * Letter(name, 6) + 2 * Letter(name, 7)
  }

  function KeyIndex0(k: nat): nat
  {
    if k == 1470 then 14 else if k == 1955 then 16 else if k == 1965 then 9 else if k == 2010 then 15
    else if k == 2220 then 13 else if k == 2235 then 124 else if k == 2335 then 46 else if k == 3017 then 125
    else if k == 3614 then 11 else if k == 3655 then 103 else if k == 3659 then 17 else if k == 3705 then 60
    else if k == 3789 then 200 else if k == 3801 then 10 else if k == 3906 then 74 else 206
  }

  function KeyIndex1(k: nat): nat
  {
    if k == 3918 then 120 else if k == 3934 then 45 else if k == 3971 then 196 else if k == 4005 then 22
    else if k == 4020 then 39 else if k == 4073 then 202 else if k == 4086 then 107 else if k == 4120 then 0
    else if k == 4143 then 77 else if k == 4184 then 192 else if k == 4188 then 204 else if k == 4207 then 104
    else if k == 4214 then 198 else if k == 4257 then 61 else if k == 4288 then 56 else 206
  }

  function KeyIndex2(k: nat): nat
  {
    if k == 4289 then 190 else if k == 4293 then 112 else if k == 4318 then 141 else if k == 4328 then 194
    else if k == 4458 then 75 else if k == 4470 then 121 else if k == 4638 then 108 else if k == 4695 then 78
    else if k == 4840 then 57 else if k == 4843 then 49 else if k == 4845 then 113 else if k == 4867 then 81
    else if k == 4870 then 142 else if k == 4885 then 72 else if k == 4893 then 67 else 206
  }

  function KeyIndex3(k: nat): nat
  {
    if k == 4915 then 7 else if k == 4921 then 129 else if k == 4965 then 12 else if k == 4987 then 169
    else if k == 4996 then 185 else if k == 5053 then 105 else if k == 5125 then 189 else if k == 5169 then 19
    else if k == 5193 then 201 else if k == 5194 then 4 else if k == 5196 then 53 else if k == 5200 then 63
    else if k == 5205 then 130 else if k == 5229 then 115 else if k == 5230 then 62 else 206
  }

  function KeyIndex4(k: nat): nat
  {
    if k == 5238 then 149 else if k == 5292 then 18 else if k == 5293 then 117 else if k == 5310 then 30
    else if k == 5372 then 172 else if k == 5375 then 197 else if k == 5388 then 148 else if k == 5400 then 40
    else if k == 5411 then 93 else if k == 5441 then 50 else if k == 5459 then 132 else if k == 5465 then 82
    else if k == 5468 then 146 else if k == 5477 then 203 else if k == 5478 then 147 else 206
  }

  function KeyIndex5(k: nat): nat
  {
    if k == 5491 then 68 else if k == 5513 then 119 else if k == 5538 then 92 else if k == 5553 then 41
    else if k == 5563 then 43 else if k == 5585 then 170 else if k == 5586 then 205 else if k == 5588 then 193
    else if k == 5618 then 199 else if k == 5624 then 73 else if k == 5654 then 106 else if k == 5658 then 139
    else if k == 5693 then 191 else if k == 5729 then 55 else if k == 5732 then 195 else 206
  }

  function KeyIndex6(k: nat): nat
  {
    if k == 5768 then 86 else if k == 5798 then 64 else if k == 5803 then 131 else if k == 5836 then 150
    else if k == 5970 then 173 else if k == 6057 then 133 else if k == 6202 then 5 else if k == 6276 then 96
    else if k == 6286 then 137 else if k == 6310 then 153 else if k == 6324 then 27 else if k == 6410 then 8
    else if k == 6432 then 90 else if k == 6460 then 176 else if k == 6467 then 116 else 206
  }

  function KeyIndex7(k: nat): nat
  {
    if k == 6487 then 47 else if k == 6513 then 79 else if k == 6519 then 109 else if k == 6522 then 31
    else if k == 6542 then 184 else if k == 6549 then 65 else if k == 6573 then 20 else if k == 6592 then 83
    else if k == 6595 then 3 else if k == 6597 then 29 else if k == 6607 then 188 else if k == 6616 then 6
    else if k == 6643 then 143 else if k == 6662 then 28 else if k == 6690 then 97 else 206
  }

  function KeyIndex8(k: nat): nat
  {
    if k == 6700 then 138 else if k == 6717 then 1 else if k == 6724 then 154 else if k == 6734 then 171
    else if k == 6737 then 174 else if k == 6739 then 21 else if k == 6741 then 180 else if k == 6753 then 118
    else if k == 6783 then 110 else if k == 6792 then 54 else if k == 6809 then 140 else if k == 6814 then 24
    else if k == 6819 then 178 else if k == 6846 then 91 else if k == 6851 then 69 else 206
  }

  function KeyIndex9(k: nat): nat
  {
    if k == 6860 then 71 else if k == 6874 then 44 else if k == 6885 then 122 else if k == 6899 then 98
    else if k == 6901 then 48 else if k == 6902 then 186 else if k == 6909 then 25 else if k == 6926 then 114
    else if k == 6927 then 80 else if k == 6930 then 84 else if k == 6935 then 102 else if k == 6980 then 126
    else if k == 6990 then 134 else if k == 6996 then 128 else if k == 7010 then 37 else 206
  }

  function KeyIndex10(k: nat): nat
  {
    if k == 7037 then 123 else if k == 7048 then 42 else if k == 7053 then 162 else if k == 7057 then 144
    else if k == 7148 then 76 else if k == 7151 then 175 else if k == 7155 then 181 else if k == 7178 then 111
    else if k == 7215 then 23 else if k == 7233 then 179 else if k == 7248 then 156 else if k == 7253 then 66
    else if k == 7265 then 70 else if k == 7275 then 165 else if k == 7292 then 87 else 206
  }

  function KeyIndex11(k: nat): nat
  {
    if k == 7313 then 99 else if k == 7316 then 187 else if k == 7394 then 127 else if k == 7419 then 26
    else if k == 7424 then 38 else if k == 7431 then 160 else if k == 7456 then 2 else if k == 7486 then 135
    else if k == 7490 then 85 else if k == 7494 then 32 else if k == 7512 then 151 else if k == 7526 then 94
    else if k == 7592 then 101 else if k == 7695 then 88 else if k == 7811 then 177 else 206
  }

  function KeyIndex12(k: nat): nat
  {
    if k == 7823 then 155 else if k == 7893 then 100 else if k == 7895 then 33 else if k == 7898 then 167
    else if k == 7904 then 51 else if k == 7944 then 35 else if k == 7960 then 58 else if k == 7979 then 182
    else if k == 8066 then 157 else if k == 8471 then 166 else if k == 8627 then 161 else if k == 8682 then 136
    else if k == 8708 then 152 else if k == 8722 then 95 else if k == 8891 then 89 else 206
  }

  function KeyIndex13(k: nat): nat
  {
    if k == 9091 then 34 else if k == 9094 then 168 else if k == 9100 then 52 else if k == 9140 then 36
    else if k == 9156 then 59 else if k == 9175 then 183 else if k == 10412 then 163 else if k == 10463 then 145
    else if k == 10504 then 164 else if k == 10581 then 158 else if k == 10673 then 159 else 206
  }

  /** The place in the table of the mnemonic with key `k`. */
  function KeyIndex(k: nat): nat
  {
    if k <= 3906 then KeyIndex0(k)
    else if k <= 4288 then KeyIndex1(k)
    else if k <= 4893 then KeyIndex2(k)
    else if k <= 5230 then KeyIndex3(k)
    else if k <= 5478 then KeyIndex4(k)
    else if k <= 5732 then KeyIndex5(k)
    else if k <= 6467 then KeyIndex6(k)
    else if k <= 6690 then KeyIndex7(k)
    else if k <= 6851 then KeyIndex8(k)
    else if k <= 7010 then KeyIndex9(k)
    else if k <= 7292 then KeyIndex10(k)
    else if k <= 7811 then KeyIndex11(k)
    else if k <= 8891 then KeyIndex12(k)
    else KeyIndex13(k)
  }

  predicate NamedRow(r: Row, i: nat)
  {
    Named(r.name, i) && (|r.name| == 8 ==> r.printed == RD_RA)
  }

  predicate NamedRows(s: seq<Row>, start: nat, end: nat)
  {
    start + |s| == end && forall k :: 0 <= k < |s| ==> NamedRow(s[k], start + k)
  }

  lemma JoinNamed(a: seq<Row>, b: seq<Row>, start: nat, middle: nat, end: nat)
    requires NamedRows(a, start, middle) && NamedRows(b, middle, end)
    ensures NamedRows(a + b, start, end)
  {
    hide NamedRow;
  }

  /** A lower-case mnemonic that fits the column, or nearly. */
  predicate Proper(name: string)
  {
    LowerWord(name) && |name| <= 8
  }

  /** A mnemonic whose place in the table is `i`. */
  predicate Named(name: string, i: nat)
  {
    Proper(name) && KeyIndex(Key(name)) == i
  }

  lemma Proper0()
    ensures Proper("twi") && Proper("mulli") && Proper("subfic") && Proper("cmpli") && Proper("cmpi")
    ensures Proper("addic") && Proper("addic.") && Proper("addi") && Proper("addis") && Proper("bc")
  {
  }

  lemma Proper1()
    ensures Proper("bcl") && Proper("bca") && Proper("bcla") && Proper("sc") && Proper("b") && Proper("bl")
    ensures Proper("ba") && Proper("bla") && Proper("mcrf") && Proper("bclr")
  {
  }

  lemma Proper2()
    ensures Proper("bclrl") && Proper("crnor") && Proper("rfi") && Proper("crandc") && Proper("isync")
    ensures Proper("crxor") && Proper("crnand") && Proper("crand") && Proper("creqv") && Proper("crorc")
  {
  }

  lemma Proper3()
    ensures Proper("cror") && Proper("bcctr") && Proper("bcctrl") && Proper("rlwimi") && Proper("rlwimi.")
    ensures Proper("rlwinm") && Proper("rlwinm.") && Proper("rlwnm") && Proper("rlwnm.") && Proper("ori")
  {
  }

  lemma Proper4()
    ensures Proper("oris") && Proper("xori") && Proper("xoris") && Proper("andi.") && Proper("andis.")
    ensures Proper("cmp") && Proper("tw") && Proper("subfc") && Proper("subfc.") && Proper("addc")
  {
  }

  lemma Proper5()
    ensures Proper("addc.") && Proper("mulhwu") && Proper("mulhwu.") && Proper("mfcr") && Proper("lwarx")
    ensures Proper("lwzx") && Proper("slw") && Proper("slw.") && Proper("cntlzw") && Proper("cntlzw.")
  {
  }

  lemma Proper6()
    ensures Proper("and") && Proper("and.") && Proper("cmpl") && Proper("subf") && Proper("subf.") && Proper("dcbst")
    ensures Proper("lwzux") && Proper("andc") && Proper("andc.") && Proper("mulhw")
  {
  }

  lemma Proper7()
    ensures Proper("mulhw.") && Proper("mfmsr") && Proper("dcbf") && Proper("lbzx") && Proper("neg") && Proper("neg.")
    ensures Proper("lbzux") && Proper("nor") && Proper("nor.") && Proper("subfe")
  {
  }

  lemma Proper8()
    ensures Proper("subfe.") && Proper("adde") && Proper("adde.") && Proper("mtcrf") && Proper("mtmsr")
    ensures Proper("stwcx.") && Proper("stwx") && Proper("stwux") && Proper("subfze") && Proper("subfze.")
  {
  }

  lemma Proper9()
    ensures Proper("addze") && Proper("addze.") && Proper("mtsr") && Proper("stbx") && Proper("subfme")
    ensures Proper("subfme.") && Proper("addme") && Proper("addme.") && Proper("mullw") && Proper("mullw.")
  {
  }

  lemma Proper10()
    ensures Proper("mtsrin") && Proper("dcbtst") && Proper("stbux") && Proper("add") && Proper("add.")
    ensures Proper("dcbt") && Proper("lhzx") && Proper("eqv") && Proper("eqv.") && Proper("tlbie")
  {
  }

  lemma Proper11()
    ensures Proper("eciwx") && Proper("lhzux") && Proper("xor") && Proper("xor.") && Proper("mfspr") && Proper("lhax")
    ensures Proper("tlbia") && Proper("mftb") && Proper("lhaux") && Proper("sthx")
  {
  }

  lemma Proper12()
    ensures Proper("orc") && Proper("orc.") && Proper("ecowx") && Proper("sthux") && Proper("or") && Proper("or.")
    ensures Proper("divwu") && Proper("divwu.") && Proper("mtspr") && Proper("dcbi")
  {
  }

  lemma Proper13()
    ensures Proper("nand") && Proper("nand.") && Proper("divw") && Proper("divw.") && Proper("mcrxr")
    ensures Proper("subfco") && Proper("subfco.") && Proper("addco") && Proper("addco.") && Proper("lswx")
  {
  }

  lemma Proper14()
    ensures Proper("lwbrx") && Proper("srw") && Proper("srw.") && Proper("subfo") && Proper("subfo.")
    ensures Proper("tlbsync") && Proper("mfsr") && Proper("lswi") && Proper("sync") && Proper("nego")
  {
  }

  lemma Proper15()
    ensures Proper("nego.") && Proper("subfeo") && Proper("subfeo.") && Proper("addeo") && Proper("addeo.")
    ensures Proper("mfsrin") && Proper("stswx") && Proper("stwbrx") && Proper("subfzeo") && Proper("subfzeo.")
  {
  }

  lemma Proper16()
    ensures Proper("addzeo") && Proper("addzeo.") && Proper("stswi") && Proper("subfmeo") && Proper("subfmeo.")
    ensures Proper("addmeo") && Proper("addmeo.") && Proper("mullwo") && Proper("mullwo.") && Proper("addo")
  {
  }

  lemma Proper17()
    ensures Proper("addo.") && Proper("lhbrx") && Proper("sraw") && Proper("sraw.") && Proper("srawi")
    ensures Proper("srawi.") && Proper("eieio") && Proper("sthbrx") && Proper("extsh") && Proper("extsh.")
  {
  }

  lemma Proper18()
    ensures Proper("extsb") && Proper("extsb.") && Proper("divwuo") && Proper("divwuo.") && Proper("tlbld")
    ensures Proper("icbi") && Proper("divwo") && Proper("divwo.") && Proper("tlbli") && Proper("dcbz")
  {
  }

  lemma Proper19()
    ensures Proper("lwz") && Proper("lwzu") && Proper("lbz") && Proper("lbzu") && Proper("stw") && Proper("stwu")
    ensures Proper("stb") && Proper("stbu") && Proper("lhz") && Proper("lhzu")
  {
  }

  lemma Proper20()
    ensures Proper("lha") && Proper("lhau") && Proper("sth") && Proper("sthu") && Proper("lmw") && Proper("stmw")
  {
  }

  lemma Keys0()
    ensures Key("twi") == 4120 && Key("mulli") == 6717 && Key("subfic") == 7456 && Key("cmpli") == 6595
    ensures Key("cmpi") == 5194 && Key("addic") == 6202 && Key("addic.") == 6616 && Key("addi") == 4915
    ensures Key("addis") == 6410 && Key("bc") == 1965
  {
  }

  lemma Keys1()
    ensures Key("bcl") == 3801 && Key("bca") == 3614 && Key("bcla") == 4965 && Key("sc") == 2220 && Key("b") == 1470
    ensures Key("bl") == 2010 && Key("ba") == 1955 && Key("bla") == 3659 && Key("mcrf") == 5292 && Key("bclr") == 5169
  {
  }

  lemma Keys2()
    ensures Key("bclrl") == 6573 && Key("crnor") == 6739 && Key("rfi") == 4005 && Key("crandc") == 7215
    ensures Key("isync") == 6814 && Key("crxor") == 6909 && Key("crnand") == 7419 && Key("crand") == 6324
    ensures Key("creqv") == 6662 && Key("crorc") == 6597
  {
  }

  lemma Keys3()
    ensures Key("cror") == 5310 && Key("bcctr") == 6522 && Key("bcctrl") == 7494 && Key("rlwimi") == 7895
    ensures Key("rlwimi.") == 9091 && Key("rlwinm") == 7944 && Key("rlwinm.") == 9140 && Key("rlwnm") == 7010
    ensures Key("rlwnm.") == 7424 && Key("ori") == 4020
  {
  }

  lemma Keys4()
    ensures Key("oris") == 5400 && Key("xori") == 5553 && Key("xoris") == 7048 && Key("andi.") == 5563
    ensures Key("andis.") == 6874 && Key("cmp") == 3934 && Key("tw") == 2335 && Key("subfc") == 6487
    ensures Key("subfc.") == 6901 && Key("addc") == 4843
  {
  }

  lemma Keys5()
    ensures Key("addc.") == 5441 && Key("mulhwu") == 7904 && Key("mulhwu.") == 9100 && Key("mfcr") == 5196
    ensures Key("lwarx") == 6792 && Key("lwzx") == 5729 && Key("slw") == 4288 && Key("slw.") == 4840
    ensures Key("cntlzw") == 7960 && Key("cntlzw.") == 9156
  {
  }

  lemma Keys6()
    ensures Key("and") == 3705 && Key("and.") == 4257 && Key("cmpl") == 5230 && Key("subf") == 5200
    ensures Key("subf.") == 5798 && Key("dcbst") == 6549 && Key("lwzux") == 7253 && Key("andc") == 4893
    ensures Key("andc.") == 5491 && Key("mulhw") == 6851
  {
  }

  lemma Keys7()
    ensures Key("mulhw.") == 7265 && Key("mfmsr") == 6860 && Key("dcbf") == 4885 && Key("lbzx") == 5624
    ensures Key("neg") == 3906 && Key("neg.") == 4458 && Key("lbzux") == 7148 && Key("nor") == 4143
    ensures Key("nor.") == 4695 && Key("subfe") == 6513
  {
  }

  lemma Keys8()
    ensures Key("subfe.") == 6927 && Key("adde") == 4867 && Key("adde.") == 5465 && Key("mtcrf") == 6592
    ensures Key("mtmsr") == 6930 && Key("stwcx.") == 7490 && Key("stwx") == 5768 && Key("stwux") == 7292
    ensures Key("subfze") == 7695 && Key("subfze.") == 8891
  {
  }

  lemma Keys9()
    ensures Key("addze") == 6432 && Key("addze.") == 6846 && Key("mtsr") == 5538 && Key("stbx") == 5411
    ensures Key("subfme") == 7526 && Key("subfme.") == 8722 && Key("addme") == 6276 && Key("addme.") == 6690
    ensures Key("mullw") == 6899 && Key("mullw.") == 7313
  {
  }

  lemma Keys10()
    ensures Key("mtsrin") == 7893 && Key("dcbtst") == 7592 && Key("stbux") == 6935 && Key("add") == 3655
    ensures Key("add.") == 4207 && Key("dcbt") == 5053 && Key("lhzx") == 5654 && Key("eqv") == 4086
    ensures Key("eqv.") == 4638 && Key("tlbie") == 6519
  {
  }

  lemma Keys11()
    ensures Key("eciwx") == 6783 && Key("lhzux") == 7178 && Key("xor") == 4293 && Key("xor.") == 4845
    ensures Key("mfspr") == 6926 && Key("lhax") == 5229 && Key("tlbia") == 6467 && Key("mftb") == 5293
    ensures Key("lhaux") == 6753 && Key("sthx") == 5513
  {
  }

  lemma Keys12()
    ensures Key("orc") == 3918 && Key("orc.") == 4470 && Key("ecowx") == 6885 && Key("sthux") == 7037
    ensures Key("or") == 2235 && Key("or.") == 3017 && Key("divwu") == 6980 && Key("divwu.") == 7394
    ensures Key("mtspr") == 6996 && Key("dcbi") == 4921
  {
  }

  lemma Keys13()
    ensures Key("nand") == 5205 && Key("nand.") == 5803 && Key("divw") == 5459 && Key("divw.") == 6057
    ensures Key("mcrxr") == 6990 && Key("subfco") == 7486 && Key("subfco.") == 8682 && Key("addco") == 6286
    ensures Key("addco.") == 6700 && Key("lswx") == 5658
  {
  }

  lemma Keys14()
    ensures Key("lwbrx") == 6809 && Key("srw") == 4318 && Key("srw.") == 4870 && Key("subfo") == 6643
    ensures Key("subfo.") == 7057 && Key("tlbsync") == 10463 && Key("mfsr") == 5468 && Key("lswi") == 5478
    ensures Key("sync") == 5388 && Key("nego") == 5238
  {
  }

  lemma Keys15()
    ensures Key("nego.") == 5836 && Key("subfeo") == 7512 && Key("subfeo.") == 8708 && Key("addeo") == 6310
    ensures Key("addeo.") == 6724 && Key("mfsrin") == 7823 && Key("stswx") == 7248 && Key("stwbrx") == 8066
    ensures Key("subfzeo") == 10581 && Key("subfzeo.") == 10673
  {
  }

  lemma Keys16()
    ensures Key("addzeo") == 7431 && Key("addzeo.") == 8627 && Key("stswi") == 7053 && Key("subfmeo") == 10412
    ensures Key("subfmeo.") == 10504 && Key("addmeo") == 7275 && Key("addmeo.") == 8471 && Key("mullwo") == 7898
    ensures Key("mullwo.") == 9094 && Key("addo") == 4987
  {
  }

  lemma Keys17()
    ensures Key("addo.") == 5585 && Key("lhbrx") == 6734 && Key("sraw") == 5372 && Key("sraw.") == 5970
    ensures Key("srawi") == 6737 && Key("srawi.") == 7151 && Key("eieio") == 6460 && Key("sthbrx") == 7811
    ensures Key("extsh") == 6819 && Key("extsh.") == 7233
  {
  }

  lemma Keys18()
    ensures Key("extsb") == 6741 && Key("extsb.") == 7155 && Key("divwuo") == 7979 && Key("divwuo.") == 9175
    ensures Key("tlbld") == 6542 && Key("icbi") == 4996 && Key("divwo") == 6902 && Key("divwo.") == 7316
    ensures Key("tlbli") == 6607 && Key("dcbz") == 5125
  {
  }

  lemma Keys19()
    ensures Key("lwz") == 4289 && Key("lwzu") == 5693 && Key("lbz") == 4184 && Key("lbzu") == 5588
    ensures Key("stw") == 4328 && Key("stwu") == 5732 && Key("stb") == 3971 && Key("stbu") == 5375
    ensures Key("lhz") == 4214 && Key("lhzu") == 5618
  {
  }

  lemma Keys20()
    ensures Key("lha") == 3789 && Key("lhau") == 5193 && Key("sth") == 4073 && Key("sthu") == 5477
    ensures Key("lmw") == 4188 && Key("stmw") == 5586
  {
  }

  lemma NamedBlock0()
    ensures NamedRows(BLOCK0, 0, 10)
  {
    hide Key, Proper;
    Proper0();
    Keys0();
  }

  lemma NamedBlock1()
    ensures NamedRows(BLOCK1, 10, 20)
  {
    hide Key, Proper;
    Proper1();
    Keys1();
  }

  lemma NamedBlock2()
    ensures NamedRows(BLOCK2, 20, 30)
  {
    hide Key, Proper;
    Proper2();
    Keys2();
  }

  lemma NamedBlock3()
    ensures NamedRows(BLOCK3, 30, 40)
  {
    hide Key, Proper;
    Proper3();
    Keys3();
  }

  lemma NamedBlock4()
    ensures NamedRows(BLOCK4, 40, 50)
  {
    hide Key, Proper;
    Proper4();
    Keys4();
  }

  lemma NamedBlock5()
    ensures NamedRows(BLOCK5, 50, 60)
  {
    hide Key, Proper;
    Proper5();
    Keys5();
  }

  lemma NamedBlock6()
    ensures NamedRows(BLOCK6, 60, 70)
  {
    hide Key, Proper;
    Proper6();
    Keys6();
  }

  lemma NamedBlock7()
    ensures NamedRows(BLOCK7, 70, 80)
  {
    hide Key, Proper;
    Proper7();
    Keys7();
  }

  lemma NamedBlock8()
    ensures NamedRows(BLOCK8, 80, 90)
  {
    hide Key, Proper;
    Proper8();
    Keys8();
  }

  lemma NamedBlock9()
    ensures NamedRows(BLOCK9, 90, 100)
  {
    hide Key, Proper;
    Proper9();
    Keys9();
  }

  lemma NamedBlock10()
    ensures NamedRows(BLOCK10, 100, 110)
  {
    hide Key, Proper;
    Proper10();
    Keys10();
  }

  lemma NamedBlock11()
    ensures NamedRows(BLOCK11, 110, 120)
  {
    hide Key, Proper;
    Proper11();
    Keys11();
  }

  lemma NamedBlock12()
    ensures NamedRows(BLOCK12, 120, 130)
  {
    hide Key, Proper;
    Proper12();
    Keys12();
  }

  lemma NamedBlock13()
    ensures NamedRows(BLOCK13, 130, 140)
  {
    hide Key, Proper;
    Proper13();
    Keys13();
  }

  lemma NamedBlock14()
    ensures NamedRows(BLOCK14, 140, 150)
  {
    hide Key, Proper;
    Proper14();
    Keys14();
  }

  lemma NamedBlock15()
    ensures NamedRows(BLOCK15, 150, 160)
  {
    hide Key, Proper;
    Proper15();
    Keys15();
  }

  lemma NamedBlock16()
    ensures NamedRows(BLOCK16, 160, 170)
  {
    hide Key, Proper;
    Proper16();
    Keys16();
  }

  lemma NamedBlock17()
    ensures NamedRows(BLOCK17, 170, 180)
  {
    hide Key, Proper;
    Proper17();
    Keys17();
  }

  lemma NamedBlock18()
    ensures NamedRows(BLOCK18, 180, 190)
  {
    hide Key, Proper;
    Proper18();
    Keys18();
  }

  lemma NamedBlock19()
    ensures NamedRows(BLOCK19, 190, 200)
  {
    hide Key, Proper;
    Proper19();
    Keys19();
  }

  lemma NamedBlock20()
    ensures NamedRows(BLOCK20, 200, 206)
  {
    hide Key, Proper;
    Proper20();
    Keys20();
  }

  lemma NamedGroup0()
    ensures NamedRows(Group0(), 0, 40)
  {
    hide NamedRows;
    NamedBlock0();
    NamedBlock1();
    NamedBlock2();
    NamedBlock3();
    JoinNamed(BLOCK0, BLOCK1, 0, 10, 20);
    JoinNamed(BLOCK0 + BLOCK1, BLOCK2, 0, 20, 30);
    JoinNamed(BLOCK0 + BLOCK1 + BLOCK2, BLOCK3, 0, 30, 40);
  }

  lemma NamedGroup1()
    ensures NamedRows(Group1(), 40, 80)
  {
    hide NamedRows;
    NamedBlock4();
    NamedBlock5();
    NamedBlock6();
    NamedBlock7();
    JoinNamed(BLOCK4, BLOCK5, 40, 50, 60);
    JoinNamed(BLOCK4 + BLOCK5, BLOCK6, 40, 60, 70);
    JoinNamed(BLOCK4 + BLOCK5 + BLOCK6, BLOCK7, 40, 70, 80);
  }

  lemma NamedGroup2()
    ensures NamedRows(Group2(), 80, 120)
  {
    hide NamedRows;
    NamedBlock8();
    NamedBlock9();
    NamedBlock10();
    NamedBlock11();
    JoinNamed(BLOCK8, BLOCK9, 80, 90, 100);
    JoinNamed(BLOCK8 + BLOCK9, BLOCK10, 80, 100, 110);
    JoinNamed(BLOCK8 + BLOCK9 + BLOCK10, BLOCK11, 80, 110, 120);
  }

  lemma NamedGroup3()
    ensures NamedRows(Group3(), 120, 160)
  {
    hide NamedRows;
    NamedBlock12();
    NamedBlock13();
    NamedBlock14();
    NamedBlock15();
    JoinNamed(BLOCK12, BLOCK13, 120, 130, 140);
    JoinNamed(BLOCK12 + BLOCK13, BLOCK14, 120, 140, 150);
    JoinNamed(BLOCK12 + BLOCK13 + BLOCK14, BLOCK15, 120, 150, 160);
  }

  lemma NamedGroup4()
    ensures NamedRows(Group4(), 160, 206)
  {
    hide NamedRows;
    NamedBlock16();
    NamedBlock17();
    NamedBlock18();
    NamedBlock19();
    NamedBlock20();
    JoinNamed(BLOCK16, BLOCK17, 160, 170, 180);
    JoinNamed(BLOCK16 + BLOCK17, BLOCK18, 160, 180, 190);
    JoinNamed(BLOCK16 + BLOCK17 + BLOCK18, BLOCK19, 160, 190, 200);
    JoinNamed(BLOCK16 + BLOCK17 + BLOCK18 + BLOCK19, BLOCK20, 160, 200, 206);
  }

  lemma NamedTable()
    ensures NamedRows(AllRows(), 0, 206)
  {
    hide NamedRows, Group0, Group1, Group2, Group3, Group4;
    NamedGroup0();
    NamedGroup1();
    NamedGroup2();
    NamedGroup3();
    NamedGroup4();
    JoinNamed(Group0(), Group1(), 0, 40, 80);
    JoinNamed(Group0() + Group1(), Group2(), 0, 80, 120);
    JoinNamed(Group0() + Group1() + Group2(), Group3(), 0, 120, 160);
    JoinNamed(Group0() + Group1() + Group2() + Group3(), Group4(), 0, 160, 206);
  }

  /** No two opcodes have the same mnemonic. */
  lemma NamesAreDistinct(i: nat, j: nat)
    requires i < j < |AllRows()|
    ensures AllRows()[i].name != AllRows()[j].name
  {
    hide AllRows, Key, KeyIndex, Proper;
    NamedTable();
    assert NamedRow(AllRows()[i], i) && NamedRow(AllRows()[j], j);
  }

  /** Words that the disassembler prints, but that are no mnemonics of the table. */
  predicate Unlisted(name: string)
  {
    KeyIndex(Key(name)) == 206
  }

  lemma UnlistedWords()
    ensures Unlisted(".long") && Unlisted("blt") && Unlisted("bne") && Unlisted("bdnz")
  {
    assert Key(".long") == 5776 && Key("blt") == 3982 && Key("bne") == 3737 && Key("bdnz") == 5304;
  }

  lemma UnlistedIsNoMnemonic(i: nat, name: string)
    requires i < |AllRows()| && Unlisted(name)
    ensures AllRows()[i].name != name
  {
    hide AllRows, Key, KeyIndex, Proper;
    NamedTable();
    assert NamedRow(AllRows()[i], i);
  }

  // ---------------------------------------------------------------------------------
  // Register names

  predicate Capital(name: string)
  {
    IsWord(name) && IsUpper(name[0]) && |name| <= 9
  }

  predicate Capitals(s: seq<SprInfo>)
  {
    forall k :: 0 <= k < |s| ==> Capital(s[k].name)
  }

  lemma CapitalNames0()
    ensures Capital("XER") && Capital("LR") && Capital("CTR") && Capital("DSISR") && Capital("DAR") && Capital("DEC")
    ensures Capital("SRR0") && Capital("SRR1") && Capital("EIE") && Capital("EID") && Capital("CMPA")
    ensures Capital("CMPB") && Capital("CMPC") && Capital("CMPD")
  {
  }

  lemma CapitalNames1()
    ensures Capital("ICR") && Capital("DER") && Capital("COUNTA") && Capital("COUNTB") && Capital("CMPE")
    ensures Capital("CMPF") && Capital("CMPG") && Capital("CMPH") && Capital("LCTRL1") && Capital("LCTRL2")
    ensures Capital("ICTRL") && Capital("BAR") && Capital("USPRG0") && Capital("SPRG4_RO")
  {
  }

  lemma CapitalNames2()
    ensures Capital("SPRG5_RO") && Capital("SPRG6_RO") && Capital("SPRG7_RO") && Capital("SPRG0") && Capital("SPRG1")
    ensures Capital("SPRG2") && Capital("SPRG3") && Capital("SPRG4") && Capital("SPRG5") && Capital("SPRG6")
    ensures Capital("SPRG7") && Capital("EAR") && Capital("TBL") && Capital("TBU")
  {
  }

  lemma CapitalNames3()
    ensures Capital("IC_CST") && Capital("IC_ADR") && Capital("IC_DAT") && Capital("DC_CST") && Capital("DC_ADR")
    ensures Capital("DC_DAT") && Capital("DPDR") && Capital("IMMR") && Capital("MI_CTR") && Capital("MI_AP")
    ensures Capital("MI_EPN") && Capital("MI_TWC") && Capital("MI_RPN") && Capital("MD_CTR")
  {
  }

  lemma CapitalNames4()
    ensures Capital("M_CASID") && Capital("MD_AP") && Capital("MD_EPN") && Capital("M_TWB") && Capital("MD_TWC")
    ensures Capital("MD_RPN") && Capital("M_TW") && Capital("MI_DBCAM") && Capital("MI_DBRAM0")
    ensures Capital("MI_DBRAM1") && Capital("MD_DBCAM") && Capital("MD_DBRAM0") && Capital("MD_DBRAM1")
    ensures Capital("ZPR")
  {
  }

  lemma CapitalNames5()
    ensures Capital("PID") && Capital("CCR0") && Capital("IAC3") && Capital("IAC4") && Capital("DVC1")
    ensures Capital("DVC2") && Capital("SGR") && Capital("DCWR") && Capital("SLER") && Capital("SU0R")
    ensures Capital("DBCR1") && Capital("ICDBDR") && Capital("ESR") && Capital("DEAR")
  {
  }

  lemma CapitalNames6()
    ensures Capital("EVPR") && Capital("TSR") && Capital("TCR") && Capital("PIT") && Capital("SRR2")
    ensures Capital("SRR3") && Capital("DBSR") && Capital("DBCR0") && Capital("IAC1") && Capital("IAC2")
    ensures Capital("DAC1") && Capital("DAC2") && Capital("DCCR") && Capital("ICCR")
  {
  }

  lemma Capitals0()
    ensures Capitals(SPRS0)
  {
    hide Capital;
    CapitalNames0();
  }

  lemma Capitals1()
    ensures Capitals(SPRS1)
  {
    hide Capital;
    CapitalNames1();
  }

  lemma Capitals2()
    ensures Capitals(SPRS2)
  {
    hide Capital;
    CapitalNames2();
  }

  lemma Capitals3()
    ensures Capitals(SPRS3)
  {
    hide Capital;
    CapitalNames3();
  }

  lemma Capitals4()
    ensures Capitals(SPRS4)
  {
    hide Capital;
    CapitalNames4();
  }

  lemma Capitals5()
    ensures Capitals(SPRS5)
  {
    hide Capital;
    CapitalNames5();
  }

  lemma Capitals6()
    ensures Capitals(SPRS6)
  {
    hide Capital;
    CapitalNames6();
  }

  lemma JoinCapitals(a: seq<SprInfo>, b: seq<SprInfo>)
    requires Capitals(a) && Capitals(b)
    ensures Capitals(a + b)
  {
    hide Capital;
  }

  lemma SprsAreWellFormed()
    ensures forall i :: 0 <= i < |AllSprs()| ==> WellFormedSpr(AllSprs()[i]) && |AllSprs()[i].name| <= 9
  {
    hide Capitals, IsWord;
    Capitals0();
    Capitals1();
    Capitals2();
    Capitals3();
    Capitals4();
    Capitals5();
    Capitals6();
    JoinCapitals(SPRS0, SPRS1);
    JoinCapitals(SPRS0 + SPRS1, SPRS2);
    JoinCapitals(SPRS0 + SPRS1 + SPRS2, SPRS3);
    JoinCapitals(SPRS0 + SPRS1 + SPRS2 + SPRS3, SPRS4);
    JoinCapitals(SPRS0 + SPRS1 + SPRS2 + SPRS3 + SPRS4, SPRS5);
    JoinCapitals(SPRS0 + SPRS1 + SPRS2 + SPRS3 + SPRS4 + SPRS5, SPRS6);
    assert Capitals(AllSprs());
    CapitalsAreWellFormed(AllSprs());
  }

  lemma CapitalsAreWellFormed(s: seq<SprInfo>)
    requires Capitals(s)
    ensures forall i :: 0 <= i < |s| ==> WellFormedSpr(s[i]) && |s[i].name| <= 9
  {
    forall i | 0 <= i < |s|
      ensures WellFormedSpr(s[i]) && |s[i].name| <= 9
    {
      assert Capital(s[i].name);
    }
  }
}
