/**
 The debugger's opcode table is in the order that its search relies on.
 */
module PpcSearch {
  import opened Words
  import opened Opcodes
  import opened PpcTables

  predicate RowOrdered(a: Row, b: Row)
  {
    FormOrdered(OpcodeOf(a), OpcodeOf(b))
  }

  predicate RowInForm(r: Row)
  {
    OpcodeInMask(OpcodeOf(r)) && SubMask(PRIMARY, r.mask)
  }

  predicate Linked(s: seq<Row>, i: nat)
    requires i < |s| - 1
  {
    RowInForm(s[i]) && RowInForm(s[i + 1]) && RowOrdered(s[i], s[i + 1])
  }

  /** A run of rows in searching order, with its first and last row. */
  predicate Sorted(s: seq<Row>, first: Row, last: Row)
  {
    && s != [] && s[0] == first && s[|s| - 1] == last
    && (forall i :: 0 <= i < |s| ==> RowInForm(s[i]))
    && (forall i :: 0 <= i < |s| - 1 ==> RowOrdered(s[i], s[i + 1]))
  }

  lemma JoinSorted(a: seq<Row>, b: seq<Row>, first: Row, lower: Row, upper: Row, last: Row)
    requires Sorted(a, first, lower) && Sorted(b, upper, last) && RowOrdered(lower, upper)
    ensures Sorted(a + b, first, last)
  {
    hide RowOrdered, RowInForm;
    var s := a + b;
    forall i | 0 <= i < |s| - 1
      ensures RowOrdered(s[i], s[i + 1])
    {
      if i < |a| - 1 {
        assert RowOrdered(a[i], a[i + 1]);
      } else if i >= |a| {
        assert RowOrdered(b[i - |a|], b[i - |a| + 1]);
      }
    }
  }

  lemma SortedBlock0()
    ensures Sorted(BLOCK0, BLOCK0[0], BLOCK0[9])
  {
    hide Ids;
    var s := BLOCK0;
    assert Linked(s, 0) && Linked(s, 1) && Linked(s, 2) && Linked(s, 3) && Linked(s, 4);
    assert Linked(s, 5) && Linked(s, 6) && Linked(s, 7) && Linked(s, 8);
    assert Sorted(s, s[0], s[9]) by {
      hide RowInForm, RowOrdered;
    }
  }

  lemma SortedBlock1()
    ensures Sorted(BLOCK1, BLOCK1[0], BLOCK1[9])
  {
    hide Ids;
    var s := BLOCK1;
    assert Linked(s, 0) && Linked(s, 1) && Linked(s, 2) && Linked(s, 3) && Linked(s, 4);
    assert Linked(s, 5) && Linked(s, 6) && Linked(s, 7) && Linked(s, 8);
    assert Sorted(s, s[0], s[9]) by {
      hide RowInForm, RowOrdered;
    }
  }

  lemma SortedBlock2()
    ensures Sorted(BLOCK2, BLOCK2[0], BLOCK2[9])
  {
    hide Ids;
    var s := BLOCK2;
    assert Linked(s, 0) && Linked(s, 1) && Linked(s, 2) && Linked(s, 3) && Linked(s, 4);
    assert Linked(s, 5) && Linked(s, 6) && Linked(s, 7) && Linked(s, 8);
    assert Sorted(s, s[0], s[9]) by {
      hide RowInForm, RowOrdered;
    }
  }

  lemma SortedBlock3()
    ensures Sorted(BLOCK3, BLOCK3[0], BLOCK3[9])
  {
    hide Ids;
    var s := BLOCK3;
    assert Linked(s, 0) && Linked(s, 1) && Linked(s, 2) && Linked(s, 3) && Linked(s, 4);
    assert Linked(s, 5) && Linked(s, 6) && Linked(s, 7) && Linked(s, 8);
    assert Sorted(s, s[0], s[9]) by {
      hide RowInForm, RowOrdered;
    }
  }

  lemma SortedBlock4()
    ensures Sorted(BLOCK4, BLOCK4[0], BLOCK4[9])
  {
    hide Ids;
    var s := BLOCK4;
    assert Linked(s, 0) && Linked(s, 1) && Linked(s, 2) && Linked(s, 3) && Linked(s, 4);
    assert Linked(s, 5) && Linked(s, 6) && Linked(s, 7) && Linked(s, 8);
    assert Sorted(s, s[0], s[9]) by {
      hide RowInForm, RowOrdered;
    }
  }

  lemma SortedBlock5()
    ensures Sorted(BLOCK5, BLOCK5[0], BLOCK5[9])
  {
    hide Ids;
    var s := BLOCK5;
    assert Linked(s, 0) && Linked(s, 1) && Linked(s, 2) && Linked(s, 3) && Linked(s, 4);
    assert Linked(s, 5) && Linked(s, 6) && Linked(s, 7) && Linked(s, 8);
    assert Sorted(s, s[0], s[9]) by {
      hide RowInForm, RowOrdered;
    }
  }

  lemma SortedBlock6()
    ensures Sorted(BLOCK6, BLOCK6[0], BLOCK6[9])
  {
    hide Ids;
    var s := BLOCK6;
    assert Linked(s, 0) && Linked(s, 1) && Linked(s, 2) && Linked(s, 3) && Linked(s, 4);
    assert Linked(s, 5) && Linked(s, 6) && Linked(s, 7) && Linked(s, 8);
    assert Sorted(s, s[0], s[9]) by {
      hide RowInForm, RowOrdered;
    }
  }

  lemma SortedBlock7()
    ensures Sorted(BLOCK7, BLOCK7[0], BLOCK7[9])
  {
    hide Ids;
    var s := BLOCK7;
    assert Linked(s, 0) && Linked(s, 1) && Linked(s, 2) && Linked(s, 3) && Linked(s, 4);
    assert Linked(s, 5) && Linked(s, 6) && Linked(s, 7) && Linked(s, 8);
    assert Sorted(s, s[0], s[9]) by {
      hide RowInForm, RowOrdered;
    }
  }

  lemma SortedBlock8()
    ensures Sorted(BLOCK8, BLOCK8[0], BLOCK8[9])
  {
    hide Ids;
    var s := BLOCK8;
    assert Linked(s, 0) && Linked(s, 1) && Linked(s, 2) && Linked(s, 3) && Linked(s, 4);
    assert Linked(s, 5) && Linked(s, 6) && Linked(s, 7) && Linked(s, 8);
    assert Sorted(s, s[0], s[9]) by {
      hide RowInForm, RowOrdered;
    }
  }

  lemma SortedBlock9()
    ensures Sorted(BLOCK9, BLOCK9[0], BLOCK9[9])
  {
    hide Ids;
    var s := BLOCK9;
    assert Linked(s, 0) && Linked(s, 1) && Linked(s, 2) && Linked(s, 3) && Linked(s, 4);
    assert Linked(s, 5) && Linked(s, 6) && Linked(s, 7) && Linked(s, 8);
    assert Sorted(s, s[0], s[9]) by {
      hide RowInForm, RowOrdered;
    }
  }

  lemma SortedBlock10()
    ensures Sorted(BLOCK10, BLOCK10[0], BLOCK10[9])
  {
    hide Ids;
    var s := BLOCK10;
    assert Linked(s, 0) && Linked(s, 1) && Linked(s, 2) && Linked(s, 3) && Linked(s, 4);
    assert Linked(s, 5) && Linked(s, 6) && Linked(s, 7) && Linked(s, 8);
    assert Sorted(s, s[0], s[9]) by {
      hide RowInForm, RowOrdered;
    }
  }

  lemma SortedBlock11()
    ensures Sorted(BLOCK11, BLOCK11[0], BLOCK11[9])
  {
    hide Ids;
    var s := BLOCK11;
    assert Linked(s, 0) && Linked(s, 1) && Linked(s, 2) && Linked(s, 3) && Linked(s, 4);
    assert Linked(s, 5) && Linked(s, 6) && Linked(s, 7) && Linked(s, 8);
    assert Sorted(s, s[0], s[9]) by {
      hide RowInForm, RowOrdered;
    }
  }

  lemma SortedBlock12()
    ensures Sorted(BLOCK12, BLOCK12[0], BLOCK12[9])
  {
    hide Ids;
    var s := BLOCK12;
    assert Linked(s, 0) && Linked(s, 1) && Linked(s, 2) && Linked(s, 3) && Linked(s, 4);
    assert Linked(s, 5) && Linked(s, 6) && Linked(s, 7) && Linked(s, 8);
    assert Sorted(s, s[0], s[9]) by {
      hide RowInForm, RowOrdered;
    }
  }

  lemma SortedBlock13()
    ensures Sorted(BLOCK13, BLOCK13[0], BLOCK13[9])
  {
    hide Ids;
    var s := BLOCK13;
    assert Linked(s, 0) && Linked(s, 1) && Linked(s, 2) && Linked(s, 3) && Linked(s, 4);
    assert Linked(s, 5) && Linked(s, 6) && Linked(s, 7) && Linked(s, 8);
    assert Sorted(s, s[0], s[9]) by {
      hide RowInForm, RowOrdered;
    }
  }

  lemma SortedBlock14()
    ensures Sorted(BLOCK14, BLOCK14[0], BLOCK14[9])
  {
    hide Ids;
    var s := BLOCK14;
    assert Linked(s, 0) && Linked(s, 1) && Linked(s, 2) && Linked(s, 3) && Linked(s, 4);
    assert Linked(s, 5) && Linked(s, 6) && Linked(s, 7) && Linked(s, 8);
    assert Sorted(s, s[0], s[9]) by {
      hide RowInForm, RowOrdered;
    }
  }

  lemma SortedBlock15()
    ensures Sorted(BLOCK15, BLOCK15[0], BLOCK15[9])
  {
    hide Ids;
    var s := BLOCK15;
    assert Linked(s, 0) && Linked(s, 1) && Linked(s, 2) && Linked(s, 3) && Linked(s, 4);
    assert Linked(s, 5) && Linked(s, 6) && Linked(s, 7) && Linked(s, 8);
    assert Sorted(s, s[0], s[9]) by {
      hide RowInForm, RowOrdered;
    }
  }

  lemma SortedBlock16()
    ensures Sorted(BLOCK16, BLOCK16[0], BLOCK16[9])
  {
    hide Ids;
    var s := BLOCK16;
    assert Linked(s, 0) && Linked(s, 1) && Linked(s, 2) && Linked(s, 3) && Linked(s, 4);
    assert Linked(s, 5) && Linked(s, 6) && Linked(s, 7) && Linked(s, 8);
    assert Sorted(s, s[0], s[9]) by {
      hide RowInForm, RowOrdered;
    }
  }

  lemma SortedBlock17()
    ensures Sorted(BLOCK17, BLOCK17[0], BLOCK17[9])
  {
    hide Ids;
    var s := BLOCK17;
    assert Linked(s, 0) && Linked(s, 1) && Linked(s, 2) && Linked(s, 3) && Linked(s, 4);
    assert Linked(s, 5) && Linked(s, 6) && Linked(s, 7) && Linked(s, 8);
    assert Sorted(s, s[0], s[9]) by {
      hide RowInForm, RowOrdered;
    }
  }

  lemma SortedBlock18()
    ensures Sorted(BLOCK18, BLOCK18[0], BLOCK18[9])
  {
    hide Ids;
    var s := BLOCK18;
    assert Linked(s, 0) && Linked(s, 1) && Linked(s, 2) && Linked(s, 3) && Linked(s, 4);
    assert Linked(s, 5) && Linked(s, 6) && Linked(s, 7) && Linked(s, 8);
    assert Sorted(s, s[0], s[9]) by {
      hide RowInForm, RowOrdered;
    }
  }

  lemma SortedBlock19()
    ensures Sorted(BLOCK19, BLOCK19[0], BLOCK19[9])
  {
    hide Ids;
    var s := BLOCK19;
    assert Linked(s, 0) && Linked(s, 1) && Linked(s, 2) && Linked(s, 3) && Linked(s, 4);
    assert Linked(s, 5) && Linked(s, 6) && Linked(s, 7) && Linked(s, 8);
    assert Sorted(s, s[0], s[9]) by {
      hide RowInForm, RowOrdered;
    }
  }

  lemma SortedBlock20()
    ensures Sorted(BLOCK20, BLOCK20[0], BLOCK20[5])
  {
    hide Ids;
    var s := BLOCK20;
    assert Linked(s, 0) && Linked(s, 1) && Linked(s, 2);
    assert Linked(s, 3) && Linked(s, 4);
    assert Sorted(s, s[0], s[5]) by {
      hide RowInForm, RowOrdered;
    }
  }

  lemma SortedGroup0()
    ensures Sorted(Group0(), BLOCK0[0], BLOCK3[9])
  {
    hide Sorted, Ids;
    SortedBlock0();
    SortedBlock1();
    SortedBlock2();
    SortedBlock3();
    JoinSorted(BLOCK0, BLOCK1, BLOCK0[0], BLOCK0[9], BLOCK1[0], BLOCK1[9]);
    JoinSorted(BLOCK0 + BLOCK1, BLOCK2, BLOCK0[0], BLOCK1[9], BLOCK2[0], BLOCK2[9]);
    JoinSorted(BLOCK0 + BLOCK1 + BLOCK2, BLOCK3, BLOCK0[0], BLOCK2[9], BLOCK3[0], BLOCK3[9]);
  }

  lemma SortedGroup1()
    ensures Sorted(Group1(), BLOCK4[0], BLOCK7[9])
  {
    hide Sorted, Ids;
    SortedBlock4();
    SortedBlock5();
    SortedBlock6();
    SortedBlock7();
    JoinSorted(BLOCK4, BLOCK5, BLOCK4[0], BLOCK4[9], BLOCK5[0], BLOCK5[9]);
    JoinSorted(BLOCK4 + BLOCK5, BLOCK6, BLOCK4[0], BLOCK5[9], BLOCK6[0], BLOCK6[9]);
    JoinSorted(BLOCK4 + BLOCK5 + BLOCK6, BLOCK7, BLOCK4[0], BLOCK6[9], BLOCK7[0], BLOCK7[9]);
  }

  lemma SortedGroup2()
    ensures Sorted(Group2(), BLOCK8[0], BLOCK11[9])
  {
    hide Sorted, Ids;
    SortedBlock8();
    SortedBlock9();
    SortedBlock10();
    SortedBlock11();
    JoinSorted(BLOCK8, BLOCK9, BLOCK8[0], BLOCK8[9], BLOCK9[0], BLOCK9[9]);
    JoinSorted(BLOCK8 + BLOCK9, BLOCK10, BLOCK8[0], BLOCK9[9], BLOCK10[0], BLOCK10[9]);
    JoinSorted(BLOCK8 + BLOCK9 + BLOCK10, BLOCK11, BLOCK8[0], BLOCK10[9], BLOCK11[0], BLOCK11[9]);
  }

  lemma SortedGroup3()
    ensures Sorted(Group3(), BLOCK12[0], BLOCK15[9])
  {
    hide Sorted, Ids;
    SortedBlock12();
    SortedBlock13();
    SortedBlock14();
    SortedBlock15();
    JoinSorted(BLOCK12, BLOCK13, BLOCK12[0], BLOCK12[9], BLOCK13[0], BLOCK13[9]);
    JoinSorted(BLOCK12 + BLOCK13, BLOCK14, BLOCK12[0], BLOCK13[9], BLOCK14[0], BLOCK14[9]);
    JoinSorted(BLOCK12 + BLOCK13 + BLOCK14, BLOCK15, BLOCK12[0], BLOCK14[9], BLOCK15[0], BLOCK15[9]);
  }

  lemma SortedGroup4()
    ensures Sorted(Group4(), BLOCK16[0], BLOCK20[5])
  {
    hide Sorted, Ids;
    SortedBlock16();
    SortedBlock17();
    SortedBlock18();
    SortedBlock19();
    SortedBlock20();
    JoinSorted(BLOCK16, BLOCK17, BLOCK16[0], BLOCK16[9], BLOCK17[0], BLOCK17[9]);
    JoinSorted(BLOCK16 + BLOCK17, BLOCK18, BLOCK16[0], BLOCK17[9], BLOCK18[0], BLOCK18[9]);
    JoinSorted(BLOCK16 + BLOCK17 + BLOCK18, BLOCK19, BLOCK16[0], BLOCK18[9], BLOCK19[0], BLOCK19[9]);
    JoinSorted(BLOCK16 + BLOCK17 + BLOCK18 + BLOCK19, BLOCK20, BLOCK16[0], BLOCK19[9], BLOCK20[0], BLOCK20[5]);
  }

  lemma SortedTable()
    ensures Sorted(AllRows(), BLOCK0[0], BLOCK20[5])
  {
    hide Sorted, Ids, Group0, Group1, Group2, Group3, Group4;
    SortedGroup0();
    SortedGroup1();
    SortedGroup2();
    SortedGroup3();
    SortedGroup4();
    JoinSorted(Group0(), Group1(), BLOCK0[0], BLOCK3[9], BLOCK4[0], BLOCK7[9]);
    JoinSorted(Group0() + Group1(), Group2(), BLOCK0[0], BLOCK7[9], BLOCK8[0], BLOCK11[9]);
    JoinSorted(Group0() + Group1() + Group2(), Group3(), BLOCK0[0], BLOCK11[9], BLOCK12[0], BLOCK15[9]);
    JoinSorted(Group0() + Group1() + Group2() + Group3(), Group4(), BLOCK0[0], BLOCK15[9], BLOCK16[0], BLOCK20[5]);
  }

  /**
   On the debugger's own table, `find_opcode` finds for every 32-bit word the one entry that matches
   it, and nothing exactly when there is none.
   */
  lemma TableIsSearchable(w: Word)
    ensures SearchOrdered(PpcDebugTables().opcodes)
    ensures var ops := PpcDebugTables().opcodes; Probe(ops, w, 0, |ops|) == LinearFind(ops, w)
  {
    hide AllRows, SearchOrdered, FormOrdered, OpcodeInMask, SubMask, AllSprs;
    SortedTable();
    var ops := PpcDebugTables().opcodes;
    forall i | 0 <= i < |ops|
      ensures OpcodeInMask(ops[i]) && SubMask(PRIMARY, ops[i].mask)
    {
      assert RowInForm(AllRows()[i]);
    }
    forall i | 0 <= i < |ops| - 1
      ensures FormOrdered(ops[i], ops[i + 1])
    {
      assert RowOrdered(AllRows()[i], AllRows()[i + 1]);
    }
    SortedTableIsSearchable(ops);
    ProbeIsLinear(ops, w);
  }
}
