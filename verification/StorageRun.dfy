/**
 A client that enumerates devices by the rules sees a fixed list: the network device, then the
 first device of each storage group if it is active.
 */
module StorageRun {
  import opened StorageEnum

  /** The cookies that `n` calls return when each is fed the previous one. */
  function Answers(d: Devices, f: Flags, c: Cookie, n: nat): seq<Cookie>
    requires |d.maxDev| == ENUM_MAX && f.Valid()
    decreases n
  {
    if n == 0 then []
    else
      var a := DevEnumSpec(d, f, c);
      [a.cookie] + Answers(d, a.flags, a.cookie, n - 1)
  }

  predicate FirstActive(d: Devices, g: nat)
  {
    d.getDev(g, 0) != NULL && d.active(d.getDev(g, 0))
  }

  /** The active first devices of the groups from `g` on. */
  function FirstDevices(d: Devices, g: nat): seq<Cookie>
    requires g <= ENUM_MAX
    decreases ENUM_MAX - g
  {
    if g == ENUM_MAX then []
    else (if FirstActive(d, g) then [d.getDev(g, 0)] else []) + FirstDevices(d, g + 1)
  }

  function Expected(d: Devices): seq<Cookie>
  {
    (if d.net != NULL then [d.net] else []) + FirstDevices(d, 0)
  }

  /** The flags when the groups below `n` have been visited and the others not. */
  function Visited(n: nat): (f: Flags)
    ensures f.Valid()
    ensures forall k :: 0 <= k < ENUM_MAX ==> f.started[k] == (k < n) && f.ended[k] == (k < n)
  {
    Flags(seq(ENUM_MAX, k => k < n), seq(ENUM_MAX, k => k < n))
  }

  ghost predicate NotFrom(d: Devices, c: Cookie, n: nat)
    requires |d.maxDev| == ENUM_MAX
  {
    forall h :: n <= h < ENUM_MAX ==> !d.Has(h, c)
  }

  lemma {:induction false} SkipVisited(d: Devices, n: nat, g: nat, c: Cookie)
    requires d.Valid() && g <= n <= ENUM_MAX && c != NULL
    ensures EnumStorageSpec(d, Visited(n), g, c) == EnumStorageSpec(d, Visited(n), n, c)
    decreases n - g
  {
    hide GroupOf, StorGetSpec;
    if g < n {
      SkipVisited(d, n, g + 1, c);
    }
  }

  function NextActive(d: Devices, g: nat): (h: nat)
    requires g <= ENUM_MAX
    ensures g <= h <= ENUM_MAX
    ensures h < ENUM_MAX ==> FirstActive(d, h)
    ensures FirstDevices(d, g) == if h < ENUM_MAX then [d.getDev(h, 0)] + FirstDevices(d, h + 1) else []
    decreases ENUM_MAX - g
  {
    if g == ENUM_MAX || FirstActive(d, g) then g else NextActive(d, g + 1)
  }

  lemma VisitNext(d: Devices, n: nat, c: Cookie)
    requires d.Valid() && n < ENUM_MAX && (c == NULL || NotFrom(d, c, n))
    ensures EnumStorSpec(d, Visited(n), n, c) == Enumerated(FirstActive(d, n), d.getDev(n, 0), Visited(n + 1))
  {
    var f := Visited(n);
    assert Flags(f.started[n := true], f.ended[n := true]) == Visited(n + 1);
  }

  lemma FirstIsNotLater(d: Devices, n: nat)
    requires d.Valid() && n < ENUM_MAX && d.getDev(n, 0) != NULL
    ensures NotFrom(d, d.getDev(n, 0), n + 1)
  {
    assert d.maxDev[n] > 0;
  }

  lemma VisitStep(d: Devices, n: nat, c: Cookie)
    requires d.Valid() && n < ENUM_MAX && (c == NULL || NotFrom(d, c, n))
    ensures EnumStorageSpec(d, Visited(n), n, c) ==
            if FirstActive(d, n) then Enumerated(true, d.getDev(n, 0), Visited(n + 1))
            else EnumStorageSpec(d, Visited(n + 1), n + 1, d.getDev(n, 0))
  {
    hide EnumStorSpec, NotFrom, FirstActive;
    VisitNext(d, n, c);
  }

  lemma FiveGroups(d: Devices)
    requires d.Valid()
    ensures |d.maxDev| == ENUM_MAX
  {
  }

  lemma NoGroupsLeft(d: Devices, f: Flags, c: Cookie)
    requires |d.maxDev| == ENUM_MAX && f.Valid()
    ensures !EnumStorageSpec(d, f, ENUM_MAX, c).found
  {
  }

  /** From a group that has not been visited on, the next active first device is found. */
  lemma {:induction false} FindNext(d: Devices, n: nat, c: Cookie)
    requires d.Valid() && n <= ENUM_MAX && (c == NULL || NotFrom(d, c, n))
    ensures var r := EnumStorageSpec(d, Visited(n), n, c);
            var h := NextActive(d, n);
            if h < ENUM_MAX then r == Enumerated(true, d.getDev(h, 0), Visited(h + 1)) else !r.found
    decreases ENUM_MAX - n
  {
    hide EnumStorageSpec, NotFrom, FirstDevices, FirstActive, GroupOf, Visited, Devices.Valid;
    FiveGroups(d);
    if n == ENUM_MAX {
      NoGroupsLeft(d, Visited(n), c);
    } else {
      VisitStep(d, n, c);
      if !FirstActive(d, n) {
        if d.getDev(n, 0) != NULL {
          FirstIsNotLater(d, n);
        }
        FindNext(d, n + 1, d.getDev(n, 0));
      }
    }
  }

  /** A call answers with the next active first device from group `n` on, or NULL. */
  predicate Finds(d: Devices, f: Flags, c: Cookie, n: nat)
    requires |d.maxDev| == ENUM_MAX && f.Valid() && n <= ENUM_MAX
  {
    var h, a := NextActive(d, n), DevEnumSpec(d, f, c);
    if h < ENUM_MAX then a == Answer(d.getDev(h, 0), Visited(h + 1)) else a.cookie == NULL
  }

  lemma VisitedFinds(d: Devices, n: nat, c: Cookie)
    requires d.Valid() && n <= ENUM_MAX && c != NULL && NotFrom(d, c, n)
    ensures |d.maxDev| == ENUM_MAX && Finds(d, Visited(n), c, n)
  {
    hide EnumStorageSpec, NotFrom, Visited, Devices.Valid, NextActive, FirstDevices, FirstActive, GroupOf;
    FiveGroups(d);
    SkipVisited(d, n, 0, c);
    FindNext(d, n, c);
  }

  lemma ResetAnswer(d: Devices, f: Flags)
    requires |d.maxDev| == ENUM_MAX && f.Valid() && d.net == NULL
    ensures var r := EnumStorageSpec(d, Visited(0), 0, NULL);
            DevEnumSpec(d, f, NULL) == Answer(if r.found then r.cookie else NULL, r.flags)
  {
    hide EnumStorageSpec, Visited;
    ResetIsUnvisited();
  }

  lemma ResetFinds(d: Devices, f: Flags)
    requires d.Valid() && f.Valid() && d.net == NULL
    ensures |d.maxDev| == ENUM_MAX && Finds(d, f, NULL, 0)
  {
    hide EnumStorageSpec, Visited, Devices.Valid, NextActive, DevEnumSpec, FirstDevices, FirstActive;
    FiveGroups(d);
    ResetAnswer(d, f);
    FindNext(d, 0, NULL);
  }

  lemma AnswersMore(d: Devices, f: Flags, c: Cookie, n: nat)
    requires |d.maxDev| == ENUM_MAX && f.Valid()
    ensures var a := DevEnumSpec(d, f, c);
            && Answers(d, f, c, n + 1) == [a.cookie] + Answers(d, a.flags, a.cookie, n)
            && Answers(d, a.flags, a.cookie, 0) == []
  {
    hide DevEnumSpec;
  }

  lemma {:induction false} AnswersFrom(d: Devices, f: Flags, c: Cookie, n: nat)
    requires d.Valid() && f.Valid() && n <= ENUM_MAX
    requires |d.maxDev| == ENUM_MAX && Finds(d, f, c, n)
    ensures Answers(d, f, c, |FirstDevices(d, n)| + 1) == FirstDevices(d, n) + [NULL]
    decreases ENUM_MAX - n
  {
    hide DevEnumSpec, NotFrom, Visited, Devices.Valid, NextActive, Answers, FirstDevices;
    var h := NextActive(d, n);
    AnswersMore(d, f, c, |FirstDevices(d, n)|);
    if h < ENUM_MAX {
      var next, rest := d.getDev(h, 0), FirstDevices(d, h + 1);
      FirstIsNotLater(d, h);
      VisitedFinds(d, h + 1, next);
      AnswersFrom(d, Visited(h + 1), next, h + 1);
      assert [next] + (rest + [NULL]) == FirstDevices(d, n) + [NULL];
    }
  }

  lemma NetIsNoStorage(d: Devices)
    requires d.Valid() && d.net != NULL
    ensures NotFrom(d, d.net, 0)
  {
  }

  lemma ResetIsUnvisited()
    ensures RESET == Visited(0)
  {
  }

  /**
   Whatever happened before, a client that starts from NULL gets the network device if there is
   one, then the active first devices in group order, and then NULL.
   */
  lemma EnumerationRun(d: Devices, f: Flags)
    requires d.Valid() && f.Valid()
    ensures Answers(d, f, NULL, |Expected(d)| + 1) == Expected(d) + [NULL]
    ensures |Expected(d)| + 1 <= ENUM_MAX + 2
  {
    hide EnumStorageSpec, NotFrom, Visited, Devices.Valid, Answers, Finds, FirstDevices;
    FiveGroups(d);
    FirstDevicesAtMost(d, 0);
    if d.net != NULL {
      ResetIsUnvisited();
      NetIsNoStorage(d);
      VisitedFinds(d, 0, d.net);
      AnswersFrom(d, RESET, d.net, 0);
      AnswersMore(d, f, NULL, |FirstDevices(d, 0)| + 1);
      assert [d.net] + (FirstDevices(d, 0) + [NULL]) == Expected(d) + [NULL];
    } else {
      assert Expected(d) == FirstDevices(d, 0);
      ResetFinds(d, f);
      AnswersFrom(d, f, NULL, 0);
    }
  }

  lemma {:induction false} FirstDevicesAtMost(d: Devices, g: nat)
    requires g <= ENUM_MAX
    ensures |FirstDevices(d, g)| <= ENUM_MAX - g
    decreases ENUM_MAX - g
  {
    if g < ENUM_MAX {
      FirstDevicesAtMost(d, g + 1);
    }
  }

  lemma {:induction false} FirstDevicesMembers(d: Devices, g: nat, c: Cookie)
    requires g <= ENUM_MAX
    ensures c in FirstDevices(d, g) <==> exists h :: g <= h < ENUM_MAX && FirstActive(d, h) && c == d.getDev(h, 0)
    decreases ENUM_MAX - g
  {
    if g < ENUM_MAX {
      FirstDevicesMembers(d, g + 1, c);
    }
  }

  predicate Distinct(s: seq<Cookie>)
  {
    forall i, j :: 0 <= i < j < |s| ==> s[i] != s[j]
  }

  lemma DistinctCons(c: Cookie, s: seq<Cookie>)
    requires Distinct(s) && c !in s
    ensures Distinct([c] + s)
  {
  }

  lemma FirstIsNotListedLater(d: Devices, g: nat)
    requires d.Valid() && g < ENUM_MAX && FirstActive(d, g)
    ensures d.getDev(g, 0) !in FirstDevices(d, g + 1)
  {
    hide FirstDevices;
    FirstDevicesMembers(d, g + 1, d.getDev(g, 0));
    FirstIsNotLater(d, g);
    forall h | g + 1 <= h < ENUM_MAX && FirstActive(d, h)
      ensures d.getDev(h, 0) != d.getDev(g, 0)
    {
      assert d.maxDev[h] > 0;
    }
  }

  /** No device is listed twice. */
  lemma {:induction false} FirstDevicesDistinct(d: Devices, g: nat)
    requires d.Valid() && g <= ENUM_MAX
    ensures Distinct(FirstDevices(d, g))
    decreases ENUM_MAX - g
  {
    hide Distinct, Devices.Valid;
    if g == ENUM_MAX {
      NothingIsDistinct();
    } else {
      FirstDevicesDistinct(d, g + 1);
      var rest := FirstDevices(d, g + 1);
      if FirstActive(d, g) {
        FirstIsNotListedLater(d, g);
        DistinctCons(d.getDev(g, 0), rest);
      } else {
        assert FirstDevices(d, g) == [] + rest == rest;
      }
    }
  }

  lemma NothingIsDistinct()
    ensures Distinct([])
  {
  }

  /** Every storage cookie that a client gets can be opened. */
  lemma ListedDevicesOpen(d: Devices, c: Cookie)
    requires d.Valid() && c in FirstDevices(d, 0)
    ensures OpenStorSpec(d, c) == 0
  {
    FirstDevicesMembers(d, 0, c);
    var h :| 0 <= h < ENUM_MAX && FirstActive(d, h) && c == d.getDev(h, 0);
    assert d.maxDev[h] > 0;
    assert d.Has(h, c);
  }

  predicate IsActiveStorage(d: Devices, g: nat, i: nat)
    requires |d.maxDev| == ENUM_MAX
  {
    g < ENUM_MAX && i < d.maxDev[g] && d.getDev(g, i) != NULL && d.active(d.getDev(g, i))
  }

  /**
   The enumeration is meant to list all devices.  It does so exactly when no group has an active
   device beyond its first, because taking the first device also ends the group.
   */
  lemma ListsAllIff(d: Devices)
    requires d.Valid()
    ensures (forall g, i :: IsActiveStorage(d, g, i) ==> d.getDev(g, i) in FirstDevices(d, 0))
       <==> (forall g, i :: IsActiveStorage(d, g, i) ==> i == 0)
  {
    forall g, i | IsActiveStorage(d, g, i)
      ensures d.getDev(g, i) in FirstDevices(d, 0) <==> i == 0
    {
      FirstDevicesMembers(d, 0, d.getDev(g, i));
      if i == 0 {
        assert FirstActive(d, g);
      } else {
        forall h | 0 <= h < ENUM_MAX && FirstActive(d, h)
          ensures d.getDev(h, 0) != d.getDev(g, i)
        {
          assert d.maxDev[h] > 0;
        }
      }
    }
  }

  /** A machine with two active disks in its first group: the second one is never listed. */
  function TwoDisks(): Devices
  {
    Devices([2, 0, 0, 0, 0], (g, i) => if g == 0 && i < 2 then 10 + i else NULL, c => true, NULL,
            g => g, c => 0, c => 512)
  }

  lemma SecondDiskIsMissed()
    ensures TwoDisks().Valid() && IsActiveStorage(TwoDisks(), 0, 1)
    ensures TwoDisks().getDev(0, 1) !in Expected(TwoDisks())
  {
    var d := TwoDisks();
    FirstDevicesMembers(d, 0, d.getDev(0, 1));
  }
}
