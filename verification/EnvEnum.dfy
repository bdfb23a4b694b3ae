/**
 Walking the flat environment through the API: `API_env_enum` gets the variable found last and
 returns the one behind it.
 */
module EnvEnum {
  import opened Basics

  const NUL := '\0'

  /** What `envmatch` finds out, unless it reads past the memory that is modelled. */
  datatype Match = Found(index: nat) | Different | Beyond

  /**
   The pointer that a call stores: none, the variable at an index, or the argument itself; or the
   call reads past the memory that is modelled.
   */
  datatype Next = Null | At(index: nat) | Same | Overrun

  // ---------------------------------------------------------------------------------
  // The code as functions

  /** `envmatch`, from character `k` on, of the memory at its argument and the variable at `i`. */
  function MatchFrom(env: seq<char>, s: seq<char>, i: nat, k: nat): Match
    requires k <= |s|
    decreases |s| - k
  {
    if k == |s| || i + k >= |env| then Beyond
    else if s[k] != env[i + k] then
      if s[k] == NUL && env[i + k] == '=' then Found(i + k + 1) else Different
    else if s[k] == '=' then Found(i + k + 1)
    else MatchFrom(env, s, i, k + 1)
  }

  /** The end of the string at `n`, or None if the scan reaches the size limit first. */
  function ScanEnd(env: seq<char>, size: nat, n: nat): (r: Option<nat>)
    requires size + 2 <= |env| && n <= size + 1
    ensures r.Some? ==> n <= r.value <= size + 1 && env[r.value] == NUL
    ensures r.Some? ==> r.value <= size || n == size + 1
    decreases size + 1 - n
  {
    if env[n] == NUL then Some(n)
    else if n >= size then None
    else ScanEnd(env, size, n + 1)
  }

  /** The search loop, from the variable at `i` on. */
  function EnumFrom(env: seq<char>, size: nat, last: seq<char>, i: nat): (next: Next)
    requires size + 2 <= |env| && i <= size + 1
    ensures next.At? ==> next.index <= |env|
    decreases size + 2 - i
  {
    if env[i] == NUL then Same
    else
      match ScanEnd(env, size, i)
      case None => Same
      case Some(n) =>
        match MatchFrom(env, last, i, 0)
        case Beyond => Overrun
        case Different => EnumFrom(env, size, last, n + 1)
        case Found(_) => if env[n + 1] == NUL then Null else At(n + 1)
  }

  /** `API_env_enum`, given the memory at its argument. */
  function EnumSpec(env: seq<char>, size: nat, last: Option<seq<char>>): (next: Next)
    requires size + 2 <= |env|
    ensures next.At? ==> next.index <= |env|
  {
    match last
    case None => At(0)
    case Some(s) => EnumFrom(env, size, s, 0)
  }

  // ---------------------------------------------------------------------------------
  // The code

  /** The two memories agree on `k` characters, none of them `=`. */
  predicate Agree(env: seq<char>, s: seq<char>, i: nat, k: nat)
  {
    k <= |s| && i + k <= |env| && env[i..i + k] == s[..k] && '=' !in s[..k]
  }

  /** `envmatch`: the index behind the `=` of the variable, if the names agree. */
  method EnvMatch(env: seq<char>, s: seq<char>, i2: nat) returns (r: Match)
    requires i2 <= |env|
    ensures r == MatchFrom(env, s, i2, 0)
    ensures match r
            case Found(p) =>
              && i2 < p <= |env| && p - 1 - i2 < |s| && Agree(env, s, i2, p - 1 - i2)
              && env[p - 1] == '=' && (s[p - 1 - i2] == '=' || s[p - 1 - i2] == NUL)
            case Different =>
              exists k: nat ::
                && Agree(env, s, i2, k) && k < |s| && i2 + k < |env|
                && s[k] != env[i2 + k] && !(s[k] == NUL && env[i2 + k] == '=')
            case Beyond => exists k: nat :: Agree(env, s, i2, k) && (k == |s| || i2 + k == |env|)
  {
    var k := 0;
    while k < |s| && i2 + k < |env| && s[k] == env[i2 + k]
      invariant Agree(env, s, i2, k)
      invariant MatchFrom(env, s, i2, 0) == MatchFrom(env, s, i2, k)
      decreases |s| - k
    {
      if s[k] == '=' {
        return Found(i2 + k + 1);
      }
      AgreeNext(env, s, i2, k);
      k := k + 1;
    }
    if k == |s| || i2 + k == |env| {
      return Beyond;
    }
    if s[k] == NUL && env[i2 + k] == '=' {
      return Found(i2 + k + 1);
    }
    return Different;
  }

  lemma AgreeNext(env: seq<char>, s: seq<char>, i: nat, k: nat)
    requires Agree(env, s, i, k) && k < |s| && i + k < |env| && s[k] == env[i + k] && s[k] != '='
    ensures Agree(env, s, i, k + 1)
  {
    assert env[i..i + k + 1] == env[i..i + k] + [env[i + k]];
    assert s[..k + 1] == s[..k] + [s[k]];
  }

  /** `API_env_enum` over the memory of an environment that may use `size` bytes. */
  method EnvEnum(env: seq<char>, size: nat, last: Option<seq<char>>) returns (next: Next)
    requires size + 2 <= |env|
    ensures next == EnumSpec(env, size, last)
  {
    if last.None? {
      return At(0);
    }
    next := Same;
    var i := 0;
    while env[i] != NUL
      invariant 0 <= i <= size + 1
      invariant EnumSpec(env, size, last) == EnumFrom(env, size, last.value, i)
      decreases size + 2 - i
    {
      var n := i;
      while env[n] != NUL
        invariant i <= n <= size + 1 && (n <= size || n == i)
        invariant ScanEnd(env, size, i) == ScanEnd(env, size, n)
        decreases size + 2 - n
      {
        if n >= size {
          return Same;
        }
        n := n + 1;
      }
      var matched := EnvMatch(env, last.value, i);
      if matched.Beyond? {
        return Overrun;
      }
      if matched.Different? {
        i := n + 1;
        continue;
      }
      i := n + 1;
      if env[i] == NUL {
        return Null;
      }
      return At(i);
    }
  }

  // ---------------------------------------------------------------------------------
  // Well-formed environments

  /** A variable `name=value`. */
  predicate IsEntry(e: string)
  {
    && (forall i :: 0 <= i < |e| ==> e[i] != NUL)
    && exists i :: 0 <= i < |e| && e[i] == '='
  }

  function NameLength(e: string): (n: nat)
    ensures n <= |e|
    ensures forall i :: 0 <= i < n ==> e[i] != '='
    ensures n < |e| ==> e[n] == '='
  {
    if e == "" || e[0] == '=' then 0 else 1 + NameLength(e[1..])
  }

  function NameOf(e: string): string
  {
    e[..NameLength(e)]
  }

  predicate AllEntries(es: seq<string>)
  {
    forall i :: 0 <= i < |es| ==> IsEntry(es[i])
  }

  /** The variables one behind the other, each with its NUL. */
  function Flat(es: seq<string>): seq<char>
  {
    if es == [] then [] else Flat(es[..|es| - 1]) + es[|es| - 1] + [NUL]
  }

  /** The memory starts with the variables and the NUL that ends the list. */
  ghost predicate Holds(env: seq<char>, es: seq<string>)
  {
    AllEntries(es) && Flat(es) + [NUL] <= env
  }

  function Position(es: seq<string>, k: nat): nat
    requires k <= |es|
  {
    |Flat(es[..k])|
  }

  lemma {:induction false} FlatPrefix(es: seq<string>, k: nat)
    requires k <= |es|
    ensures Flat(es[..k]) <= Flat(es)
    ensures k < |es| ==> Flat(es[..k + 1]) == Flat(es[..k]) + es[k] + [NUL]
    ensures k < |es| ==> Flat(es[..k + 1]) <= Flat(es)
  {
    var n := |es| - 1;
    if k <= n {
      assert es[..n][..k] == es[..k];
      FlatPrefix(es[..n], k);
      if k < n {
        assert es[..n][..k + 1] == es[..k + 1];
      } else {
        assert es[..k + 1] == es && es[..k] == es[..n];
      }
    } else {
      assert es[..k] == es;
    }
  }

  /** Where each variable stands in memory. */
  lemma EntryAt(env: seq<char>, es: seq<string>, k: nat)
    requires Holds(env, es) && k < |es|
    ensures var p := Position(es, k);
            && p + |es[k]| + 1 <= |Flat(es)| < |env|
            && env[p..p + |es[k]|] == es[k]
            && env[p + |es[k]|] == NUL
            && Position(es, k + 1) == p + |es[k]| + 1
  {
    FlatPrefix(es, k);
    var p := Position(es, k);
    var upto := Flat(es[..k + 1]);
    assert upto[p..p + |es[k]|] == es[k];
    assert upto[p + |es[k]|] == NUL;
    assert upto <= Flat(es) <= env;
    assert env[p..p + |es[k]|] == upto[p..p + |es[k]|];
  }

  lemma EndAt(env: seq<char>, es: seq<string>)
    requires Holds(env, es)
    ensures Position(es, |es|) == |Flat(es)| < |env| && env[|Flat(es)|] == NUL
  {
    assert es[..|es|] == es;
    assert (Flat(es) + [NUL])[|Flat(es)|] == NUL;
  }

  lemma {:induction false} ScanEntry(env: seq<char>, size: nat, at: nat, e: string, k: nat)
    requires size + 2 <= |env| && at + |e| <= size && k <= |e| && IsEntry(e)
    requires env[at..at + |e|] == e && env[at + |e|] == NUL
    ensures ScanEnd(env, size, at + k) == Some(at + |e|)
    decreases |e| - k
  {
    if k < |e| {
      assert env[at + k] == env[at..at + |e|][k] == e[k];
      ScanEntry(env, size, at, e, k + 1);
    }
  }

  /** A string and its NUL stand at an index. */
  predicate StringAt(mem: seq<char>, at: nat, t: string)
  {
    at + |t| < |mem| && mem[at..at + |t|] == t && mem[at + |t|] == NUL && NUL !in t
  }

  predicate HasValue(t: string)
  {
    NameLength(t) < |t|
  }

  /**
   `envmatch` on two strings compares their names and finds an `=` in the second, unless they are
   the same string without a `=`.
   */
  lemma {:induction false} MatchIsSameName(env: seq<char>, s: seq<char>, at: nat, t: string, e: string, k: nat)
    requires StringAt(s, 0, t) && StringAt(env, at, e) && (t != e || HasValue(e))
    requires k <= NameLength(t) && k <= NameLength(e) && t[..k] == e[..k]
    ensures MatchFrom(env, s, at, k) != Beyond
    ensures MatchFrom(env, s, at, k).Found? <==> NameOf(t) == NameOf(e) && HasValue(e)
    decreases |t| - k
  {
    StringChar(s, 0, t, k);
    StringChar(env, at, e, k);
    if s[k] != env[at + k] {
      if NameOf(t) == NameOf(e) {
        assert NameLength(t) == |NameOf(t)| == NameLength(e);
      }
    } else if s[k] == NUL {
      assert false;
    } else if s[k] != '=' {
      assert t[..k + 1] == t[..k] + [t[k]] && e[..k + 1] == e[..k] + [e[k]];
      MatchIsSameName(env, s, at, t, e, k + 1);
    } else {
      assert NameLength(t) == k == NameLength(e);
    }
  }

  lemma StringChar(mem: seq<char>, at: nat, t: string, k: nat)
    requires StringAt(mem, at, t) && k <= |t|
    ensures mem[at + k] == if k == |t| then NUL else t[k]
    ensures mem[at + k] == NUL <==> k == |t|
  {
    if k < |t| {
      assert mem[at + k] == mem[at..at + |t|][k];
      assert t[k] in t;
    }
  }

  /** On the same string without a `=` the comparison goes on with whatever is behind the two. */
  lemma {:induction false} EqualNamesReadOn(env: seq<char>, s: seq<char>, at: nat, t: string, k: nat)
    requires StringAt(s, 0, t) && StringAt(env, at, t) && !HasValue(t) && k <= |t|
    ensures MatchFrom(env, s, at, k) == MatchFrom(env, s, at, |t| + 1)
    decreases |t| - k
  {
    StringChar(s, 0, t, k);
    StringChar(env, at, t, k);
    if k < |t| {
      EqualNamesReadOn(env, s, at, t, k + 1);
    }
  }

  lemma EntryHasName(e: string)
    requires IsEntry(e)
    ensures NameLength(e) < |e|
  {
    var i :| 0 <= i < |e| && e[i] == '=';
    assert !(i < NameLength(e));
  }

  /** The first variable from `j` on that has the name of variable `k`. */
  function FirstSame(es: seq<string>, k: nat, j: nat): (r: nat)
    requires j <= k < |es|
    ensures j <= r <= k && NameOf(es[r]) == NameOf(es[k])
    ensures forall i :: j <= i < r ==> NameOf(es[i]) != NameOf(es[k])
    decreases k - j
  {
    if NameOf(es[j]) == NameOf(es[k]) then j else FirstSame(es, k, j + 1)
  }

  /** The answer to variable `k`: the one behind the first variable of that name. */
  function AnswerTo(es: seq<string>, k: nat): Option<nat>
    requires k < |es|
  {
    var f := FirstSame(es, k, 0);
    if f + 1 < |es| then Some(f + 1) else None
  }

  function AsNext(es: seq<string>, r: Option<nat>): Next
    requires r.Some? ==> r.value <= |es|
  {
    match r
    case None => Null
    case Some(k) => At(Position(es, k))
  }

  lemma {:induction false} SearchFinds(
    env: seq<char>, size: nat, es: seq<string>, last: seq<char>, k: nat, j: nat)
    requires Holds(env, es) && size + 2 <= |env| && |Flat(es)| < size
    requires j <= k < |es| && StringAt(last, 0, es[k])
    ensures Position(es, j) <= size + 1
    ensures var f := FirstSame(es, k, j);
            EnumFrom(env, size, last, Position(es, j)) == AsNext(es, if f + 1 < |es| then Some(f + 1) else None)
    decreases k - j
  {
    hide Holds, IsEntry, NameOf, Flat, MatchFrom, ScanEnd, StringAt;
    var p := Position(es, j);
    HoldsEntries(env, es);
    EntryAt(env, es, j);
    EntryNotEmpty(env, p, es[j]);
    ScanEntry(env, size, p, es[j], 0);
    EntryHasName(es[j]);
    EntryIsString(env, p, es[j]);
    MatchIsSameName(env, last, p, es[k], es[j], 0);
    if NameOf(es[j]) == NameOf(es[k]) {
      if j + 1 < |es| {
        EntryAt(env, es, j + 1);
        EntryNotEmpty(env, Position(es, j + 1), es[j + 1]);
      } else {
        EndAt(env, es);
      }
    } else {
      SearchFinds(env, size, es, last, k, j + 1);
    }
  }

  lemma HoldsEntries(env: seq<char>, es: seq<string>)
    requires Holds(env, es)
    ensures forall i :: 0 <= i < |es| ==> IsEntry(es[i])
  {
  }

  lemma EntryNotEmpty(env: seq<char>, p: nat, e: string)
    requires IsEntry(e) && p + |e| <= |env| && env[p..p + |e|] == e
    ensures |e| > 0 && env[p] != NUL
  {
    var i :| 0 <= i < |e| && e[i] == '=';
    assert env[p] == env[p..p + |e|][0];
  }

  lemma EntryIsString(mem: seq<char>, at: nat, e: string)
    requires IsEntry(e) && at + |e| < |mem| && mem[at..at + |e|] == e && mem[at + |e|] == NUL
    ensures StringAt(mem, at, e)
  {
  }

  /** One call, fed with variable `k` of a well-formed environment. */
  lemma CallAnswers(env: seq<char>, size: nat, es: seq<string>, last: seq<char>, k: nat)
    requires Holds(env, es) && size + 2 <= |env| && |Flat(es)| < size && k < |es|
    requires StringAt(last, 0, es[k])
    ensures EnumSpec(env, size, Some(last)) == AsNext(es, AnswerTo(es, k))
  {
    hide Holds, EnumFrom;
    SearchFinds(env, size, es, last, k, 0);
    assert es[..0] == [];
  }

  // ---------------------------------------------------------------------------------
  // The walk

  /** The variable reached after `n` calls behind the first, if the walk has not ended. */
  function Walk(es: seq<string>, n: nat): (r: Option<nat>)
    requires es != []
    ensures r.Some? ==> r.value < |es|
  {
    if n == 0 then Some(0)
    else
      match Walk(es, n - 1)
      case None => None
      case Some(k) => AnswerTo(es, k)
  }

  predicate DistinctNames(es: seq<string>)
  {
    forall i, j :: 0 <= i < j < |es| ==> NameOf(es[i]) != NameOf(es[j])
  }

  /** With distinct names the walk visits every variable once, in order, and then ends. */
  lemma {:induction false} WalkIsComplete(es: seq<string>, n: nat)
    requires es != [] && DistinctNames(es)
    ensures Walk(es, n) == if n < |es| then Some(n) else None
    decreases n
  {
    if n > 0 {
      WalkIsComplete(es, n - 1);
    }
  }

  /** A variable whose name occurred before sends the walk back: it never gets past it. */
  lemma {:induction false} WalkStaysBelow(es: seq<string>, k: nat, n: nat)
    requires k < |es| && FirstSame(es, k, 0) < k
    requires forall j :: 0 <= j < k ==> FirstSame(es, j, 0) == j
    ensures Walk(es, n).Some? && Walk(es, n).value <= k
    decreases n
  {
    if n > 0 {
      WalkStaysBelow(es, k, n - 1);
    }
  }

  lemma FirstRepeat(es: seq<string>, m: nat) returns (k: nat)
    requires m < |es| && FirstSame(es, m, 0) < m
    ensures k <= m && FirstSame(es, k, 0) < k
    ensures forall j :: 0 <= j < k ==> FirstSame(es, j, 0) == j
    decreases m
  {
    if j :| 0 <= j < m && FirstSame(es, j, 0) != j {
      k := FirstRepeat(es, j);
    } else {
      k := m;
    }
  }

  /** The walk comes to an end exactly when no two variables have the same name. */
  lemma WalkEndsIffDistinct(es: seq<string>)
    requires es != []
    ensures (exists n :: Walk(es, n).None?) <==> DistinctNames(es)
  {
    if DistinctNames(es) {
      WalkIsComplete(es, |es|);
      assert Walk(es, |es|).None?;
    } else {
      var i, j :| 0 <= i < j < |es| && NameOf(es[i]) == NameOf(es[j]);
      assert FirstSame(es, j, 0) <= i;
      var k := FirstRepeat(es, j);
      forall n: nat
        ensures Walk(es, n).Some?
      {
        WalkStaysBelow(es, k, n);
      }
    }
  }

  // ---------------------------------------------------------------------------------
  // A client of the API

  /** The answer to the `n`-th call after the first, each fed with the pointer found before. */
  function ClientWalk(env: seq<char>, size: nat, n: nat): (next: Next)
    requires size + 2 <= |env|
    ensures next.At? ==> next.index <= |env|
  {
    if n == 0 then EnumSpec(env, size, None)
    else
      match ClientWalk(env, size, n - 1)
      case At(p) => EnumSpec(env, size, Some(env[p..]))
      case other => other
  }

  lemma EntryAtPointer(env: seq<char>, es: seq<string>, k: nat)
    requires Holds(env, es) && k < |es|
    ensures Position(es, k) <= |env| && StringAt(env[Position(es, k)..], 0, es[k])
  {
    hide Holds, IsEntry;
    var p := Position(es, k);
    HoldsEntries(env, es);
    EntryAt(env, es, k);
    assert env[p..][0..|es[k]|] == env[p..p + |es[k]|];
    EntryIsString(env[p..], 0, es[k]);
  }

  lemma {:induction false} ClientWalks(env: seq<char>, size: nat, es: seq<string>, n: nat)
    requires Holds(env, es) && size + 2 <= |env| && |Flat(es)| < size && es != []
    ensures ClientWalk(env, size, n) == AsNext(es, Walk(es, n))
    decreases n
  {
    hide Holds, Flat, EnumSpec, IsEntry;
    if n == 0 {
      FirstCall(env, size, es);
    } else {
      ClientWalks(env, size, es, n - 1);
      match Walk(es, n - 1)
      case None =>
      case Some(k) =>
        EntryAtPointer(env, es, k);
        CallAnswers(env, size, es, env[Position(es, k)..], k);
    }
  }

  lemma FirstCall(env: seq<char>, size: nat, es: seq<string>)
    requires size + 2 <= |env|
    ensures EnumSpec(env, size, None) == At(Position(es, 0))
  {
    assert es[..0] == [];
  }

  /** Without variables the first answer is the empty string, and every later one is the same. */
  lemma {:induction false} EmptyNeverEnds(env: seq<char>, size: nat, n: nat)
    requires size + 2 <= |env| && env[0] == NUL
    ensures ClientWalk(env, size, n) == if n == 0 then At(0) else Same
    decreases n
  {
    if n > 0 {
      EmptyNeverEnds(env, size, n - 1);
    }
  }

  /**
   For every well-formed environment that is shorter than its limit: if it has variables and their
   names are distinct, a client that starts with NULL and feeds each answer back visits every
   variable exactly once, in order, and then gets NULL; otherwise it never gets NULL.
   */
  lemma EnumerationIsComplete(env: seq<char>, size: nat, es: seq<string>, n: nat)
    requires Holds(env, es) && size + 2 <= |env| && |Flat(es)| < size
    ensures es != [] && DistinctNames(es) ==>
              ClientWalk(env, size, n) == if n < |es| then At(Position(es, n)) else Null
    ensures es == [] || !DistinctNames(es) ==> ClientWalk(env, size, n) != Null
  {
    hide Holds, Flat, ClientWalk;
    if es == [] {
      NoVariables(env, es);
      EmptyNeverEnds(env, size, n);
    } else {
      ClientWalks(env, size, es, n);
      if DistinctNames(es) {
        WalkIsComplete(es, n);
      } else {
        WalkEndsIffDistinct(es);
        assert Walk(es, n).Some?;
      }
    }
  }

  lemma NoVariables(env: seq<char>, es: seq<string>)
    requires Holds(env, es) && es == []
    ensures env[0] == NUL
  {
  }

  /** Two variables of the same name, and the memory that holds them. */
  const SAME_NAME := ["a=1", "a=2"]
  const SAME_NAME_ENV := "a=1\0a=2\0\0\0\0\0\0\0"

  /** A client that enumerates them never gets NULL. */
  lemma SameNameNeverEnds(n: nat)
    ensures Holds(SAME_NAME_ENV, SAME_NAME) && !DistinctNames(SAME_NAME)
    ensures ClientWalk(SAME_NAME_ENV, 10, n) != Null
  {
    hide ClientWalk;
    assert NameLength("a=1") == 1 && NameLength("a=2") == 1;
    assert IsEntry("a=1") && IsEntry("a=2") by {
      assert "a=1"[1] == '=' && "a=2"[1] == '=';
    }
    SameNameFlat();
    assert NameOf(SAME_NAME[0]) == NameOf(SAME_NAME[1]);
    EnumerationIsComplete(SAME_NAME_ENV, 10, SAME_NAME, n);
  }

  lemma SameNameFlat()
    ensures Flat(SAME_NAME) == "a=1\0a=2\0"
  {
    assert SAME_NAME[..1] == ["a=1"];
    assert ["a=1"][..0] == [];
    assert Flat(["a=1"]) == Flat([]) + "a=1" + [NUL];
  }
}
