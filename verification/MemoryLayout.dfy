/**
 Carving memory from the top: each step takes a number of bytes below the current address and
 rounds the result down to an alignment.  Addresses are 32-bit and wrap.
 */
module MemoryLayout {
  import opened Arithmetic
  import opened Basics

  function Sub(a: nat, b: nat): (r: nat)
    ensures b <= a < WORD_LIMIT ==> r == a - b
    ensures r < WORD_LIMIT
  {
    (a - b) % WORD_LIMIT
  }

  /** `a & ~(align - 1)`, for a power of two. */
  function RoundDown(a: nat, align: nat): (r: nat)
    requires align > 0
    ensures r <= a < r + align
  {
    a - a % align
  }

  datatype What =
    | LogBuffer | Pram | Rounding | Tlb | Lcd | Trace | Video | Monitor
    | Malloc | BoardInfo | GlobalData | Fdt | ExceptionStack | IrqStacks | AbortStack

  datatype Step = Step(what: What, size: nat, align: nat)

  datatype Region = Region(what: What, start: nat, size: nat)

  predicate ValidSteps(steps: seq<Step>)
  {
    forall i :: 0 <= i < |steps| ==> steps[i].align > 0
  }

  function Place(cur: nat, step: Step): nat
    requires step.align > 0
  {
    RoundDown(Sub(cur, step.size), step.align)
  }

  function RegionFor(cur: nat, step: Step): Region
    requires step.align > 0
  {
    Region(step.what, Place(cur, step), step.size)
  }

  /** The address after all the steps. */
  function End(cur: nat, steps: seq<Step>): nat
    requires ValidSteps(steps)
  {
    if steps == [] then cur
    else Place(End(cur, steps[..|steps| - 1]), steps[|steps| - 1])
  }

  function Layout(cur: nat, steps: seq<Step>): (regions: seq<Region>)
    requires ValidSteps(steps)
    ensures |regions| == |steps|
  {
    if steps == [] then []
    else
      var rest := steps[..|steps| - 1];
      Layout(cur, rest) + [RegionFor(End(cur, rest), steps[|steps| - 1])]
  }

  lemma LayoutNext(cur: nat, steps: seq<Step>, step: Step)
    requires ValidSteps(steps) && step.align > 0
    ensures ValidSteps(steps + [step])
    ensures End(cur, steps + [step]) == Place(End(cur, steps), step)
    ensures Layout(cur, steps + [step]) == Layout(cur, steps) + [RegionFor(End(cur, steps), step)]
  {
    assert (steps + [step])[..|steps|] == steps;
  }

  /** The bytes that the steps can use up at most: their sizes and what rounding may lose. */
  function Demand(steps: seq<Step>): nat
    requires ValidSteps(steps)
  {
    if steps == [] then 0
    else
      var step := steps[|steps| - 1];
      Demand(steps[..|steps| - 1]) + step.size + (step.align - 1)
  }

  /** The address after all the steps on unbounded integers. */
  function IdealEnd(cur: int, steps: seq<Step>): int
    requires ValidSteps(steps)
  {
    if steps == [] then cur
    else
      var step := steps[|steps| - 1];
      var a := IdealEnd(cur, steps[..|steps| - 1]) - step.size;
      a - a % step.align
  }

  lemma {:induction false} IdealEndBounds(cur: int, steps: seq<Step>)
    requires ValidSteps(steps)
    ensures cur - Demand(steps) <= IdealEnd(cur, steps) <= cur
  {
    if steps != [] {
      IdealEndBounds(cur, steps[..|steps| - 1]);
    }
  }

  /** As long as the ideal address does not go below zero, nothing wraps. */
  lemma {:induction false} NoWrap(cur: nat, steps: seq<Step>)
    requires ValidSteps(steps) && cur < WORD_LIMIT
    requires IdealEnd(cur, steps) >= 0
    ensures End(cur, steps) == IdealEnd(cur, steps)
  {
    if steps != [] {
      var rest := steps[..|steps| - 1];
      IdealEndBounds(cur, rest);
      NoWrap(cur, rest);
    }
  }

  predicate Inside(r: Region, low: nat, high: nat)
  {
    low <= r.start && r.start + r.size <= high
  }

  predicate Disjoint(r: Region, s: Region)
  {
    r.start + r.size <= s.start || s.start + s.size <= r.start
  }

  /** All regions lie in RAM and no two of them overlap. */
  predicate Safe(regions: seq<Region>, low: nat, high: nat)
  {
    && (forall i :: 0 <= i < |regions| ==> Inside(regions[i], low, high))
    && (forall i, j :: 0 <= i < j < |regions| ==> Disjoint(regions[i], regions[j]))
  }

  /** Without wrapping, everything carved so far lies between the current address and the top. */
  lemma {:induction false} CarvedAbove(cur: nat, steps: seq<Step>, i: nat)
    requires ValidSteps(steps) && cur < WORD_LIMIT && i < |steps|
    requires IdealEnd(cur, steps) >= 0
    ensures Inside(Layout(cur, steps)[i], End(cur, steps), cur)
  {
    var n := |steps| - 1;
    var rest := steps[..n];
    IdealEndBounds(cur, rest);
    NoWrap(cur, steps);
    NoWrap(cur, rest);
    if i < n {
      CarvedAbove(cur, rest, i);
      assert Layout(cur, steps)[i] == Layout(cur, rest)[i];
    }
  }

  lemma {:induction false} CarvedApart(cur: nat, steps: seq<Step>, i: nat, j: nat)
    requires ValidSteps(steps) && cur < WORD_LIMIT && i < j < |steps|
    requires IdealEnd(cur, steps) >= 0
    ensures Disjoint(Layout(cur, steps)[i], Layout(cur, steps)[j])
  {
    var n := |steps| - 1;
    var rest := steps[..n];
    IdealEndBounds(cur, rest);
    NoWrap(cur, steps);
    NoWrap(cur, rest);
    assert Layout(cur, steps)[i] == Layout(cur, rest)[i];
    if j < n {
      CarvedApart(cur, rest, i, j);
      assert Layout(cur, steps)[j] == Layout(cur, rest)[j];
    } else {
      CarvedAbove(cur, rest, i);
    }
  }

  /**
   When the arithmetic does not wrap, the layout is safe exactly if the lowest address reached is
   still in RAM.
   */
  lemma LayoutSafety(cur: nat, steps: seq<Step>, low: nat)
    requires ValidSteps(steps) && cur < WORD_LIMIT && steps != []
    requires IdealEnd(cur, steps) >= 0
    ensures Safe(Layout(cur, steps), low, cur) <==> low <= IdealEnd(cur, steps)
  {
    var regions := Layout(cur, steps);
    NoWrap(cur, steps);
    assert regions[|steps| - 1].start == End(cur, steps);
    forall i | 0 <= i < |regions|
      ensures Inside(regions[i], End(cur, steps), cur)
    {
      CarvedAbove(cur, steps, i);
    }
    forall i, j | 0 <= i < j < |regions|
      ensures Disjoint(regions[i], regions[j])
    {
      CarvedApart(cur, steps, i, j);
    }
    if Safe(regions, low, cur) {
      assert Inside(regions[|steps| - 1], low, cur);
    }
  }

  /** Memory for all sizes plus the rounding slack is enough. */
  lemma EnoughIsSafe(cur: nat, steps: seq<Step>, low: nat)
    requires ValidSteps(steps) && cur < WORD_LIMIT && steps != []
    requires low + Demand(steps) <= cur
    ensures IdealEnd(cur, steps) >= low
    ensures Safe(Layout(cur, steps), low, cur)
  {
    IdealEndBounds(cur, steps);
    LayoutSafety(cur, steps, low);
  }

  lemma RegionAligned(cur: nat, steps: seq<Step>, i: nat)
    requires ValidSteps(steps) && i < |steps|
    ensures Layout(cur, steps)[i].start % steps[i].align == 0
  {
    var n := |steps| - 1;
    if i < n {
      RegionAligned(cur, steps[..n], i);
    } else {
      RoundDownAligned(Sub(End(cur, steps[..n]), steps[n].size), steps[n].align);
    }
  }

  lemma RoundDownAligned(a: nat, align: nat)
    requires align > 0
    ensures RoundDown(a, align) % align == 0
  {
    var q := a / align;
    assert a == q * align + a % align;
    MultipleMod(q, align);
  }

  /** Each region is placed below everything carved before it. */
  lemma {:induction false} LayoutAt(cur: nat, steps: seq<Step>, i: nat)
    requires ValidSteps(steps) && i < |steps|
    ensures Layout(cur, steps)[i] == RegionFor(End(cur, steps[..i]), steps[i])
  {
    var n := |steps| - 1;
    if i < n {
      LayoutAt(cur, steps[..n], i);
      assert steps[..n][..i] == steps[..i];
    }
  }
}
