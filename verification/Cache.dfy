/**
 Main memory behind a write-back cache, as a driver that does DMA sees it.

 A line of the cache is absent, clean or dirty.  Devices access memory directly, so a clean
 line can be stale.  At any time the processor may fill a line on its own accord and the
 cache may evict one.
 */
module Cache {
  import opened Basics
  import opened Arithmetic

  /** The number of the cache line that holds an address. */
  function LineOf(a: nat, line: nat): nat
    requires line > 0
  {
    a / line
  }

  /**
   `cdata` holds the cached bytes of the lines that are present; `dirty` says of each present
   line whether it differs from memory by the processor's own writes.
   */
  datatype Mem = Mem(line: nat, ram: seq<Byte>, cdata: seq<Byte>, dirty: map<nat, bool>) {
    ghost predicate Valid()
    {
      line > 0 && |cdata| == |ram|
    }

    predicate Present(a: nat)
      requires line > 0
    {
      LineOf(a, line) in dirty
    }

    predicate Dirty(a: nat)
      requires line > 0
    {
      Present(a) && dirty[LineOf(a, line)]
    }

    /** What the processor reads at an address. */
    function View(a: nat): Byte
      requires Valid() && a < |ram|
    {
      if Present(a) then cdata[a] else ram[a]
    }

    /** A clean line holds what memory holds. */
    ghost predicate CleanAt(a: nat)
      requires Valid() && a < |ram|
    {
      Present(a) && !Dirty(a) ==> cdata[a] == ram[a]
    }

    ghost predicate Coherent()
      requires Valid()
    {
      forall a :: 0 <= a < |ram| ==> CleanAt(a)
    }
  }

  /** What the cache may do on its own accord at any time. */
  datatype CacheEvent = Fill(l: nat) | Evict(l: nat)

  datatype Event =
    | Line(e: CacheEvent)
    | CpuWrite(a: nat, v: Byte)
    | DeviceWrite(i: nat, v: Byte)

  function FillLine(m: Mem, l: nat): (m': Mem)
    requires m.Valid()
    ensures m'.Valid() && |m'.ram| == |m.ram| && m'.line == m.line
  {
    if l in m.dirty then m
    else
      m.(cdata := seq(|m.ram|, a requires 0 <= a < |m.ram| => if LineOf(a, m.line) == l then m.ram[a] else m.cdata[a]),
         dirty := m.dirty[l := false])
  }

  function EvictLine(m: Mem, l: nat): (m': Mem)
    requires m.Valid()
    ensures m'.Valid() && |m'.ram| == |m.ram| && m'.line == m.line
  {
    if l !in m.dirty then m
    else if !m.dirty[l] then m.(dirty := m.dirty - {l})
    else
      m.(ram := seq(|m.ram|, a requires 0 <= a < |m.ram| => if LineOf(a, m.line) == l then m.cdata[a] else m.ram[a]),
         dirty := m.dirty - {l})
  }

  /** A processor write brings the line in and leaves it dirty. */
  function Store(m: Mem, a: nat, v: Byte): (m': Mem)
    requires m.Valid() && a < |m.ram|
    ensures m'.Valid() && |m'.ram| == |m.ram| && m'.line == m.line
  {
    var f := FillLine(m, LineOf(a, m.line));
    f.(cdata := f.cdata[a := v], dirty := f.dirty[LineOf(a, m.line) := true])
  }

  function DeviceStore(m: Mem, a: nat, v: Byte): (m': Mem)
    requires m.Valid() && a < |m.ram|
    ensures m'.Valid() && |m'.ram| == |m.ram| && m'.line == m.line
  {
    m.(ram := m.ram[a := v])
  }

  /** The lines that a range of addresses touches. */
  function LinesOf(line: nat, lo: nat, hi: nat): set<nat>
    requires line > 0
  {
    set a | lo <= a < hi :: LineOf(a, line)
  }

  /** `flush_dcache_range`: writes dirty lines of the range back and drops all its lines. */
  function FlushRange(m: Mem, lo: nat, hi: nat): (m': Mem)
    requires m.Valid()
    ensures m'.Valid() && |m'.ram| == |m.ram| && m'.line == m.line
  {
    var ls := LinesOf(m.line, lo, hi);
    m.(ram := seq(|m.ram|, a requires 0 <= a < |m.ram| =>
                    if LineOf(a, m.line) in ls && m.Dirty(a) then m.cdata[a] else m.ram[a]),
       dirty := m.dirty - ls)
  }

  /** `invalidate_dcache_range`: drops the lines of the range, dirty or not. */
  function InvalidateRange(m: Mem, lo: nat, hi: nat): (m': Mem)
    requires m.Valid()
    ensures m'.Valid() && |m'.ram| == |m.ram| && m'.line == m.line
  {
    m.(dirty := m.dirty - LinesOf(m.line, lo, hi))
  }

  function Apply(m: Mem, e: CacheEvent): (m': Mem)
    requires m.Valid()
    ensures m'.Valid() && |m'.ram| == |m.ram| && m'.line == m.line
  {
    match e
    case Fill(l) => FillLine(m, l)
    case Evict(l) => EvictLine(m, l)
  }

  function Disturb(m: Mem, es: seq<CacheEvent>): (m': Mem)
    requires m.Valid()
    ensures m'.Valid() && |m'.ram| == |m.ram| && m'.line == m.line
    decreases |es|
  {
    if es == [] then m else Disturb(Apply(m, es[0]), es[1..])
  }

  /** What the cache does before each access of a copy, and after the last one. */
  type Noise = nat -> seq<CacheEvent>

  /** One byte of a copy: a load and a store, each after some disturbance. */
  function CopyByte(m: Mem, dst: nat, src: nat, i: nat, noise: Noise): (m': Mem)
    requires m.Valid() && dst < |m.ram| && src < |m.ram|
    ensures m'.Valid() && |m'.ram| == |m.ram| && m'.line == m.line
  {
    var m1 := Disturb(m, noise(2 * i));
    Store(Disturb(m1, noise(2 * i + 1)), dst, m1.View(src))
  }

  /** `memcpy` by the processor, from byte `i` on. */
  function CopyFrom(m: Mem, dst: nat, src: nat, len: nat, i: nat, noise: Noise): (m': Mem)
    requires m.Valid() && i <= len
    requires dst + len <= |m.ram| && src + len <= |m.ram|
    ensures m'.Valid() && |m'.ram| == |m.ram| && m'.line == m.line
    decreases len - i
  {
    if i == len then Disturb(m, noise(2 * i))
    else CopyFrom(CopyByte(m, dst + i, src + i, i, noise), dst, src, len, i + 1, noise)
  }

  /** All that the processor sees. */
  function Visible(m: Mem): (s: seq<Byte>)
    requires m.Valid()
    ensures |s| == |m.ram|
    ensures forall a :: 0 <= a < |s| ==> s[a] == m.View(a)
  {
    seq(|m.ram|, a requires 0 <= a < |m.ram| => m.View(a))
  }

  /** The same copy on plain memory. */
  function CopyBytes(s: seq<Byte>, dst: nat, src: nat, len: nat, i: nat): (r: seq<Byte>)
    requires i <= len && dst + len <= |s| && src + len <= |s|
    ensures |r| == |s|
    decreases len - i
  {
    if i == len then s else CopyBytes(s[dst + i := s[src + i]], dst, src, len, i + 1)
  }

  // ---------------------------------------------------------------------------------
  // What each operation does to the two views of memory

  lemma FillEffect(m: Mem, l: nat, a: nat)
    requires m.Valid() && a < |m.ram|
    ensures FillLine(m, l).View(a) == m.View(a)
    ensures FillLine(m, l).ram == m.ram
    ensures FillLine(m, l).Dirty(a) <==> m.Dirty(a)
    ensures m.CleanAt(a) ==> FillLine(m, l).CleanAt(a)
  {
    hide LineOf;
  }

  lemma EvictEffect(m: Mem, l: nat, a: nat)
    requires m.Valid() && a < |m.ram|
    ensures m.CleanAt(a) ==> EvictLine(m, l).View(a) == m.View(a)
    ensures !m.Dirty(a) ==> EvictLine(m, l).ram[a] == m.ram[a]
    ensures !m.Dirty(a) ==> !EvictLine(m, l).Dirty(a)
    ensures m.CleanAt(a) ==> EvictLine(m, l).CleanAt(a)
  {
    hide LineOf;
  }

  lemma StoreEffect(m: Mem, b: nat, v: Byte, a: nat)
    requires m.Valid() && a < |m.ram| && b < |m.ram|
    ensures Store(m, b, v).View(a) == if a == b then v else m.View(a)
    ensures Store(m, b, v).ram == m.ram
    ensures Store(m, b, v).Dirty(a) <==> m.Dirty(a) || LineOf(a, m.line) == LineOf(b, m.line)
    ensures m.CleanAt(a) ==> Store(m, b, v).CleanAt(a)
  {
    hide LineOf;
  }

  lemma DeviceStoreEffect(m: Mem, b: nat, v: Byte, a: nat)
    requires m.Valid() && a < |m.ram| && b < |m.ram|
    ensures DeviceStore(m, b, v).ram[a] == if a == b then v else m.ram[a]
    ensures a != b ==> DeviceStore(m, b, v).View(a) == m.View(a)
    ensures DeviceStore(m, b, v).Dirty(a) <==> m.Dirty(a)
    ensures a != b && m.CleanAt(a) ==> DeviceStore(m, b, v).CleanAt(a)
  {
    hide LineOf;
  }

  lemma FlushEffect(m: Mem, lo: nat, hi: nat, a: nat)
    requires m.Valid() && a < |m.ram|
    ensures m.CleanAt(a) ==> FlushRange(m, lo, hi).View(a) == m.View(a)
    ensures m.CleanAt(a) ==> FlushRange(m, lo, hi).CleanAt(a)
    ensures LineOf(a, m.line) in LinesOf(m.line, lo, hi) ==> !FlushRange(m, lo, hi).Present(a)
    ensures LineOf(a, m.line) in LinesOf(m.line, lo, hi) && m.CleanAt(a) ==>
              FlushRange(m, lo, hi).ram[a] == m.View(a)
    ensures LineOf(a, m.line) !in LinesOf(m.line, lo, hi) ==> FlushRange(m, lo, hi).ram[a] == m.ram[a]
    ensures LineOf(a, m.line) !in LinesOf(m.line, lo, hi) ==> (FlushRange(m, lo, hi).Dirty(a) <==> m.Dirty(a))
  {
    hide LineOf, LinesOf;
  }

  lemma InvalidateEffect(m: Mem, lo: nat, hi: nat, a: nat)
    requires m.Valid() && a < |m.ram|
    ensures InvalidateRange(m, lo, hi).ram == m.ram
    ensures LineOf(a, m.line) in LinesOf(m.line, lo, hi) ==>
              InvalidateRange(m, lo, hi).View(a) == m.ram[a] && InvalidateRange(m, lo, hi).CleanAt(a)
    ensures LineOf(a, m.line) !in LinesOf(m.line, lo, hi) ==> InvalidateRange(m, lo, hi).View(a) == m.View(a)
    ensures LineOf(a, m.line) !in LinesOf(m.line, lo, hi) && m.CleanAt(a) ==> InvalidateRange(m, lo, hi).CleanAt(a)
  {
    hide LineOf, LinesOf;
  }

  lemma ApplyEffect(m: Mem, e: CacheEvent)
    requires m.Valid() && m.Coherent()
    ensures Apply(m, e).Coherent() && Visible(Apply(m, e)) == Visible(m)
  {
    hide LineOf, FillLine, EvictLine, Visible;
    forall a | 0 <= a < |m.ram|
      ensures Apply(m, e).CleanAt(a) && Visible(Apply(m, e))[a] == Visible(m)[a]
    {
      assert m.CleanAt(a);
      match e
      case Fill(l) => FillEffect(m, l, a);
      case Evict(l) => EvictEffect(m, l, a);
    }
  }

  /** In coherent memory, fills and evictions cannot be seen. */
  lemma {:induction false} DisturbEffect(m: Mem, es: seq<CacheEvent>)
    requires m.Valid() && m.Coherent()
    ensures Disturb(m, es).Coherent() && Visible(Disturb(m, es)) == Visible(m)
    decreases |es|
  {
    hide Apply, Visible, Mem.Coherent;
    if es != [] {
      ApplyEffect(m, es[0]);
      DisturbEffect(Apply(m, es[0]), es[1..]);
    }
  }

  lemma StoreIsVisible(m: Mem, b: nat, v: Byte)
    requires m.Valid() && m.Coherent() && b < |m.ram|
    ensures Store(m, b, v).Coherent() && Visible(Store(m, b, v)) == Visible(m)[b := v]
  {
    hide LineOf, Store, Visible;
    forall a | 0 <= a < |m.ram|
      ensures Store(m, b, v).CleanAt(a) && Visible(Store(m, b, v))[a] == Visible(m)[b := v][a]
    {
      assert m.CleanAt(a);
      StoreEffect(m, b, v, a);
    }
  }

  lemma CopyByteEffect(m: Mem, dst: nat, src: nat, i: nat, noise: Noise)
    requires m.Valid() && m.Coherent() && dst < |m.ram| && src < |m.ram|
    ensures CopyByte(m, dst, src, i, noise).Coherent()
    ensures Visible(CopyByte(m, dst, src, i, noise)) == Visible(m)[dst := Visible(m)[src]]
  {
    hide Disturb, Store, Visible, Mem.Coherent;
    var m1 := Disturb(m, noise(2 * i));
    DisturbEffect(m, noise(2 * i));
    DisturbEffect(m1, noise(2 * i + 1));
    StoreIsVisible(Disturb(m1, noise(2 * i + 1)), dst, m1.View(src));
    assert m1.View(src) == Visible(m1)[src];
  }

  /** Whatever the cache does meanwhile, a copy in coherent memory is the copy on plain memory. */
  lemma {:induction false} CopyEffect(m: Mem, dst: nat, src: nat, len: nat, i: nat, noise: Noise)
    requires m.Valid() && m.Coherent() && i <= len
    requires dst + len <= |m.ram| && src + len <= |m.ram|
    ensures CopyFrom(m, dst, src, len, i, noise).Coherent()
    ensures Visible(CopyFrom(m, dst, src, len, i, noise)) == CopyBytes(Visible(m), dst, src, len, i)
    decreases len - i
  {
    hide CopyByte, Disturb, Visible, Mem.Coherent;
    if i == len {
      DisturbEffect(m, noise(2 * i));
    } else {
      CopyByteEffect(m, dst + i, src + i, i, noise);
      CopyEffect(CopyByte(m, dst + i, src + i, i, noise), dst, src, len, i + 1, noise);
    }
  }

  /** Copying between disjoint ranges moves the bytes and touches nothing else. */
  lemma {:induction false} CopyMoves(s: seq<Byte>, dst: nat, src: nat, len: nat, i: nat, a: nat)
    requires i <= len && a < |s| && dst + len <= |s| && src + len <= |s|
    requires dst + len <= src || src + len <= dst
    ensures CopyBytes(s, dst, src, len, i)[a] == if dst + i <= a < dst + len then s[src + (a - dst)] else s[a]
    decreases len - i
  {
    if i < len {
      CopyMoves(s[dst + i := s[src + i]], dst, src, len, i + 1, a);
    }
  }

  /** A range of whole lines shares no line with anything outside it. */
  lemma WholeLines(line: nat, lo: nat, n: nat, a: nat)
    requires line > 0 && lo % line == 0 && n % line == 0
    ensures LineOf(a, line) in LinesOf(line, lo, lo + n) <==> lo <= a < lo + n
  {
    if LineOf(a, line) in LinesOf(line, lo, lo + n) {
      var b :| lo <= b < lo + n && LineOf(a, line) == LineOf(b, line);
      SameLine(line, lo, n, a, b);
    }
  }

  lemma SameLine(line: nat, lo: nat, n: nat, a: nat, b: nat)
    requires line > 0 && lo % line == 0 && n % line == 0
    requires lo <= b < lo + n && LineOf(a, line) == LineOf(b, line)
    ensures lo <= a < lo + n
  {
    hide LineOf;
    var p, q, s := LineOf(lo, line), LineOf(n, line), LineOf(b, line);
    LineBounds(a, line);
    LineBounds(b, line);
    LineStart(lo, line);
    LineStart(n, line);
    Distribute(p, q, line);
    if s < p {
      MulMonotone(s + 1, p, line);
      Distribute(s, 1, line);
      assert false;
    }
    if p + q <= s {
      MulMonotone(p + q, s, line);
      assert false;
    }
    MulMonotone(p, s, line);
    MulMonotone(s + 1, p + q, line);
    Distribute(s, 1, line);
  }

  lemma LineBounds(a: nat, line: nat)
    requires line > 0
    ensures LineOf(a, line) * line <= a < LineOf(a, line) * line + line
  {
  }

  lemma LineStart(a: nat, line: nat)
    requires line > 0 && a % line == 0
    ensures a == LineOf(a, line) * line
  {
  }
}
