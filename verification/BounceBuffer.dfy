/**
 The generic bounce buffer: `bounce_buffer_start` hands a device a buffer of whole cache lines,
 the caller's own one if it is aligned and a temporary one otherwise, and
 `bounce_buffer_stop` gives the device's data back to the processor.
 */
module BounceBuffer {
  import opened Basics
  import opened Arithmetic
  import opened Cache

  const ENOMEM := 12

  function Roundup(len: nat, line: nat): nat
    requires line > 0
  {
    (len + line - 1) / line * line
  }

  /** The values of `struct bounce_buffer`; the flags GEN_BB_READ and GEN_BB_WRITE are booleans. */
  datatype Transfer = Transfer(user: nat, bounce: nat, len: nat, lenAligned: nat, read: bool, write: bool) {
    predicate Bounced()
    {
      bounce != user
    }

    predicate InDma(a: nat)
    {
      bounce <= a < bounce + lenAligned
    }

    predicate InUser(a: nat)
    {
      user <= a < user + len
    }
  }

  /** `addr_aligned` */
  predicate AddrAligned(user: nat, len: nat, line: nat)
    requires line > 0
  {
    user % line == 0 && len == Roundup(len, line)
  }

  /** The buffers lie in memory; a temporary one is aligned and apart from the caller's. */
  ghost predicate WellPlaced(m: Mem, t: Transfer)
  {
    && m.Valid()
    && t.lenAligned == Roundup(t.len, m.line)
    && t.user + t.len <= |m.ram|
    && t.bounce + t.lenAligned <= |m.ram|
    && t.bounce % m.line == 0
    && (t.bounce == t.user <==> AddrAligned(t.user, t.len, m.line))
    && (t.Bounced() ==> t.user + t.len <= t.bounce || t.bounce + t.lenAligned <= t.user)
  }

  /** Memory after the copy that start makes, before it flushes. */
  function Copied(m: Mem, t: Transfer, noise: Noise): (m': Mem)
    requires WellPlaced(m, t) && t.len <= t.lenAligned
    ensures m'.Valid() && |m'.ram| == |m.ram| && m'.line == m.line
  {
    if t.Bounced() && t.read then CopyFrom(m, t.bounce, t.user, t.len, 0, noise) else m
  }

  function StartMem(m: Mem, t: Transfer, noise: Noise): (m': Mem)
    requires WellPlaced(m, t) && t.len <= t.lenAligned
    ensures m'.Valid() && |m'.ram| == |m.ram| && m'.line == m.line
  {
    FlushRange(Copied(m, t, noise), t.bounce, t.bounce + t.lenAligned)
  }

  function StopMem(m: Mem, t: Transfer, noise: Noise): (m': Mem)
    requires WellPlaced(m, t) && t.len <= t.lenAligned
    ensures m'.Valid() && |m'.ram| == |m.ram| && m'.line == m.line
  {
    var m1 := if t.write then InvalidateRange(m, t.bounce, t.bounce + t.lenAligned) else m;
    if t.Bounced() && t.write then CopyFrom(m1, t.user, t.bounce, t.len, 0, noise) else m1
  }

  lemma RoundupBounds(len: nat, line: nat)
    requires line > 0
    ensures len <= Roundup(len, line) && Roundup(len, line) % line == 0
  {
    var q := (len + line - 1) / line;
    DivBounds(len + line - 1, line);
    MultipleMod(q, line);
  }

  // ---------------------------------------------------------------------------------
  // The code

  /** Memory, and the blocks that `memalign` has handed out. */
  class Machine {
    var mem: Mem
    var heap: map<nat, nat>

    constructor (mem: Mem)
      ensures this.mem == mem && heap == map[]
    {
      this.mem, heap := mem, map[];
    }

    /** Records the block that the allocator chose, if it had one. */
    method Memalign(choice: Option<nat>, size: nat) returns (p: Option<nat>)
      modifies this`heap
      ensures p == choice
      ensures heap == if choice.Some? then old(heap)[choice.value := size] else old(heap)
    {
      p := choice;
      if p.Some? {
        heap := heap[p.value := size];
      }
    }

    method Free(p: nat)
      requires p in heap
      modifies this`heap
      ensures heap == old(heap) - {p}
    {
      heap := heap - {p};
    }

    /** `memcpy`, while the cache does what `noise` says. */
    method Memcpy(dst: nat, src: nat, len: nat, noise: Noise)
      requires mem.Valid() && dst + len <= |mem.ram| && src + len <= |mem.ram|
      modifies this`mem
      ensures mem == CopyFrom(old(mem), dst, src, len, 0, noise)
    {
      for i := 0 to len
        invariant mem.Valid() && |mem.ram| == |old(mem).ram| && mem.line == old(mem).line
        invariant CopyFrom(old(mem), dst, src, len, 0, noise) == CopyFrom(mem, dst, src, len, i, noise)
      {
        ghost var before := mem;
        mem := Disturb(mem, noise(2 * i));
        var v := mem.View(src + i);
        mem := Disturb(mem, noise(2 * i + 1));
        mem := Store(mem, dst + i, v);
        assert mem == CopyByte(before, dst + i, src + i, i, noise);
      }
      mem := Disturb(mem, noise(2 * len));
    }
  }

  /** A block that the allocator may return: aligned, in memory, unused, and not the caller's. */
  ghost predicate GoodBlock(m: Mem, heap: map<nat, nat>, p: nat, user: nat, len: nat)
  {
    && m.Valid()
    && p % m.line == 0
    && p + Roundup(len, m.line) <= |m.ram|
    && p !in heap
    && (user + len <= p || p + Roundup(len, m.line) <= user)
    && p != user
  }

  class Bouncer {
    var userBuffer: nat
    var bounceBuffer: Option<nat>
    var len: nat
    var lenAligned: nat
    var read: bool
    var write: bool

    constructor ()
    {
    }

    ghost function AsTransfer(): Transfer
      requires bounceBuffer.Some?
      reads this
    {
      Transfer(userBuffer, bounceBuffer.value, len, lenAligned, read, write)
    }

    /** `bounce_buffer_start` */
    method Start(machine: Machine, choice: Option<nat>, data: nat, len: nat, read: bool, write: bool, noise: Noise)
      returns (err: int)
      requires machine.mem.Valid() && data + len <= |machine.mem.ram|
      requires choice.Some? ==> GoodBlock(machine.mem, machine.heap, choice.value, data, len)
      modifies this, machine
      ensures var aligned := AddrAligned(data, len, old(machine.mem).line);
              if !aligned && choice.None?
              then
                && err == -ENOMEM
                && machine.mem == old(machine.mem) && machine.heap == old(machine.heap)
              else
                && err == 0
                && bounceBuffer == (if aligned then Some(data) else choice)
                && AsTransfer() == Transfer(data, bounceBuffer.value, len, Roundup(len, old(machine.mem).line), read, write)
                && WellPlaced(old(machine.mem), AsTransfer()) && len <= lenAligned
                && machine.mem == StartMem(old(machine.mem), AsTransfer(), noise)
                && machine.heap == (if aligned then old(machine.heap)
                                    else old(machine.heap)[choice.value := lenAligned])
    {
      hide Roundup, CopyFrom, FlushRange;
      var line := machine.mem.line;
      RoundupBounds(len, line);
      userBuffer := data;
      bounceBuffer := Some(data);
      this.len := len;
      lenAligned := Roundup(len, line);
      this.read, this.write := read, write;
      if !AddrAligned(data, len, line) {
        bounceBuffer := machine.Memalign(choice, lenAligned);
        if bounceBuffer.None? {
          return -ENOMEM;
        }
        if read {
          machine.Memcpy(bounceBuffer.value, userBuffer, len, noise);
        }
      }
      machine.mem := FlushRange(machine.mem, bounceBuffer.value, bounceBuffer.value + lenAligned);
      return 0;
    }

    /** `bounce_buffer_stop`: the temporary buffer, if there is one, is freed. */
    method Stop(machine: Machine, noise: Noise) returns (err: int)
      requires bounceBuffer.Some?
      requires WellPlaced(machine.mem, AsTransfer()) && len <= lenAligned
      requires AsTransfer().Bounced() ==> bounceBuffer.value in machine.heap
      modifies machine
      ensures err == 0
      ensures machine.mem == StopMem(old(machine.mem), AsTransfer(), noise)
      ensures machine.heap == if AsTransfer().Bounced() then old(machine.heap) - {bounceBuffer.value} else old(machine.heap)
    {
      hide Roundup, CopyFrom, InvalidateRange;
      var p := bounceBuffer.value;
      if write {
        machine.mem := InvalidateRange(machine.mem, p, p + lenAligned);
      }
      if p == userBuffer {
        return 0;
      }
      if write {
        machine.Memcpy(userBuffer, p, len, noise);
      }
      machine.Free(p);
      return 0;
    }
  }

  // ---------------------------------------------------------------------------------
  // A transfer

  /** What may happen between start and stop: the processor stays off the DMA lines. */
  predicate Legal(e: Event, t: Transfer, size: nat)
  {
    match e
    case Line(_) => true
    case CpuWrite(a, _) => a < size && !t.InDma(a)
    case DeviceWrite(i, _) => t.write && i < t.lenAligned
  }

  predicate AllLegal(es: seq<Event>, t: Transfer, size: nat)
  {
    forall k :: 0 <= k < |es| ==> Legal(es[k], t, size)
  }

  function Step(m: Mem, t: Transfer, e: Event): (m': Mem)
    requires m.Valid() && t.bounce + t.lenAligned <= |m.ram| && Legal(e, t, |m.ram|)
    ensures m'.Valid() && |m'.ram| == |m.ram| && m'.line == m.line
  {
    match e
    case Line(c) => Apply(m, c)
    case CpuWrite(a, v) => Store(m, a, v)
    case DeviceWrite(i, v) => DeviceStore(m, t.bounce + i, v)
  }

  function Run(m: Mem, t: Transfer, es: seq<Event>): (m': Mem)
    requires m.Valid() && t.bounce + t.lenAligned <= |m.ram| && AllLegal(es, t, |m.ram|)
    ensures m'.Valid() && |m'.ram| == |m.ram| && m'.line == m.line
    decreases |es|
  {
    if es == [] then m else Run(Step(m, t, es[0]), t, es[1..])
  }

  // The simple picture: one flat memory that only the processor writes, and one buffer that
  // only the device writes.

  function FlatAfter(flat: seq<Byte>, es: seq<Event>): (r: seq<Byte>)
    ensures |r| == |flat|
    decreases |es|
  {
    if es == [] then flat
    else
      match es[0]
      case CpuWrite(a, v) => FlatAfter(if a < |flat| then flat[a := v] else flat, es[1..])
      case _ => FlatAfter(flat, es[1..])
  }

  function DmaAfter(dma: seq<Byte>, es: seq<Event>): (r: seq<Byte>)
    ensures |r| == |dma|
    decreases |es|
  {
    if es == [] then dma
    else
      match es[0]
      case DeviceWrite(i, v) => DmaAfter(if i < |dma| then dma[i := v] else dma, es[1..])
      case _ => DmaAfter(dma, es[1..])
  }

  /** The cache and memory stand for the simple picture, at one address. */
  ghost predicate CoupledAt(m: Mem, t: Transfer, flat: seq<Byte>, dma: seq<Byte>, a: nat)
    requires m.Valid() && a < |m.ram| == |flat| && |dma| == t.lenAligned
  {
    if t.InDma(a) then
      && !m.Dirty(a)
      && m.ram[a] == dma[a - t.bounce]
      && (!t.write ==> m.CleanAt(a))
    else
      m.View(a) == flat[a] && m.CleanAt(a)
  }

  ghost predicate Coupled(m: Mem, t: Transfer, flat: seq<Byte>, dma: seq<Byte>)
  {
    && m.Valid() && |m.ram| == |flat| && |dma| == t.lenAligned
    && t.bounce + t.lenAligned <= |m.ram|
    && m.line > 0 && t.bounce % m.line == 0 && t.lenAligned % m.line == 0
    && forall a :: 0 <= a < |m.ram| ==> CoupledAt(m, t, flat, dma, a)
  }

  lemma StepKeeps(m: Mem, t: Transfer, e: Event, flat: seq<Byte>, dma: seq<Byte>)
    requires Coupled(m, t, flat, dma) && Legal(e, t, |m.ram|)
    ensures Coupled(Step(m, t, e), t, FlatAfter(flat, [e]), DmaAfter(dma, [e]))
  {
    hide LineOf, FillLine, EvictLine, Store, DeviceStore;
    assert [e][1..] == [];
    forall a | 0 <= a < |m.ram|
      ensures CoupledAt(Step(m, t, e), t, FlatAfter(flat, [e]), DmaAfter(dma, [e]), a)
    {
      assert CoupledAt(m, t, flat, dma, a);
      match e
      case Line(Fill(l)) => FillEffect(m, l, a);
      case Line(Evict(l)) => EvictEffect(m, l, a);
      case CpuWrite(b, v) =>
        StoreEffect(m, b, v, a);
        WholeLines(m.line, t.bounce, t.lenAligned, a);
        WholeLines(m.line, t.bounce, t.lenAligned, b);
      case DeviceWrite(i, v) => DeviceStoreEffect(m, t.bounce + i, v, a);
    }
  }

  lemma {:induction false} RunKeeps(m: Mem, t: Transfer, es: seq<Event>, flat: seq<Byte>, dma: seq<Byte>)
    requires Coupled(m, t, flat, dma) && AllLegal(es, t, |m.ram|)
    ensures Coupled(Run(m, t, es), t, FlatAfter(flat, es), DmaAfter(dma, es))
    decreases |es|
  {
    hide Step, Coupled;
    if es != [] {
      CoupledShape(m, t, flat, dma);
      StepKeeps(m, t, es[0], flat, dma);
      AfterOne(es, flat, dma);
      RunKeeps(Step(m, t, es[0]), t, es[1..], FlatAfter(flat, [es[0]]), DmaAfter(dma, [es[0]]));
    }
  }

  lemma CoupledShape(m: Mem, t: Transfer, flat: seq<Byte>, dma: seq<Byte>)
    requires Coupled(m, t, flat, dma)
    ensures m.Valid() && |flat| == |m.ram| && |dma| == t.lenAligned && t.bounce + t.lenAligned <= |m.ram|
  {
  }

  lemma AfterOne(es: seq<Event>, flat: seq<Byte>, dma: seq<Byte>)
    requires es != []
    ensures FlatAfter(flat, es) == FlatAfter(FlatAfter(flat, [es[0]]), es[1..])
    ensures DmaAfter(dma, es) == DmaAfter(DmaAfter(dma, [es[0]]), es[1..])
  {
    assert [es[0]][1..] == [];
  }

  function DmaOf(m: Mem, t: Transfer): (s: seq<Byte>)
    requires m.Valid() && t.bounce + t.lenAligned <= |m.ram|
    ensures |s| == t.lenAligned
    ensures forall i :: 0 <= i < |s| ==> s[i] == m.ram[t.bounce + i]
  {
    m.ram[t.bounce..t.bounce + t.lenAligned]
  }

  lemma CopiedAt(m: Mem, t: Transfer, noise: Noise, a: nat)
    requires WellPlaced(m, t) && t.len <= t.lenAligned && m.Coherent() && a < |m.ram|
    ensures Copied(m, t, noise).CleanAt(a)
    ensures !t.InDma(a) || !t.Bounced() ==> Copied(m, t, noise).View(a) == m.View(a)
    ensures t.Bounced() && t.read && t.bounce <= a < t.bounce + t.len ==>
              Copied(m, t, noise).View(a) == m.View(t.user + (a - t.bounce))
  {
    hide LineOf, CopyFrom, CopyBytes, Roundup, Mem.View;
    assert m.CleanAt(a);
    if t.Bounced() && t.read {
      var m1 := CopyFrom(m, t.bounce, t.user, t.len, 0, noise);
      CopyEffect(m, t.bounce, t.user, t.len, 0, noise);
      CopyMoves(Visible(m), t.bounce, t.user, t.len, 0, a);
      assert m1.CleanAt(a) && Visible(m1)[a] == m1.View(a);
    }
  }

  lemma StartedAt(m: Mem, t: Transfer, noise: Noise, a: nat)
    requires WellPlaced(m, t) && t.len <= t.lenAligned && m.Coherent() && a < |m.ram|
    ensures CoupledAt(StartMem(m, t, noise), t, Visible(m), DmaOf(StartMem(m, t, noise), t), a)
    ensures t.InDma(a) ==> StartMem(m, t, noise).ram[a] == Copied(m, t, noise).View(a)
  {
    hide LineOf, FlushRange, Roundup, Copied;
    RoundupBounds(t.len, m.line);
    CopiedAt(m, t, noise, a);
    FlushEffect(Copied(m, t, noise), t.bounce, t.bounce + t.lenAligned, a);
    WholeLines(m.line, t.bounce, t.lenAligned, a);
  }

  lemma StartFetches(m: Mem, t: Transfer, noise: Noise)
    requires WellPlaced(m, t) && t.len <= t.lenAligned && m.Coherent() && (t.read || !t.Bounced())
    ensures DmaOf(StartMem(m, t, noise), t)[..t.len] == Visible(m)[t.user..t.user + t.len]
  {
    hide LineOf, StartMem, Copied, Roundup, CoupledAt, Mem.Coherent;
    var m' := StartMem(m, t, noise);
    forall i | 0 <= i < t.len
      ensures DmaOf(m', t)[i] == Visible(m)[t.user + i]
    {
      StartedAt(m, t, noise, t.bounce + i);
      CopiedAt(m, t, noise, t.bounce + i);
    }
  }

  /** After start the device sees the caller's bytes, and nothing else has changed. */
  lemma StartCouples(m: Mem, t: Transfer, noise: Noise, flat: seq<Byte>)
    requires WellPlaced(m, t) && t.len <= t.lenAligned && m.Coherent()
    requires flat == Visible(m)
    ensures var m' := StartMem(m, t, noise);
            && Coupled(m', t, flat, DmaOf(m', t))
            && (t.read || !t.Bounced() ==> DmaOf(m', t)[..t.len] == flat[t.user..t.user + t.len])
  {
    hide LineOf, StartMem, Copied, Roundup, CoupledAt, Visible, DmaOf;
    RoundupBounds(t.len, m.line);
    var m' := StartMem(m, t, noise);
    forall a | 0 <= a < |m.ram|
      ensures CoupledAt(m', t, flat, DmaOf(m', t), a)
    {
      StartedAt(m, t, noise, a);
    }
    if t.read || !t.Bounced() {
      StartFetches(m, t, noise);
    }
  }

  /** Invalidating the DMA lines makes memory coherent, and the device's bytes visible. */
  lemma InvalidateDelivers(m: Mem, t: Transfer, flat: seq<Byte>, dma: seq<Byte>)
    requires Coupled(m, t, flat, dma)
    ensures var m1 := InvalidateRange(m, t.bounce, t.bounce + t.lenAligned);
            && m1.Coherent()
            && forall a :: 0 <= a < |m.ram| ==> m1.View(a) == if t.InDma(a) then dma[a - t.bounce] else flat[a]
  {
    hide LineOf, InvalidateRange, Mem.View, Mem.CleanAt;
    var m1 := InvalidateRange(m, t.bounce, t.bounce + t.lenAligned);
    forall a | 0 <= a < |m.ram|
      ensures m1.CleanAt(a) && m1.View(a) == if t.InDma(a) then dma[a - t.bounce] else flat[a]
    {
      assert CoupledAt(m, t, flat, dma, a);
      InvalidateEffect(m, t.bounce, t.bounce + t.lenAligned, a);
      WholeLines(m.line, t.bounce, t.lenAligned, a);
    }
  }

  /** Stop turns the simple picture into what the processor sees. */
  lemma StopDelivers(m: Mem, t: Transfer, noise: Noise, flat: seq<Byte>, dma: seq<Byte>, a: nat)
    requires Coupled(m, t, flat, dma) && WellPlaced(m, t) && t.len <= t.lenAligned && a < |m.ram|
    ensures StopMem(m, t, noise).CleanAt(a)
    ensures !(t.Bounced() && t.InDma(a)) && t.write && t.InUser(a) ==> StopMem(m, t, noise).View(a) == dma[a - t.user]
    ensures !t.InDma(a) && !(t.write && t.InUser(a)) ==> StopMem(m, t, noise).View(a) == flat[a]
    ensures t.InDma(a) && !t.write ==> StopMem(m, t, noise).View(a) == dma[a - t.bounce]
  {
    hide LineOf, CopyFrom, CopyBytes, InvalidateRange, Roundup, Visible;
    assert CoupledAt(m, t, flat, dma, a);
    if t.write {
      var m1 := InvalidateRange(m, t.bounce, t.bounce + t.lenAligned);
      InvalidateDelivers(m, t, flat, dma);
      assert m1.CleanAt(a);
      if t.Bounced() {
        var m2 := CopyFrom(m1, t.user, t.bounce, t.len, 0, noise);
        CopyEffect(m1, t.user, t.bounce, t.len, 0, noise);
        CopyMoves(Visible(m1), t.user, t.bounce, t.len, 0, a);
        assert m2.CleanAt(a) && Visible(m2)[a] == m2.View(a);
      }
    }
  }

  lemma {:induction false} FlatKeepsDma(t: Transfer, es: seq<Event>, flat: seq<Byte>, a: nat)
    requires AllLegal(es, t, |flat|) && t.InDma(a) && a < |flat|
    ensures FlatAfter(flat, es)[a] == flat[a]
    decreases |es|
  {
    if es != [] {
      var next := match es[0] case CpuWrite(b, v) => (if b < |flat| then flat[b := v] else flat) case _ => flat;
      assert Legal(es[0], t, |flat|);
      FlatKeepsDma(t, es[1..], next, a);
    }
  }

  lemma {:induction false} DmaWithoutWrites(t: Transfer, es: seq<Event>, dma: seq<Byte>, size: nat)
    requires AllLegal(es, t, size) && !t.write
    ensures DmaAfter(dma, es) == dma
    decreases |es|
  {
    if es != [] {
      assert Legal(es[0], t, size);
      DmaWithoutWrites(t, es[1..], dma, size);
    }
  }

  /** A whole transfer: start, what happens between start and stop, and stop. */
  function Transferred(m: Mem, t: Transfer, before: Noise, es: seq<Event>, after: Noise): Mem
    requires WellPlaced(m, t) && t.len <= t.lenAligned && AllLegal(es, t, |m.ram|)
  {
    StopMem(Run(StartMem(m, t, before), t, es), t, after)
  }

  lemma RunStaysPlaced(m: Mem, t: Transfer, before: Noise, es: seq<Event>)
    requires WellPlaced(m, t) && t.len <= t.lenAligned && AllLegal(es, t, |m.ram|)
    ensures WellPlaced(Run(StartMem(m, t, before), t, es), t)
  {
    hide StartMem, Run, Roundup;
  }

  /**
   Whether or not the buffer is bounced, for every interleaving of fills, evictions, processor
   writes and device writes, and whatever the cache does in the middle of the copies:
   - the device finds the caller's bytes as of start (if it is to read them), and what it has
     written since;
   - afterwards the caller's buffer holds the final DMA contents (if the device was to write);
   - every other byte that the processor sees is as the processor itself left it, neighbours on
     the same cache line included;
   - the cache is coherent again.
   */
  lemma TransferCorrect(m: Mem, t: Transfer, before: Noise, es: seq<Event>, after: Noise)
    requires WellPlaced(m, t) && t.len <= t.lenAligned && m.Coherent()
    requires AllLegal(es, t, |m.ram|)
    ensures var started := StartMem(m, t, before);
            && (t.read || !t.Bounced() ==> DmaOf(started, t)[..t.len] == Visible(m)[t.user..t.user + t.len])
            && DmaOf(Run(started, t, es), t) == DmaAfter(DmaOf(started, t), es)
    ensures WellPlaced(Run(StartMem(m, t, before), t, es), t) && Transferred(m, t, before, es, after).Coherent()
    ensures forall a :: 0 <= a < |m.ram| && !(t.Bounced() && t.InDma(a)) ==>
              Transferred(m, t, before, es, after).View(a) ==
                if t.write && t.InUser(a)
                then DmaOf(Run(StartMem(m, t, before), t, es), t)[a - t.user]
                else FlatAfter(Visible(m), es)[a]
  {
    hide LineOf, StartMem, StopMem, Run, Roundup, FlatAfter, DmaAfter;
    var flat, dma := Visible(m), DmaOf(StartMem(m, t, before), t);
    var m2 := Run(StartMem(m, t, before), t, es);
    StartCouples(m, t, before, flat);
    RunKeeps(StartMem(m, t, before), t, es, flat, dma);
    RunStaysPlaced(m, t, before, es);
    assert DmaOf(m2, t) == DmaAfter(dma, es) by {
      forall i | 0 <= i < t.lenAligned
        ensures DmaOf(m2, t)[i] == DmaAfter(dma, es)[i]
      {
        assert CoupledAt(m2, t, FlatAfter(flat, es), DmaAfter(dma, es), t.bounce + i);
      }
    }
    forall a | 0 <= a < |m.ram|
      ensures StopMem(m2, t, after).CleanAt(a)
      ensures !(t.Bounced() && t.InDma(a)) ==>
                StopMem(m2, t, after).View(a) ==
                  if t.write && t.InUser(a) then DmaOf(m2, t)[a - t.user] else FlatAfter(flat, es)[a]
    {
      StopDelivers(m2, t, after, FlatAfter(flat, es), DmaAfter(dma, es), a);
      if t.InDma(a) && !t.Bounced() && !t.write {
        FlatKeepsDma(t, es, flat, a);
        DmaWithoutWrites(t, es, dma, |m.ram|);
        assert dma[..t.len][a - t.user] == flat[t.user..t.user + t.len][a - t.user];
      }
    }
  }

  /** Start, whatever happens meanwhile, and stop: the allocator ends up as it was. */
  method Transact(
    machine: Machine, choice: Option<nat>, data: nat, len: nat, read: bool, write: bool,
    before: Noise, es: seq<Event>, after: Noise)
    returns (err: int)
    requires machine.mem.Valid() && data + len <= |machine.mem.ram|
    requires choice.Some? ==> GoodBlock(machine.mem, machine.heap, choice.value, data, len)
    requires var line := machine.mem.line;
             var p := if AddrAligned(data, len, line) then Some(data) else choice;
             p.Some? ==> AllLegal(es, Transfer(data, p.value, len, Roundup(len, line), read, write), |machine.mem.ram|)
    modifies machine
    ensures machine.heap == old(machine.heap)
    ensures err != 0 <==> !AddrAligned(data, len, old(machine.mem).line) && choice.None?
    ensures err != 0 ==> machine.mem == old(machine.mem)
    ensures err == 0 ==>
              var line := old(machine.mem).line;
              var p := if AddrAligned(data, len, line) then data else choice.value;
              var t := Transfer(data, p, len, Roundup(len, line), read, write);
              && WellPlaced(old(machine.mem), t) && t.len <= t.lenAligned
              && machine.mem == Transferred(old(machine.mem), t, before, es, after)
  {
    hide StartMem, StopMem, Run, Roundup;
    var b := new Bouncer();
    err := b.Start(machine, choice, data, len, read, write, before);
    if err != 0 {
      return;
    }
    ghost var t := b.AsTransfer();
    RunStaysPlaced(old(machine.mem), t, before, es);
    machine.mem := Run(machine.mem, Transfer(data, b.bounceBuffer.value, len, b.lenAligned, read, write), es);
    err := b.Stop(machine, after);
  }
}
