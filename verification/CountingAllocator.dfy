/**
  The counting allocator as any number of threads taking interleaved atomic steps over shared counters.

  Every atomic load, fetch-add and compare-and-swap is one step. A compare-and-swap may fail spuriously, and the
  plain loads that start a retry loop on the peak or on the live count may return stale values.
 */
module CountingAllocator {
  import opened Bytes
  import opened Collections

  type Ptr = nat
  type Tid = nat

  /** `sizeof(AllocHdr)`. */
  const HEADER: nat := 8
  const MAX_USER_SIZE: nat := U64_LIMIT - 1 - HEADER

  /** What a thread does once fault injection lets it through. */
  datatype Request = Malloc(size: nat) | Realloc(p: Ptr, size: nat)

  /** Where a thread stands, with the locals it carries. */
  datatype Pc =
    | Idle
    | FaultLoad(req: Request)
    | FaultCas(req: Request, seen: int)
    | Allocate(req: Request)
    | CountAlloc(p: Ptr)
    | CountRealloc(p: Ptr, oldSize: nat)
    | CountFree(p: Ptr)
    | AddLive(p: Ptr, amount: nat)
    | PeakLoad(live: nat)
    | PeakCas(live: nat, seenPeak: nat)
    | SubLoad(p: Ptr, amount: nat, freeing: bool)
    | SubCas(p: Ptr, amount: nat, freeing: bool, seenLive: nat)
    | Release(p: Ptr)

  /**
    `heap` maps each allocation to the size in its header. The rest of the last line is history: the part of each
    allocation that is in `live` so far, the largest `live` ever, and the last fault budget with the calls let
    through since it was set.
   */
  datatype World = World(
    live: nat, peak: nat, countdown: int, allocs: nat, frees: nat, reallocs: nat,
    heap: map<Ptr, nat>, threads: map<Tid, Pc>,
    counted: map<Ptr, nat>, top: nat, budget: int, granted: nat)

  function Init(): World
  {
    World(0, 0, -1, 0, 0, 0, map[], map[], map[], 0, -1, 0)
  }

  function PcOf(w: World, t: Tid): Pc
  {
    if t in w.threads then w.threads[t] else Idle
  }

  function Target(req: Request): Option<Ptr>
  {
    if req.Realloc? then Some(req.p) else None
  }

  /** The allocation a thread is working on, if its counting is not finished. */
  function Busy(pc: Pc): Option<Ptr>
  {
    match pc
    case FaultLoad(req) => Target(req)
    case FaultCas(req, _) => Target(req)
    case Allocate(req) => Target(req)
    case CountAlloc(p) => Some(p)
    case CountRealloc(p, _) => Some(p)
    case CountFree(p) => Some(p)
    case AddLive(p, _) => Some(p)
    case SubLoad(p, _, _) => Some(p)
    case SubCas(p, _, _, _) => Some(p)
    case Release(p) => Some(p)
    case _ => None
  }

  ghost predicate IsFree(w: World, p: Ptr)
  {
    p in w.heap && forall t :: t in w.threads ==> Busy(w.threads[t]) != Some(p)
  }

  datatype Step =
    | CallMalloc(t: Tid, size: nat)
    | CallCalloc(t: Tid, count: nat, size: nat)
    | CallRealloc(t: Tid, ptr: Option<Ptr>, size: nat)
    | CallFree(t: Tid, ptr: Option<Ptr>)
    | LoadCountdown(t: Tid)
    | CasCountdown(t: Tid, spurious: bool)
    | SystemAllocate(t: Tid, result: Option<Ptr>)
    | BumpCounter(t: Tid)
    | FetchAddLive(t: Tid)
    | LoadPeak(t: Tid, value: nat)
    | CasPeak(t: Tid, spurious: bool)
    | LoadLive(t: Tid, value: nat)
    | CasLive(t: Tid, spurious: bool)
    | SystemFree(t: Tid)
    | SetFaultCountdown(n: int)
    | ClearFault

  /** The overflow test of `mcalloc`. */
  predicate CallocOverflows(count: nat, size: nat)
  {
    count != 0 && size > (U64_LIMIT - 1) / count
  }

  /**
    A step a thread may take next. Callers pass only pointers they hold, so no block is freed or resized twice at
    once; the system allocator returns blocks not in use; and the counted bytes fit in 64 bits.
   */
  ghost predicate Enabled(w: World, s: Step)
  {
    match s
    case CallMalloc(t, size) => PcOf(w, t).Idle? && size < U64_LIMIT
    case CallCalloc(t, count, size) => PcOf(w, t).Idle? && count < U64_LIMIT && size < U64_LIMIT
    case CallRealloc(t, ptr, size) => PcOf(w, t).Idle? && size < U64_LIMIT && (ptr.Some? ==> IsFree(w, ptr.value))
    case CallFree(t, ptr) => PcOf(w, t).Idle? && (ptr.Some? ==> IsFree(w, ptr.value))
    case LoadCountdown(t) => PcOf(w, t).FaultLoad?
    case CasCountdown(t, _) => PcOf(w, t).FaultCas?
    case SystemAllocate(t, result) =>
      && PcOf(w, t).Allocate?
      && (result.Some? ==>
            result.value !in w.heap || (PcOf(w, t).req.Realloc? && result.value == PcOf(w, t).req.p))
    case BumpCounter(t) => PcOf(w, t).CountAlloc? || PcOf(w, t).CountRealloc? || PcOf(w, t).CountFree?
    case FetchAddLive(t) => PcOf(w, t).AddLive? && w.live + PcOf(w, t).amount < U64_LIMIT
    case LoadPeak(t, value) => PcOf(w, t).PeakLoad? && value <= w.peak
    case CasPeak(t, _) => PcOf(w, t).PeakCas?
    case LoadLive(t, _) => PcOf(w, t).SubLoad?
    case CasLive(t, _) => PcOf(w, t).SubCas?
    case SystemFree(t) => PcOf(w, t).Release?
    case SetFaultCountdown(_) => true
    case ClearFault => true
  }

  function Goto(w: World, t: Tid, pc: Pc): World
  {
    w.(threads := w.threads[t := pc])
  }

  /** Acting on a value of the countdown: off, exhausted, or to be decremented. */
  function OnCountdown(w: World, t: Tid, req: Request, value: int): World
  {
    if value < 0 then Goto(w.(granted := w.granted + 1), t, Allocate(req))
    else if value == 0 then Goto(w, t, Idle)
    else Goto(w, t, FaultCas(req, value))
  }

  /** The saturating subtraction of `sub_mem_stats_live`. */
  function Saturating(a: nat, b: nat): nat
  {
    if a >= b then a - b else 0
  }

  /** The loop test of `update_mem_peak` on a value of the peak. */
  function OnPeak(w: World, t: Tid, live: nat, value: nat): World
  {
    if live > value then Goto(w, t, PeakCas(live, value)) else Goto(w, t, Idle)
  }

  function OnCasCountdown(w: World, t: Tid, pc: Pc, spurious: bool): World
    requires pc.FaultCas?
  {
    if !spurious && w.countdown == pc.seen then
      Goto(w.(countdown := w.countdown - 1, granted := w.granted + 1), t, Allocate(pc.req))
    else
      OnCountdown(w, t, pc.req, w.countdown)
  }

  /** The size test and the call to the system allocator in `mmalloc` and `mrealloc`. */
  function OnAllocate(w: World, t: Tid, req: Request, result: Option<Ptr>): World
    requires req.Realloc? ==> req.p in w.heap && req.p in w.counted
  {
    if req.size > MAX_USER_SIZE || result.None? then
      Goto(w, t, Idle)
    else if req.Malloc? then
      Goto(w.(heap := w.heap[result.value := req.size], counted := w.counted[result.value := 0]),
           t, CountAlloc(result.value))
    else
      Goto(w.(heap := (w.heap - {req.p})[result.value := req.size],
              counted := (w.counted - {req.p})[result.value := w.counted[req.p]]),
           t, CountRealloc(result.value, w.heap[req.p]))
  }

  function OnCounter(w: World, t: Tid, pc: Pc): World
    requires (pc.CountAlloc? || pc.CountFree? || pc.CountRealloc?) && pc.p in w.heap
  {
    var size := w.heap[pc.p];
    match pc
    case CountAlloc(p) => Goto(w.(allocs := w.allocs + 1), t, AddLive(p, size))
    case CountFree(p) => Goto(w.(frees := w.frees + 1), t, SubLoad(p, size, true))
    case CountRealloc(p, oldSize) =>
      Goto(w.(reallocs := w.reallocs + 1), t,
           if size >= oldSize then AddLive(p, size - oldSize) else SubLoad(p, oldSize - size, false))
  }

  function OnAddLive(w: World, t: Tid, pc: Pc): World
    requires pc.AddLive? && pc.p in w.counted
  {
    var live := w.live + pc.amount;
    Goto(w.(live := live, counted := w.counted[pc.p := w.counted[pc.p] + pc.amount],
            top := if live > w.top then live else w.top),
         t, PeakLoad(live))
  }

  function OnCasPeak(w: World, t: Tid, pc: Pc, spurious: bool): World
    requires pc.PeakCas?
  {
    if !spurious && w.peak == pc.seenPeak then Goto(w.(peak := pc.live), t, Idle)
    else OnPeak(w, t, pc.live, w.peak)
  }

  function OnCasLive(w: World, t: Tid, pc: Pc, spurious: bool): World
    requires pc.SubCas? && pc.p in w.counted
  {
    if !spurious && w.live == pc.seenLive then
      Goto(w.(live := Saturating(w.live, pc.amount),
              counted := w.counted[pc.p := Saturating(w.counted[pc.p], pc.amount)]),
           t, if pc.freeing then Release(pc.p) else Idle)
    else
      Goto(w, t, pc.(seenLive := w.live))
  }

  function OnRelease(w: World, t: Tid, p: Ptr): World
  {
    Goto(w.(heap := w.heap - {p}, counted := w.counted - {p}), t, Idle)
  }

  /** The world after a step. */
  function Do(w: World, s: Step): World
    requires Enabled(w, s) && ThreadsOk(w)
  {
    match s
    case CallMalloc(t, size) => Goto(w, t, FaultLoad(Malloc(size)))
    case CallCalloc(t, count, size) =>
      if CallocOverflows(count, size) then w else Goto(w, t, FaultLoad(Malloc(count * size)))
    case CallRealloc(t, ptr, size) =>
      if ptr.None? then Goto(w, t, FaultLoad(Malloc(size)))
      else if size == 0 then Goto(w, t, CountFree(ptr.value))
      else Goto(w, t, FaultLoad(Realloc(ptr.value, size)))
    case CallFree(t, ptr) => if ptr.None? then w else Goto(w, t, CountFree(ptr.value))
    case LoadCountdown(t) => OnCountdown(w, t, PcOf(w, t).req, w.countdown)
    case CasCountdown(t, spurious) => OnCasCountdown(w, t, PcOf(w, t), spurious)
    case SystemAllocate(t, result) => OnAllocate(w, t, PcOf(w, t).req, result)
    case BumpCounter(t) => OnCounter(w, t, PcOf(w, t))
    case FetchAddLive(t) => OnAddLive(w, t, PcOf(w, t))
    case LoadPeak(t, value) => OnPeak(w, t, PcOf(w, t).live, value)
    case CasPeak(t, spurious) => OnCasPeak(w, t, PcOf(w, t), spurious)
    case LoadLive(t, value) =>
      var pc := PcOf(w, t);
      Goto(w, t, SubCas(pc.p, pc.amount, pc.freeing, value))
    case CasLive(t, spurious) => OnCasLive(w, t, PcOf(w, t), spurious)
    case SystemFree(t) => OnRelease(w, t, PcOf(w, t).p)
    case SetFaultCountdown(n) => w.(countdown := n, budget := n, granted := 0)
    case ClearFault => w.(countdown := -1, budget := -1, granted := 0)
  }

  // ---------------------------------------------------------------- invariant

  ghost function Sum(m: map<Ptr, nat>): nat
  {
    if m == map[] then 0 else var k :| k in m; m[k] + Sum(m - {k})
  }

  ghost predicate RequestOk(w: World, req: Request)
    requires w.heap.Keys == w.counted.Keys
  {
    req.Realloc? ==> req.p in w.heap && w.counted[req.p] == w.heap[req.p]
  }

  /** What a thread's position says about the allocation it works on. */
  ghost predicate PcOk(w: World, pc: Pc)
    requires w.heap.Keys == w.counted.Keys
  {
    match pc
    case FaultLoad(req) => RequestOk(w, req)
    case FaultCas(req, seen) => RequestOk(w, req) && seen > 0
    case Allocate(req) => RequestOk(w, req)
    case CountAlloc(p) => p in w.heap && w.counted[p] == 0
    case CountRealloc(p, oldSize) => p in w.heap && w.counted[p] == oldSize
    case CountFree(p) => p in w.heap && w.counted[p] == w.heap[p]
    case AddLive(p, amount) => p in w.heap && w.counted[p] + amount == w.heap[p]
    case SubLoad(p, amount, freeing) =>
      p in w.heap && w.counted[p] == amount + (if freeing then 0 else w.heap[p])
    case SubCas(p, amount, freeing, _) =>
      p in w.heap && w.counted[p] == amount + (if freeing then 0 else w.heap[p])
    case Release(p) => p in w.heap && w.counted[p] == 0
    case PeakLoad(live) => live <= w.top
    case PeakCas(live, seen) => live <= w.top && seen <= w.peak && seen < live
    case _ => true
  }

  /** The `live` value a thread still has to fold into the peak. */
  ghost predicate Pending(pc: Pc, live: nat)
  {
    (pc.PeakLoad? || pc.PeakCas?) && pc.live == live
  }

  ghost predicate PeakOk(w: World)
  {
    && w.live <= w.top && w.peak <= w.top
    && (w.peak == w.top || exists t :: t in w.threads && Pending(w.threads[t], w.top))
  }

  ghost predicate BudgetOk(w: World)
  {
    && (w.budget >= 0 ==> w.countdown >= 0 && w.granted + w.countdown == w.budget)
    && (w.budget < 0 ==> w.countdown == w.budget)
  }

  ghost predicate ThreadsOk(w: World)
  {
    && w.heap.Keys == w.counted.Keys
    && (forall t :: t in w.threads ==> PcOk(w, w.threads[t]))
    && (forall t, u :: t in w.threads && u in w.threads && t != u && Busy(w.threads[t]).Some? ==>
          Busy(w.threads[t]) != Busy(w.threads[u]))
    && (forall p: Ptr :: IsFree(w, p) ==> w.counted[p] == w.heap[p])
  }

  ghost predicate Inv(w: World)
  {
    ThreadsOk(w) && w.live == Sum(w.counted) && PeakOk(w) && BudgetOk(w)
  }

  // ---------------------------------------------------------------- sums

  lemma {:induction false} SumRemove(m: map<Ptr, nat>, p: Ptr)
    requires p in m
    ensures Sum(m) == m[p] + Sum(m - {p})
    decreases |m|
  {
    var k :| k in m && Sum(m) == m[k] + Sum(m - {k});
    if k != p {
      SumRemove(m - {k}, p);
      SumRemove(m - {p}, k);
      assert m - {k} - {p} == m - {p} - {k};
    }
  }

  lemma SumUpdate(m: map<Ptr, nat>, p: Ptr, v: nat)
    ensures Sum(m[p := v]) == Sum(m - {p}) + v
    ensures p in m ==> Sum(m[p := v]) == Sum(m) - m[p] + v
    ensures p !in m ==> Sum(m[p := v]) == Sum(m) + v
  {
    var m' := m[p := v];
    SumRemove(m', p);
    assert m' - {p} == m - {p};
    if p in m {
      SumRemove(m, p);
    } else {
      assert m - {p} == m;
    }
  }

  // ---------------------------------------------------------------- every step keeps the invariant

  /** Allocation `p` and what is counted of it are as they were. */
  ghost predicate SamePtr(w: World, w': World, p: Ptr)
  {
    && (p in w.heap <==> p in w'.heap) && (p in w.counted <==> p in w'.counted)
    && (p in w.heap && p in w.counted ==> w'.heap[p] == w.heap[p] && w'.counted[p] == w.counted[p])
  }

  /** The pointer a thread turns to was its own, or in nobody's hands, or did not exist. */
  ghost predicate MayTake(w: World, t: Tid, next: Option<Ptr>)
  {
    next.Some? ==> next == Busy(PcOf(w, t)) || next.value !in w.heap || IsFree(w, next.value)
  }

  /** A step of thread `t` that touches only the pointer it leaves and the one it turns to keeps everyone's claims. */
  lemma ThreadStep(w: World, w': World, t: Tid, pc: Pc)
    requires ThreadsOk(w) && w'.threads == w.threads[t := pc]
    requires w'.heap.Keys == w'.counted.Keys && PcOk(w', pc)
    requires w.top <= w'.top && w.peak <= w'.peak
    requires MayTake(w, t, Busy(pc))
    requires forall p: Ptr :: Busy(PcOf(w, t)) != Some(p) && Busy(pc) != Some(p) ==> SamePtr(w, w', p)
    requires Busy(pc).Some? && IsFree(w, Busy(pc).value) ==> SamePtr(w, w', Busy(pc).value)
    requires Busy(PcOf(w, t)).Some? && Busy(PcOf(w, t)) != Busy(pc) ==>
               var p := Busy(PcOf(w, t)).value; p in w'.heap ==> w'.counted[p] == w'.heap[p]
    ensures ThreadsOk(w')
  {
    forall u | u in w.threads && u != t
      ensures PcOk(w', w.threads[u]) && (Busy(pc).Some? ==> Busy(w.threads[u]) != Busy(pc))
    {
      assert PcOk(w, w.threads[u]);
      if Busy(w.threads[u]).Some? {
        var p := Busy(w.threads[u]).value;
        assert p in w.heap;
        assert t in w.threads ==> Busy(w.threads[t]) != Some(p);
        assert SamePtr(w, w', p);
      }
    }
    forall p: Ptr | IsFree(w', p)
      ensures w'.counted[p] == w'.heap[p]
    {
      assert t in w'.threads && w'.threads[t] == pc;
      if Busy(PcOf(w, t)) != Some(p) {
        assert SamePtr(w, w', p);
        forall u | u in w.threads
          ensures Busy(w.threads[u]) != Some(p)
        {
          if u != t {
            assert w'.threads[u] == w.threads[u];
          }
        }
        assert IsFree(w, p);
      }
    }
  }

  /** A step that changes only what is counted of the thread's own allocation. */
  lemma CountedStep(w: World, w': World, t: Tid, pc: Pc, p: Ptr, v: nat)
    requires ThreadsOk(w) && Busy(PcOf(w, t)) == Some(p) && p in w.heap
    requires w'.threads == w.threads[t := pc] && w'.heap == w.heap && w'.counted == w.counted[p := v]
    requires w.top <= w'.top && w.peak <= w'.peak
    requires w'.heap.Keys == w'.counted.Keys && PcOk(w', pc)
    requires Busy(pc) == Some(p) || (Busy(pc) == None && v == w.heap[p])
    ensures ThreadsOk(w')
  {
    hide PcOk;
    assert forall q: Ptr :: q != p ==> SamePtr(w, w', q);
    assert !IsFree(w, p);
    ThreadStep(w, w', t, pc);
  }

  /** A step that leaves the peak, the top and the pending values alone keeps the peak exact. */
  lemma PeakStep(w: World, w': World, t: Tid, pc: Pc)
    requires PeakOk(w) && w'.threads == w.threads[t := pc]
    requires w'.peak == w.peak && w'.top == w.top && w'.live <= w'.top
    requires forall v: nat :: Pending(PcOf(w, t), v) && v > w.peak ==> Pending(pc, v)
    ensures PeakOk(w')
  {
    if w.peak != w.top {
      var u :| u in w.threads && Pending(w.threads[u], w.top);
      assert u in w'.threads && Pending(w'.threads[u], w'.top);
    }
  }

  /** Starting a call, or moving on without touching the counters. */
  lemma GotoInv(w: World, t: Tid, pc: Pc)
    requires Inv(w) && PcOk(w, pc) && MayTake(w, t, Busy(pc))
    requires Busy(PcOf(w, t)).None? || Busy(pc) == Busy(PcOf(w, t)) || Settled(w, Busy(PcOf(w, t)).value)
    requires forall v: nat :: Pending(PcOf(w, t), v) && v > w.peak ==> Pending(pc, v)
    ensures Inv(Goto(w, t, pc))
  {
    var w' := Goto(w, t, pc);
    assert w.heap.Keys == w.counted.Keys && PcOk(w', pc);
    hide ThreadsOk, PeakOk, PcOk, IsFree, Sum;
    PeakStep(w, w', t, pc);
    ThreadStep(w, w', t, pc);
  }

  /** All of allocation `p` is counted. */
  ghost predicate Settled(w: World, p: Ptr)
  {
    p in w.heap && p in w.counted ==> w.counted[p] == w.heap[p]
  }

  lemma PcOkOf(w: World, t: Tid)
    requires ThreadsOk(w)
    ensures PcOk(w, PcOf(w, t))
  {
  }

  /** The invariant does not depend on the event counters. */
  lemma CountersInv(w: World, allocs: nat, frees: nat, reallocs: nat)
    requires Inv(w)
    ensures Inv(w.(allocs := allocs, frees := frees, reallocs := reallocs))
  {
    var w' := w.(allocs := allocs, frees := frees, reallocs := reallocs);
    SameThreads(w, w');
  }

  lemma SameThreads(w: World, w': World)
    requires ThreadsOk(w) && w'.heap == w.heap && w'.counted == w.counted && w'.threads == w.threads
    requires w'.top == w.top && w'.peak == w.peak
    ensures ThreadsOk(w')
  {
    forall p: Ptr | IsFree(w', p)
      ensures w'.counted[p] == w'.heap[p]
    {
      assert IsFree(w, p);
    }
    forall t | t in w'.threads
      ensures PcOk(w', w'.threads[t])
    {
      assert PcOk(w, w.threads[t]);
    }
  }

  /** `w'` differs from `w` in the fault countdown and its history alone. */
  ghost predicate SameButBudget(w: World, w': World)
  {
    w' == w.(countdown := w'.countdown, granted := w'.granted, budget := w'.budget)
  }

  lemma BudgetInv(w: World, w': World)
    requires Inv(w) && SameButBudget(w, w') && BudgetOk(w')
    ensures Inv(w')
  {
    SameThreads(w, w');
  }

  /** Moving through the fault check keeps the request and what it holds. */
  lemma RequestStepInv(w: World, t: Tid, pc: Pc)
    requires Inv(w) && (PcOf(w, t).FaultLoad? || PcOf(w, t).FaultCas?)
    requires pc == Idle || pc == Allocate(PcOf(w, t).req) || (pc.FaultCas? && pc.seen > 0 && pc.req == PcOf(w, t).req)
    ensures Inv(Goto(w, t, pc))
  {
    PcOkOf(w, t);
    hide ThreadsOk, PeakOk;
    GotoInv(w, t, pc);
  }

  lemma OnCountdownInv(w: World, t: Tid, req: Request)
    requires Inv(w) && (PcOf(w, t) == FaultLoad(req) || (PcOf(w, t).FaultCas? && PcOf(w, t).req == req))
    ensures Inv(OnCountdown(w, t, req, w.countdown))
  {
    hide ThreadsOk, PeakOk;
    if w.countdown < 0 {
      BudgetInv(w, w.(granted := w.granted + 1));
      RequestStepInv(w.(granted := w.granted + 1), t, Allocate(req));
    } else {
      RequestStepInv(w, t, if w.countdown == 0 then Idle else FaultCas(req, w.countdown));
    }
  }

  lemma OnCasCountdownInv(w: World, t: Tid, spurious: bool)
    requires Inv(w) && PcOf(w, t).FaultCas?
    ensures Inv(OnCasCountdown(w, t, PcOf(w, t), spurious))
  {
    hide Inv;
    if !spurious && w.countdown == PcOf(w, t).seen {
      CountdownTakenInv(w, w.(countdown := w.countdown - 1, granted := w.granted + 1), t);
    } else {
      OnCountdownInv(w, t, PcOf(w, t).req);
    }
  }

  lemma CountdownTakenInv(w: World, w': World, t: Tid)
    requires Inv(w) && PcOf(w, t).FaultCas? && w.countdown == PcOf(w, t).seen
    requires w' == w.(countdown := w.countdown - 1, granted := w.granted + 1)
    ensures Inv(Goto(w', t, Allocate(PcOf(w, t).req)))
  {
    CountdownSpends(w, w', t);
    assert SameButBudget(w, w') && PcOf(w', t) == PcOf(w, t);
    hide *;
    BudgetInv(w, w');
    RequestStepInv(w', t, Allocate(PcOf(w, t).req));
  }

  lemma CountdownSpends(w: World, w': World, t: Tid)
    requires ThreadsOk(w) && BudgetOk(w) && PcOf(w, t).FaultCas? && w.countdown == PcOf(w, t).seen
    requires w' == w.(countdown := w.countdown - 1, granted := w.granted + 1)
    ensures BudgetOk(w')
  {
    PcOkOf(w, t);
  }

  lemma OnAllocateInv(w: World, t: Tid, result: Option<Ptr>)
    requires Inv(w) && PcOf(w, t).Allocate?
    requires result.Some? ==>
               result.value !in w.heap || (PcOf(w, t).req.Realloc? && result.value == PcOf(w, t).req.p)
    ensures PcOk(w, PcOf(w, t)) && Inv(OnAllocate(w, t, PcOf(w, t).req, result))
  {
    var req := PcOf(w, t).req;
    PcOkOf(w, t);
    if req.size > MAX_USER_SIZE || result.None? {
      hide ThreadsOk, IsFree, PeakOk, Sum;
      GotoInv(w, t, Idle);
    } else if req.Malloc? {
      MallocInv(w, t, result.value);
    } else {
      ReallocInv(w, t, result.value);
    }
  }

  lemma MallocPeak(w: World, t: Tid, p: Ptr)
    requires Inv(w) && PcOf(w, t).Allocate? && PcOf(w, t).req.Malloc? && p !in w.heap
    requires PcOf(w, t).req.size <= MAX_USER_SIZE
    ensures PeakOk(OnAllocate(w, t, PcOf(w, t).req, Some(p)))
  {
    hide ThreadsOk, Sum;
    PeakStep(w, OnAllocate(w, t, PcOf(w, t).req, Some(p)), t, CountAlloc(p));
  }

  lemma MallocInv(w: World, t: Tid, p: Ptr)
    requires Inv(w) && PcOf(w, t).Allocate? && PcOf(w, t).req.Malloc? && p !in w.heap
    requires PcOf(w, t).req.size <= MAX_USER_SIZE
    ensures Inv(OnAllocate(w, t, PcOf(w, t).req, Some(p)))
  {
    hide Sum, PeakOk;
    var w' := OnAllocate(w, t, PcOf(w, t).req, Some(p));
    SumUpdate(w.counted, p, 0);
    MallocPeak(w, t, p);
    assert forall q: Ptr :: q != p ==> SamePtr(w, w', q);
    assert p !in w.counted && !IsFree(w, p);
    ThreadStep(w, w', t, CountAlloc(p));
  }

  lemma ReallocInv(w: World, t: Tid, q: Ptr)
    requires Inv(w) && PcOf(w, t).Allocate? && PcOf(w, t).req.Realloc?
    requires q !in w.heap || q == PcOf(w, t).req.p
    requires PcOf(w, t).req.size <= MAX_USER_SIZE
    ensures PcOk(w, PcOf(w, t)) && Inv(OnAllocate(w, t, PcOf(w, t).req, Some(q)))
  {
    assert w.heap.Keys == w.counted.Keys;
    hide ThreadsOk, IsFree, Sum, PeakOk;
    PcOkOf(w, t);
    var req := PcOf(w, t).req;
    var w' := OnAllocate(w, t, req, Some(q));
    ReallocSum(w.counted, req.p, q);
    ReallocThreads(w, t, q);
    PeakStep(w, w', t, CountRealloc(q, w.heap[req.p]));
  }

  lemma ReallocSum(counted: map<Ptr, nat>, p: Ptr, q: Ptr)
    requires p in counted && (q !in counted || q == p)
    ensures Sum((counted - {p})[q := counted[p]]) == Sum(counted)
  {
    SumUpdate(counted - {p}, q, counted[p]);
    SumRemove(counted, p);
    hide Sum;
  }

  lemma ReallocThreads(w: World, t: Tid, q: Ptr)
    requires ThreadsOk(w) && PcOf(w, t).Allocate? && PcOf(w, t).req.Realloc?
    requires q !in w.heap || q == PcOf(w, t).req.p
    requires PcOf(w, t).req.size <= MAX_USER_SIZE
    ensures PcOk(w, PcOf(w, t)) && ThreadsOk(OnAllocate(w, t, PcOf(w, t).req, Some(q)))
  {
    PcOkOf(w, t);
    var req := PcOf(w, t).req;
    var w' := OnAllocate(w, t, req, Some(q));
    assert forall p: Ptr :: p != req.p && p != q ==> SamePtr(w, w', p);
    assert !IsFree(w, q) by {
      assert q == req.p ==> t in w.threads && Busy(w.threads[t]) == Some(q);
    }
    assert w.heap.Keys == w.counted.Keys;
    hide ThreadsOk, IsFree;
    ThreadStep(w, w', t, CountRealloc(q, w.heap[req.p]));
  }

  lemma OnCounterInv(w: World, t: Tid)
    requires Inv(w) && (PcOf(w, t).CountAlloc? || PcOf(w, t).CountRealloc? || PcOf(w, t).CountFree?)
    ensures PcOk(w, PcOf(w, t)) && Inv(OnCounter(w, t, PcOf(w, t)))
  {
    PcOkOf(w, t);
    var w' := OnCounter(w, t, PcOf(w, t));
    CounterStepInv(w, w', t, w'.threads[t]);
  }

  /** The thread has bumped a counter and goes on with the same allocation. */
  lemma CounterStepInv(w: World, w': World, t: Tid, pc: Pc)
    requires Inv(w) && PcOk(w, pc) && Busy(pc) == Busy(PcOf(w, t))
    requires !PcOf(w, t).PeakLoad? && !PcOf(w, t).PeakCas?
    requires w' == Goto(w.(allocs := w'.allocs, frees := w'.frees, reallocs := w'.reallocs), t, pc)
    ensures Inv(w')
  {
    hide PeakOk, ThreadsOk, Sum;
    GotoInv(w, t, pc);
    CountersInv(Goto(w, t, pc), w'.allocs, w'.frees, w'.reallocs);
  }

  lemma OnAddLiveInv(w: World, t: Tid)
    requires Inv(w) && PcOf(w, t).AddLive?
    ensures PcOk(w, PcOf(w, t)) && Inv(OnAddLive(w, t, PcOf(w, t)))
  {
    PcOkOf(w, t);
    hide Inv;
    AddLiveInv(w, OnAddLive(w, t, PcOf(w, t)), t, PcOf(w, t).p, PcOf(w, t).amount);
  }

  lemma AddLiveInv(w: World, w': World, t: Tid, p: Ptr, amount: nat)
    requires Inv(w) && PcOf(w, t) == AddLive(p, amount) && p in w.heap && p in w.counted
    requires w.counted[p] + amount == w.heap[p]
    requires w' == w.(live := w.live + amount, counted := w.counted[p := w.heap[p]],
                      top := if w.live + amount > w.top then w.live + amount else w.top,
                      threads := w.threads[t := PeakLoad(w.live + amount)])
    ensures Inv(w')
  {
    hide Sum, PeakOk, ThreadsOk;
    SumUpdate(w.counted, p, w.heap[p]);
    AddLivePeak(w, w', t);
    KeysAgree(w);
    CountedStep(w, w', t, PeakLoad(w'.live), p, w.heap[p]);
  }

  lemma KeysAgree(w: World)
    requires ThreadsOk(w)
    ensures w.heap.Keys == w.counted.Keys
  {
  }

  lemma AddLivePeak(w: World, w': World, t: Tid)
    requires PeakOk(w) && !PcOf(w, t).PeakLoad? && !PcOf(w, t).PeakCas?
    requires w'.threads == w.threads[t := PeakLoad(w'.live)] && w'.peak == w.peak
    requires w'.top == (if w'.live > w.top then w'.live else w.top)
    ensures PeakOk(w')
  {
    if w'.live > w.top {
      assert t in w'.threads && Pending(w'.threads[t], w'.top);
    } else {
      PeakStep(w, w', t, PeakLoad(w'.live));
    }
  }

  lemma OnPeakInv(w: World, t: Tid, value: nat)
    requires Inv(w) && (PcOf(w, t).PeakLoad? || PcOf(w, t).PeakCas?) && value <= w.peak
    ensures Inv(OnPeak(w, t, PcOf(w, t).live, value))
  {
    PcOkOf(w, t);
    hide ThreadsOk, IsFree, PeakOk;
    GotoInv(w, t, if PcOf(w, t).live > value then PeakCas(PcOf(w, t).live, value) else Idle);
  }

  lemma OnCasPeakInv(w: World, t: Tid, spurious: bool)
    requires Inv(w) && PcOf(w, t).PeakCas?
    ensures Inv(OnCasPeak(w, t, PcOf(w, t), spurious))
  {
    var pc := PcOf(w, t);
    PcOkOf(w, t);
    if !spurious && w.peak == pc.seenPeak {
      var w' := Goto(w.(peak := pc.live), t, Idle);
      assert PeakOk(w') by {
        if w'.peak != w'.top {
          var u :| u in w.threads && Pending(w.threads[u], w.top);
          assert u in w'.threads && Pending(w'.threads[u], w'.top);
        }
      }
      hide PeakOk;
      ThreadStep(w, w', t, Idle);
    } else {
      hide ThreadsOk, PeakOk;
      OnPeakInv(w, t, w.peak);
    }
  }

  lemma LoadLiveInv(w: World, t: Tid, value: nat)
    requires Inv(w) && PcOf(w, t).SubLoad?
    ensures var pc := PcOf(w, t); Inv(Goto(w, t, SubCas(pc.p, pc.amount, pc.freeing, value)))
  {
    PcOkOf(w, t);
    hide ThreadsOk, IsFree, PeakOk;
    GotoInv(w, t, SubCas(PcOf(w, t).p, PcOf(w, t).amount, PcOf(w, t).freeing, value));
  }

  /** The subtraction that takes effect never saturates. */
  lemma SubLiveExact(w: World, t: Tid)
    requires Inv(w) && PcOf(w, t).SubCas?
    ensures PcOk(w, PcOf(w, t)) && PcOf(w, t).amount <= w.counted[PcOf(w, t).p] <= w.live
  {
    PcOkOf(w, t);
    SumRemove(w.counted, PcOf(w, t).p);
  }

  lemma OnCasLiveInv(w: World, t: Tid, spurious: bool)
    requires Inv(w) && PcOf(w, t).SubCas?
    ensures PcOk(w, PcOf(w, t)) && Inv(OnCasLive(w, t, PcOf(w, t), spurious))
  {
    var pc := PcOf(w, t);
    PcOkOf(w, t);
    hide ThreadsOk, IsFree, PeakOk, Sum;
    if !spurious && w.live == pc.seenLive {
      SubLiveInv(w, OnCasLive(w, t, pc, spurious), t);
    } else {
      GotoInv(w, t, pc.(seenLive := w.live));
    }
  }

  lemma SubLiveInv(w: World, w': World, t: Tid)
    requires Inv(w) && PcOf(w, t).SubCas? && PcOf(w, t).p in w.counted
    requires var pc := PcOf(w, t);
             w' == Goto(w.(live := Saturating(w.live, pc.amount),
                           counted := w.counted[pc.p := Saturating(w.counted[pc.p], pc.amount)]),
                        t, if pc.freeing then Release(pc.p) else Idle)
    ensures Inv(w')
  {
    var pc := PcOf(w, t);
    SubLiveSum(w, t);
    PeakStep(w, w', t, w'.threads[t]);
    assert w.heap.Keys == w.counted.Keys;
    hide Sum, PeakOk, ThreadsOk, Saturating;
    CountedStep(w, w', t, w'.threads[t], pc.p, Saturating(w.counted[pc.p], pc.amount));
  }

  lemma SubLiveSum(w: World, t: Tid)
    requires Inv(w) && PcOf(w, t).SubCas?
    ensures var pc := PcOf(w, t);
            && PcOk(w, pc)
            && Saturating(w.live, pc.amount) == Sum(w.counted[pc.p := Saturating(w.counted[pc.p], pc.amount)])
            && Saturating(w.live, pc.amount) <= w.top
            && Saturating(w.counted[pc.p], pc.amount) == (if pc.freeing then 0 else w.heap[pc.p])
  {
    var pc := PcOf(w, t);
    SubLiveExact(w, t);
    SumUpdate(w.counted, pc.p, Saturating(w.counted[pc.p], pc.amount));
  }

  lemma OnReleaseInv(w: World, t: Tid)
    requires Inv(w) && PcOf(w, t).Release?
    ensures Inv(OnRelease(w, t, PcOf(w, t).p))
  {
    var p := PcOf(w, t).p;
    PcOkOf(w, t);
    SumRemove(w.counted, p);
    hide Sum, PeakOk;
    var w' := OnRelease(w, t, p);
    ThreadStep(w, w', t, Idle);
    hide ThreadsOk, IsFree;
    PeakStep(w, w', t, Idle);
  }

  lemma FaultInv(w: World, countdown: int)
    requires Inv(w)
    ensures Inv(w.(countdown := countdown, budget := countdown, granted := 0))
  {
    BudgetInv(w, w.(countdown := countdown, budget := countdown, granted := 0));
  }

  /** Every atomic step of every thread keeps the invariant. */
  lemma StepInv(w: World, s: Step)
    requires Inv(w) && Enabled(w, s)
    ensures Inv(Do(w, s))
  {
    hide Inv, ThreadsOk, IsFree, OnCountdown, OnCasCountdown, OnAllocate, OnCounter, OnAddLive, OnPeak, OnCasPeak,
      OnCasLive, OnRelease;
    InvThreads(w);
    match s {
      case CallMalloc(t, size) => StartInv(w, t, FaultLoad(Malloc(size)));
      case CallCalloc(t, count, size) => StartInv(w, t, FaultLoad(Malloc(count * size)));
      case CallRealloc(t, ptr, size) =>
        if ptr.None? {
          StartInv(w, t, FaultLoad(Malloc(size)));
        } else {
          StartInv(w, t, if size == 0 then CountFree(ptr.value) else FaultLoad(Realloc(ptr.value, size)));
        }
      case CallFree(t, ptr) =>
        if ptr.Some? {
          StartInv(w, t, CountFree(ptr.value));
        }
      case LoadCountdown(t) => OnCountdownInv(w, t, PcOf(w, t).req);
      case CasCountdown(t, spurious) => OnCasCountdownInv(w, t, spurious);
      case SystemAllocate(t, result) => OnAllocateInv(w, t, result);
      case BumpCounter(t) => OnCounterInv(w, t);
      case FetchAddLive(t) => OnAddLiveInv(w, t);
      case LoadPeak(t, value) => OnPeakInv(w, t, value);
      case CasPeak(t, spurious) => OnCasPeakInv(w, t, spurious);
      case LoadLive(t, value) => LoadLiveInv(w, t, value);
      case CasLive(t, spurious) => OnCasLiveInv(w, t, spurious);
      case SystemFree(t) => OnReleaseInv(w, t);
      case SetFaultCountdown(n) => FaultInv(w, n);
      case ClearFault => FaultInv(w, -1);
    }
  }

  /** A call may start on a pointer that is in nobody's hands. */
  lemma StartInv(w: World, t: Tid, pc: Pc)
    requires Inv(w) && PcOf(w, t).Idle? && (pc.FaultLoad? || pc.CountFree?)
    requires Busy(pc).Some? ==> IsFree(w, Busy(pc).value)
    ensures Inv(Goto(w, t, pc))
  {
    hide PeakOk;
    GotoInv(w, t, pc);
  }

  lemma InitInv()
    ensures Inv(Init())
  {
  }

  // ---------------------------------------------------------------- every run

  ghost predicate IsRun(w: World, ss: seq<Step>)
    decreases |ss|
  {
    ss == [] || (ThreadsOk(w) && Enabled(w, ss[0]) && IsRun(Do(w, ss[0]), ss[1..]))
  }

  ghost function Final(w: World, ss: seq<Step>): World
    requires IsRun(w, ss)
    decreases |ss|
  {
    if ss == [] then w else Final(Do(w, ss[0]), ss[1..])
  }

  /** The largest value `bytes_live` takes in any state of a run. */
  ghost function MaxLive(w: World, ss: seq<Step>): nat
    requires IsRun(w, ss)
    decreases |ss|
  {
    if ss == [] then w.live
    else
      var rest := MaxLive(Do(w, ss[0]), ss[1..]);
      if w.live > rest then w.live else rest
  }

  ghost predicate Quiescent(w: World)
  {
    forall t :: t in w.threads ==> w.threads[t].Idle?
  }

  lemma {:induction false} RunInv(w: World, ss: seq<Step>)
    requires Inv(w) && IsRun(w, ss)
    ensures Inv(Final(w, ss))
    decreases |ss|
  {
    if ss != [] {
      hide Inv, Do, Enabled, ThreadsOk;
      StepInv(w, ss[0]);
      RunInv(Do(w, ss[0]), ss[1..]);
    }
  }

  // What each kind of step changes.

  predicate IsCall(s: Step)
  {
    s.CallMalloc? || s.CallCalloc? || s.CallRealloc? || s.CallFree?
  }

  predicate IsFaultCheck(s: Step)
  {
    s.LoadCountdown? || s.CasCountdown?
  }

  /** The step leaves the other threads where they are. */
  ghost predicate OnlyMoves(w: World, w': World, t: Tid)
  {
    w'.threads == w.threads[t := PcOf(w', t)]
  }

  lemma CallChanges(w: World, s: Step)
    requires ThreadsOk(w) && Enabled(w, s) && IsCall(s)
    ensures var w' := Do(w, s);
            && w'.(threads := w.threads) == w
            && (w'.threads != w.threads ==> OnlyMoves(w, w', s.t))
            && PcOf(w, s.t).Idle? && (PcOf(w', s.t).Idle? || PcOf(w', s.t).FaultLoad? || PcOf(w', s.t).CountFree?)
  {
    hide ThreadsOk, IsFree;
  }

  lemma FaultCheckChanges(w: World, s: Step)
    requires ThreadsOk(w) && Enabled(w, s) && IsFaultCheck(s)
    ensures var w' := Do(w, s);
            && w'.(threads := w.threads, countdown := w.countdown, granted := w.granted) == w
            && OnlyMoves(w, w', s.t)
            && w'.granted == w.granted + One(PcOf(w', s.t).Allocate?)
            && (PcOf(w, s.t).FaultLoad? || PcOf(w, s.t).FaultCas?)
            && (PcOf(w', s.t).Idle? || PcOf(w', s.t).FaultCas? || PcOf(w', s.t).Allocate?)
  {
    hide ThreadsOk, IsFree;
  }

  lemma AllocateChanges(w: World, t: Tid, result: Option<Ptr>)
    requires ThreadsOk(w) && Enabled(w, SystemAllocate(t, result))
    ensures var w' := Do(w, SystemAllocate(t, result));
            w'.(threads := w.threads, heap := w.heap, counted := w.counted) == w
  {
    hide ThreadsOk, IsFree;
  }

  lemma BumpChanges(w: World, t: Tid)
    requires ThreadsOk(w) && Enabled(w, BumpCounter(t))
    ensures var w' := Do(w, BumpCounter(t));
            w'.(threads := w.threads, allocs := w.allocs, frees := w.frees, reallocs := w.reallocs) == w
  {
    hide ThreadsOk, IsFree;
  }

  lemma AddChanges(w: World, t: Tid)
    requires ThreadsOk(w) && Enabled(w, FetchAddLive(t))
    ensures var w' := Do(w, FetchAddLive(t));
            && w'.(threads := w.threads, live := w.live, counted := w.counted, top := w.top) == w
            && w'.top == (if w'.live > w.top then w'.live else w.top)
            && OnlyMoves(w, w', t) && PcOf(w, t).AddLive? && PcOf(w', t).PeakLoad?
  {
    hide ThreadsOk, IsFree;
  }

  lemma PeakChanges(w: World, s: Step)
    requires ThreadsOk(w) && Enabled(w, s) && (s.LoadPeak? || s.CasPeak?)
    ensures var w' := Do(w, s);
            && w'.(threads := w.threads, peak := w.peak) == w
            && OnlyMoves(w, w', s.t)
            && (PcOf(w, s.t).PeakLoad? || PcOf(w, s.t).PeakCas?) && (PcOf(w', s.t).PeakCas? || PcOf(w', s.t).Idle?)
  {
    hide ThreadsOk, IsFree;
  }

  lemma SubChanges(w: World, s: Step)
    requires ThreadsOk(w) && Enabled(w, s) && (s.LoadLive? || s.CasLive?)
    ensures var w' := Do(w, s);
            && w'.(threads := w.threads, live := w.live, counted := w.counted) == w && w'.live <= w.live
            && OnlyMoves(w, w', s.t)
            && (PcOf(w, s.t).SubLoad? || PcOf(w, s.t).SubCas?)
            && (PcOf(w', s.t).SubCas? || PcOf(w', s.t).Release? || PcOf(w', s.t).Idle?)
            && Leaving(PcOf(w, s.t)) == Leaving(PcOf(w', s.t))
  {
    hide ThreadsOk, IsFree;
  }

  lemma ReleaseChanges(w: World, t: Tid)
    requires ThreadsOk(w) && Enabled(w, SystemFree(t))
    ensures var w' := Do(w, SystemFree(t)); w'.(threads := w.threads, heap := w.heap, counted := w.counted) == w
  {
    hide ThreadsOk, IsFree;
  }

  lemma SetChanges(w: World, s: Step)
    requires ThreadsOk(w) && Enabled(w, s) && (s.SetFaultCountdown? || s.ClearFault?)
    ensures var w' := Do(w, s);
            && w'.(countdown := w.countdown, budget := w.budget, granted := w.granted) == w
            && w'.granted == 0 && w'.budget == if s.SetFaultCountdown? then s.n else -1
  {
    hide ThreadsOk, IsFree;
  }

  /** What a step does to the recorded history. */
  lemma StepHistory(w: World, s: Step)
    requires Inv(w) && Enabled(w, s)
    ensures Do(w, s).top == if Do(w, s).live > w.top then Do(w, s).live else w.top
    ensures Do(w, s).granted == if s.SetFaultCountdown? || s.ClearFault? then 0
                                else if ToldToSucceed(w, s) then w.granted + 1 else w.granted
    ensures Do(w, s).budget == if s.SetFaultCountdown? then s.n else if s.ClearFault? then -1 else w.budget
  {
    assert w.live <= w.top;
    InvThreads(w);
    assert ToldToSucceed(w, s) <==> IsFaultCheck(s) && PcOf(Do(w, s), s.t).Allocate?;
    assert One(true) == 1 && One(false) == 0;
    hide *;
    match s {
      case FetchAddLive(t) => AddChanges(w, t);
      case SystemAllocate(t, result) => AllocateChanges(w, t, result);
      case BumpCounter(t) => BumpChanges(w, t);
      case SystemFree(t) => ReleaseChanges(w, t);
      case LoadPeak(_, _) => PeakChanges(w, s);
      case CasPeak(_, _) => PeakChanges(w, s);
      case LoadLive(_, _) => SubChanges(w, s);
      case CasLive(_, _) => SubChanges(w, s);
      case LoadCountdown(_) => AFaultCheck(s); FaultCheckChanges(w, s);
      case CasCountdown(_, _) => AFaultCheck(s); FaultCheckChanges(w, s);
      case SetFaultCountdown(_) => SetChanges(w, s);
      case ClearFault => SetChanges(w, s);
      case _ => ACall(s); CallChanges(w, s);
    }
  }

  lemma AFaultCheck(s: Step)
    ensures IsFaultCheck(s) <==> s.LoadCountdown? || s.CasCountdown?
  {
  }

  lemma ACall(s: Step)
    ensures IsCall(s) <==> s.CallMalloc? || s.CallCalloc? || s.CallRealloc? || s.CallFree?
  {
  }

  /** The recorded top is the largest live count of the run, when the run starts with the two equal. */
  lemma {:induction false} TopIsMaxLive(w: World, ss: seq<Step>)
    requires Inv(w) && IsRun(w, ss)
    ensures Final(w, ss).top == if MaxLive(w, ss) > w.top then MaxLive(w, ss) else w.top
    decreases |ss|
  {
    assert w.live <= w.top;
    if ss != [] {
      hide Inv, Do, Enabled, ThreadsOk, ToldToSucceed;
      StepInv(w, ss[0]);
      StepHistory(w, ss[0]);
      TopIsMaxLive(Do(w, ss[0]), ss[1..]);
    }
  }

  /**
    Exact peak: in every interleaving, `bytes_peak` and the values still on their way to it never exceed the largest
    `bytes_live` ever reached, and one of them equals it; so when no call is in flight the peak is that maximum.
   */
  lemma {:induction false} ExactPeak(ss: seq<Step>)
    requires IsRun(Init(), ss)
    ensures var w, most := Final(Init(), ss), MaxLive(Init(), ss);
            && w.peak <= most
            && (forall t, v: nat :: t in w.threads && Pending(w.threads[t], v) ==> v <= most)
            && (w.peak == most || exists t :: t in w.threads && Pending(w.threads[t], most))
            && (Quiescent(w) ==> w.peak == most)
  {
    InitInv();
    RunInv(Init(), ss);
    TopIsMaxLive(Init(), ss);
    var w := Final(Init(), ss);
    hide IsRun, Final, MaxLive, Init, Sum;
    forall t, v: nat | t in w.threads && Pending(w.threads[t], v)
      ensures v <= w.top
    {
      assert PcOk(w, w.threads[t]);
    }
  }

  /**
    Live-byte conservation: `bytes_live` is the sum of what has been counted so far, allocations in nobody's hands
    are counted in full, and when no call is in flight `bytes_live` is the sum of all header sizes.
   */
  lemma {:induction false} LiveConservation(ss: seq<Step>)
    requires IsRun(Init(), ss)
    ensures var w := Final(Init(), ss);
            && w.live == Sum(w.counted) && w.counted.Keys == w.heap.Keys
            && (forall p: Ptr :: IsFree(w, p) ==> w.counted[p] == w.heap[p])
            && (Quiescent(w) ==> w.live == Sum(w.heap))
  {
    InitInv();
    RunInv(Init(), ss);
    var w := Final(Init(), ss);
    hide IsRun, Final, Init, Sum;
    if Quiescent(w) {
      forall p: Ptr | p in w.heap
        ensures w.counted[p] == w.heap[p]
      {
        assert IsFree(w, p);
      }
      assert w.counted == w.heap;
    }
  }

  /** The saturating branch never takes effect: a subtraction that lands is exact. */
  lemma {:induction false} NeverSaturates(ss: seq<Step>, t: Tid)
    requires IsRun(Init(), ss) && PcOf(Final(Init(), ss), t).SubCas?
    ensures var w := Final(Init(), ss);
            var pc := PcOf(w, t);
            ThreadsOk(w) && (w.live == pc.seenLive ==> Do(w, CasLive(t, false)).live == w.live - pc.amount)
  {
    InitInv();
    RunInv(Init(), ss);
    SubLiveExact(Final(Init(), ss), t);
    hide IsRun, Final, Init, Sum, ThreadsOk;
  }

  /** Even if callers free or resize twice, a subtraction that lands stops at zero and does not wrap. */
  lemma StopsAtZero(w: World, t: Tid)
    requires ThreadsOk(w) && PcOf(w, t).SubCas? && w.live == PcOf(w, t).seenLive
    ensures var amount, live := PcOf(w, t).amount, Do(w, CasLive(t, false)).live;
            live + amount == w.live || (live == 0 && amount > w.live)
  {
    PcOkOf(w, t);
    hide ThreadsOk;
  }

  /** A step in which the fault check tells a call to go ahead. */
  ghost predicate ToldToSucceed(w: World, s: Step)
    requires Enabled(w, s) && ThreadsOk(w)
  {
    (s.LoadCountdown? || s.CasCountdown?) && PcOf(Do(w, s), s.t).Allocate?
  }

  /** Calls let through since the last time the countdown was set or cleared. */
  ghost function GrantsSince(w: World, ss: seq<Step>, count: nat): nat
    requires IsRun(w, ss)
    decreases |ss|
  {
    if ss == [] then count
    else
      GrantsSince(Do(w, ss[0]), ss[1..],
                  if ss[0].SetFaultCountdown? || ss[0].ClearFault? then 0
                  else if ToldToSucceed(w, ss[0]) then count + 1 else count)
  }

  lemma {:induction false} GrantedCounts(w: World, ss: seq<Step>)
    requires Inv(w) && IsRun(w, ss)
    ensures Final(w, ss).granted == GrantsSince(w, ss, w.granted)
    decreases |ss|
  {
    hide Inv, Do, Enabled, ThreadsOk, ToldToSucceed;
    if ss != [] {
      StepInv(w, ss[0]);
      StepHistory(w, ss[0]);
      GrantedCounts(Do(w, ss[0]), ss[1..]);
    }
  }

  /** What the countdown was last set to; clearing it, like the start, leaves it at -1. */
  function LastSet(n: int, ss: seq<Step>): int
    decreases |ss|
  {
    if ss == [] then n
    else LastSet(if ss[0].SetFaultCountdown? then ss[0].n else if ss[0].ClearFault? then -1 else n, ss[1..])
  }

  lemma {:induction false} BudgetIsLastSet(w: World, ss: seq<Step>)
    requires Inv(w) && IsRun(w, ss)
    ensures Final(w, ss).budget == LastSet(w.budget, ss)
    decreases |ss|
  {
    hide Inv, Do, Enabled, ThreadsOk;
    if ss != [] {
      StepInv(w, ss[0]);
      StepHistory(w, ss[0]);
      BudgetIsLastSet(Do(w, ss[0]), ss[1..]);
    }
  }

  /** What the fault check answers, whatever is set: refused at zero, allowed below, and else after one more step. */
  ghost predicate Answers(w: World)
    requires ThreadsOk(w)
  {
    && (forall t :: PcOf(w, t).FaultLoad? ==>
          var pc := PcOf(Do(w, LoadCountdown(t)), t);
          (pc.Idle? <==> w.countdown == 0) && (pc.Allocate? <==> w.countdown < 0))
    && (forall t :: PcOf(w, t).FaultCas? ==>
          var pc := PcOf(Do(w, CasCountdown(t, false)), t);
          (pc.Idle? <==> w.countdown == 0) && (pc.Allocate? <==> w.countdown < 0 || w.countdown == PcOf(w, t).seen))
  }

  /**
    Fault countdown: after it is set to N >= 0, in every interleaving the calls let through since plus the countdown
    make N, and it never goes below zero; set below zero, it stays as it is. A check refuses its call at zero and only
    then.
   */
  lemma {:induction false} FaultCountdownExact(ss: seq<Step>)
    requires IsRun(Init(), ss)
    ensures var w, n := Final(Init(), ss), LastSet(-1, ss);
            && ThreadsOk(w) && Answers(w)
            && (n >= 0 ==> GrantsSince(Init(), ss, 0) + w.countdown == n && w.countdown >= 0)
            && (n < 0 ==> w.countdown == n)
  {
    InitInv();
    assert Init().granted == 0 && Init().budget == -1;
    hide IsRun, Final, Init, Sum, PeakOk, GrantsSince, LastSet, Do, PcOk;
    RunInv(Init(), ss);
    GrantedCounts(Init(), ss);
    BudgetIsLastSet(Init(), ss);
    CheckAnswers(Final(Init(), ss));
  }

  lemma CheckAnswers(w: World)
    requires ThreadsOk(w)
    ensures Answers(w)
  {
    forall t | PcOf(w, t).FaultCas?
      ensures PcOf(w, t).seen > 0
    {
      PcOkOf(w, t);
    }
    hide ThreadsOk;
  }

  // ---------------------------------------------------------------- failing calls

  /** Where a call stands until it has an allocation. */
  predicate Asking(pc: Pc)
  {
    pc.FaultLoad? || pc.FaultCas? || pc.Allocate?
  }

  ghost predicate StepOf(s: Step, t: Tid)
  {
    !s.SetFaultCountdown? && !s.ClearFault? && s.t == t
  }

  /** Thread `t`, in a call at the start of this run, leaves it with the last step and without an allocation. */
  ghost predicate FailsIn(w: World, ss: seq<Step>, t: Tid)
    requires IsRun(w, ss)
    decreases |ss|
  {
    && Asking(PcOf(w, t)) && ss != []
    && (if |ss| == 1 then StepOf(ss[0], t) && PcOf(Do(w, ss[0]), t).Idle? else FailsIn(Do(w, ss[0]), ss[1..], t))
  }

  /** The steps of `t` in this run leave every counter and every allocation alone. */
  ghost predicate Harmless(w: World, ss: seq<Step>, t: Tid)
    requires IsRun(w, ss)
    decreases |ss|
  {
    ss == [] ||
    (var w' := Do(w, ss[0]);
     && (StepOf(ss[0], t) ==> w'.(threads := w.threads, countdown := w.countdown, granted := w.granted) == w)
     && Harmless(w', ss[1..], t))
  }

  /** How many times `t` lowers the countdown in this run. */
  ghost function Spent(w: World, ss: seq<Step>, t: Tid): nat
    requires IsRun(w, ss)
    decreases |ss|
  {
    if ss == [] then 0
    else
      var w' := Do(w, ss[0]);
      One(StepOf(ss[0], t) && w'.countdown < w.countdown) + Spent(w', ss[1..], t)
  }

  /** The fault check lets `t` through while a countdown is in force. */
  ghost predicate LetThrough(w: World, ss: seq<Step>, t: Tid)
    requires IsRun(w, ss)
    decreases |ss|
  {
    ss != [] &&
    (var w' := Do(w, ss[0]);
     (w.countdown > 0 && !PcOf(w, t).Allocate? && PcOf(w', t).Allocate?) || LetThrough(w', ss[1..], t))
  }

  /** One step of a call that goes on asking or gives up. */
  lemma AskingStep(w: World, s: Step, t: Tid)
    requires ThreadsOk(w) && Enabled(w, s) && StepOf(s, t) && Asking(PcOf(w, t))
    requires Asking(PcOf(Do(w, s), t)) || PcOf(Do(w, s), t).Idle?
    ensures var w' := Do(w, s);
            && w'.(threads := w.threads, countdown := w.countdown, granted := w.granted) == w
            && (w'.countdown < w.countdown <==> w.countdown > 0 && !PcOf(w, t).Allocate? && PcOf(w', t).Allocate?)
            && (PcOf(w, t).Allocate? ==> s.SystemAllocate? && PcOf(w', t).Idle? && w'.countdown == w.countdown)
            && (s.SystemAllocate? ==> PcOf(w, t).Allocate?)
  {
    PcOkOf(w, t);
    hide ThreadsOk, IsFree;
    if !PcOf(w, t).Allocate? {
      assert IsFaultCheck(s);
    }
  }

  lemma OtherStep(w: World, s: Step, t: Tid)
    requires ThreadsOk(w) && Enabled(w, s) && !StepOf(s, t)
    ensures PcOf(Do(w, s), t) == PcOf(w, t)
  {
    hide ThreadsOk, IsFree;
  }

  /**
    A call that fails, by injected fault, size test or system failure, changes no counter and no allocation in any
    interleaving. It has spent one unit of the countdown exactly if the fault check let it through while a countdown
    was in force, so only if it was refused later, by the size test or by the system.
   */
  lemma {:induction false} FailureChangesNothing(w: World, ss: seq<Step>, t: Tid)
    requires IsRun(w, ss) && FailsIn(w, ss, t)
    ensures Harmless(w, ss, t)
    ensures Spent(w, ss, t) == One(LetThrough(w, ss, t))
    ensures LetThrough(w, ss, t) ==> ss[|ss| - 1].SystemAllocate? && !PcOf(w, t).Allocate?
    ensures ss[|ss| - 1].SystemAllocate? <==> EverAllowed(w, ss, t)
    decreases |ss|
  {
    hide Do, ThreadsOk, Enabled, PcOf, FailsIn, StepOf;
    FailingStep(w, ss, t);
    if |ss| > 1 {
      FailureChangesNothing(Do(w, ss[0]), ss[1..], t);
    } else {
      assert ss[1..] == [];
    }
  }

  /** The first step of a run in which `t` fails. */
  lemma {:induction false} FailingStep(w: World, ss: seq<Step>, t: Tid)
    requires IsRun(w, ss) && FailsIn(w, ss, t)
    ensures ss != [] && ThreadsOk(w) && Enabled(w, ss[0])
    ensures var s, w' := ss[0], Do(w, ss[0]);
            && (StepOf(s, t) ==> w'.(threads := w.threads, countdown := w.countdown, granted := w.granted) == w)
            && (StepOf(s, t) && w'.countdown < w.countdown <==>
                  w.countdown > 0 && !PcOf(w, t).Allocate? && PcOf(w', t).Allocate?)
            && (|ss| == 1 ==> PcOf(w', t).Idle? && (s.SystemAllocate? <==> PcOf(w, t).Allocate?))
            && (|ss| > 1 ==> FailsIn(w', ss[1..], t) && (PcOf(w, t).Allocate? ==> PcOf(w', t).Allocate?))
  {
    hide Do, ThreadsOk, Enabled, PcOf;
    FailsFirst(w, ss, t);
    if StepOf(ss[0], t) {
      AskingStep(w, ss[0], t);
    } else {
      OtherStep(w, ss[0], t);
    }
  }

  /** The call gets past the fault check, with a countdown in force or without. */
  ghost predicate EverAllowed(w: World, ss: seq<Step>, t: Tid)
    requires IsRun(w, ss)
    decreases |ss|
  {
    PcOf(w, t).Allocate? || (ss != [] && EverAllowed(Do(w, ss[0]), ss[1..], t))
  }

  lemma {:induction false} FailsFirst(w: World, ss: seq<Step>, t: Tid)
    requires IsRun(w, ss) && FailsIn(w, ss, t)
    ensures ss != [] && ThreadsOk(w) && Enabled(w, ss[0]) && Asking(PcOf(w, t))
    ensures |ss| == 1 ==> StepOf(ss[0], t) && PcOf(Do(w, ss[0]), t).Idle?
    ensures |ss| > 1 ==> FailsIn(Do(w, ss[0]), ss[1..], t) && Asking(PcOf(Do(w, ss[0]), t))
  {
  }

  /** `mcalloc` rejects exactly the products that do not fit in 64 bits, and then changes nothing. */
  lemma CallocOverflowExact(w: World, t: Tid, count: nat, size: nat)
    requires Inv(w) && Enabled(w, CallCalloc(t, count, size))
    ensures CallocOverflows(count, size) <==> count * size >= U64_LIMIT
    ensures CallocOverflows(count, size) ==> Do(w, CallCalloc(t, count, size)) == w
  {
    if count != 0 {
      QuotientBound(count, size, U64_LIMIT - 1);
    }
    hide Inv;
  }

  lemma QuotientBound(count: nat, size: nat, limit: nat)
    requires count > 0
    ensures size > limit / count <==> count * size > limit
  {
    var q := limit / count;
    assert limit == count * q + limit % count;
    if size > q {
      assert count * size >= count * (q + 1) == count * q + count;
    } else {
      assert count * size <= count * q;
    }
  }

  // ---------------------------------------------------------------- the call counters

  /** Allocated, but not yet in `alloc_count`. */
  predicate Uncounted(pc: Pc)
  {
    pc.CountAlloc?
  }

  /** In `free_count`, but not yet returned to the system. */
  predicate Leaving(pc: Pc)
  {
    ((pc.SubLoad? || pc.SubCas?) && pc.freeing) || pc.Release?
  }

  ghost function UncountedThreads(w: World): set<Tid>
  {
    set t | t in w.threads && Uncounted(w.threads[t])
  }

  ghost function LeavingThreads(w: World): set<Tid>
  {
    set t | t in w.threads && Leaving(w.threads[t])
  }

  function One(b: bool): nat
  {
    if b then 1 else 0
  }

  ghost predicate CountersOk(w: World)
  {
    |w.heap| + w.frees == w.allocs + |UncountedThreads(w)| + |LeavingThreads(w)|
  }

  lemma SetMember(a: set<Tid>, b: set<Tid>, t: Tid, here: bool)
    requires forall u :: u in b <==> (if u == t then here else u in a)
    ensures |b| + One(t in a) == |a| + One(here)
  {
    assert b - {t} == a - {t};
    assert here ==> b == (b - {t}) + {t};
    assert !here ==> b == b - {t};
    assert t in a ==> a == (a - {t}) + {t};
    assert t !in a ==> a == a - {t};
  }

  /** How moving one thread changes the two counts. */
  lemma GotoCounts(w: World, w': World, t: Tid, pc: Pc)
    requires w'.threads == w.threads[t := pc]
    ensures |UncountedThreads(w')| + One(Uncounted(PcOf(w, t))) == |UncountedThreads(w)| + One(Uncounted(pc))
    ensures |LeavingThreads(w')| + One(Leaving(PcOf(w, t))) == |LeavingThreads(w)| + One(Leaving(pc))
  {
    SetMember(UncountedThreads(w), UncountedThreads(w'), t, Uncounted(pc));
    SetMember(LeavingThreads(w), LeavingThreads(w'), t, Leaving(pc));
  }

  lemma HeapAdd(heap: map<Ptr, nat>, p: Ptr, size: nat)
    requires p !in heap
    ensures |heap[p := size]| == |heap| + 1
  {
    assert heap[p := size].Keys == heap.Keys + {p};
  }

  lemma HeapRemove(heap: map<Ptr, nat>, p: Ptr)
    requires p in heap
    ensures |heap - {p}| == |heap| - 1
  {
    assert (heap - {p}).Keys == heap.Keys - {p};
  }

  /** A step of thread `t` to `pc` that leaves the heap and the counters alone. */
  lemma QuietCounters(w: World, w': World, t: Tid, pc: Pc)
    requires CountersOk(w) && w'.threads == w.threads[t := pc]
    requires w'.heap == w.heap && w'.allocs == w.allocs && w'.frees == w.frees
    requires Uncounted(pc) == Uncounted(PcOf(w, t)) && Leaving(pc) == Leaving(PcOf(w, t))
    ensures CountersOk(w')
  {
    GotoCounts(w, w', t, pc);
  }

  lemma AllocateCounters(w: World, t: Tid, result: Option<Ptr>)
    requires Inv(w) && CountersOk(w) && Enabled(w, SystemAllocate(t, result))
    ensures CountersOk(Do(w, SystemAllocate(t, result)))
  {
    hide ThreadsOk, IsFree, Sum, PeakOk, UncountedThreads, LeavingThreads;
    PcOkOf(w, t);
    var req, w' := PcOf(w, t).req, Do(w, SystemAllocate(t, result));
    GotoCounts(w, w', t, w'.threads[t]);
    if req.size <= MAX_USER_SIZE && result.Some? {
      if req.Malloc? {
        HeapAdd(w.heap, result.value, req.size);
      } else {
        HeapRemove(w.heap, req.p);
        HeapAdd(w.heap - {req.p}, result.value, req.size);
      }
    }
  }

  lemma BumpCounters(w: World, t: Tid)
    requires Inv(w) && CountersOk(w) && Enabled(w, BumpCounter(t))
    ensures CountersOk(Do(w, BumpCounter(t)))
  {
    hide ThreadsOk, IsFree, Sum, PeakOk, UncountedThreads, LeavingThreads;
    PcOkOf(w, t);
    var w' := Do(w, BumpCounter(t));
    GotoCounts(w, w', t, w'.threads[t]);
  }

  lemma FreeCounters(w: World, t: Tid)
    requires Inv(w) && CountersOk(w) && Enabled(w, SystemFree(t))
    ensures CountersOk(Do(w, SystemFree(t)))
  {
    hide ThreadsOk, IsFree, Sum, PeakOk, UncountedThreads, LeavingThreads;
    PcOkOf(w, t);
    var w' := Do(w, SystemFree(t));
    GotoCounts(w, w', t, Idle);
    HeapRemove(w.heap, PcOf(w, t).p);
  }

  lemma StepCounters(w: World, s: Step)
    requires Inv(w) && CountersOk(w) && Enabled(w, s)
    ensures CountersOk(Do(w, s))
  {
    InvThreads(w);
    hide *;
    if s.SystemAllocate? {
      AllocateCounters(w, s.t, s.result);
    } else if s.BumpCounter? {
      BumpCounters(w, s.t);
    } else if s.SystemFree? {
      FreeCounters(w, s.t);
    } else if s.SetFaultCountdown? || s.ClearFault? {
      SetChanges(w, s);
      SameCounters(w, Do(w, s));
    } else {
      QuietStepCounters(w, s);
    }
  }

  lemma QuietStepCounters(w: World, s: Step)
    requires ThreadsOk(w) && CountersOk(w) && Enabled(w, s)
    requires !s.SystemAllocate? && !s.BumpCounter? && !s.SystemFree? && !s.SetFaultCountdown? && !s.ClearFault?
    ensures CountersOk(Do(w, s))
  {
    hide *;
    QuietStep(w, s);
    if Do(w, s).threads == w.threads {
      SameCounters(w, Do(w, s));
    } else {
      QuietCounters(w, Do(w, s), s.t, PcOf(Do(w, s), s.t));
    }
  }

  lemma InvThreads(w: World)
    requires Inv(w)
    ensures ThreadsOk(w)
  {
  }

  lemma SameCounters(w: World, w': World)
    requires CountersOk(w) && w'.threads == w.threads && w'.heap == w.heap
    requires w'.allocs == w.allocs && w'.frees == w.frees
    ensures CountersOk(w')
  {
    assert UncountedThreads(w') == UncountedThreads(w) && LeavingThreads(w') == LeavingThreads(w);
  }

  /** The remaining steps change neither the heap nor the two counters, nor what kind of thread takes them. */
  lemma QuietStep(w: World, s: Step)
    requires ThreadsOk(w) && Enabled(w, s)
    requires !s.SystemAllocate? && !s.BumpCounter? && !s.SystemFree? && !s.SetFaultCountdown? && !s.ClearFault?
    ensures var w' := Do(w, s);
            && w'.heap == w.heap && w'.allocs == w.allocs && w'.frees == w.frees
            && (w'.threads != w.threads ==> w'.threads == w.threads[s.t := PcOf(w', s.t)])
            && Uncounted(PcOf(w', s.t)) == Uncounted(PcOf(w, s.t)) && Leaving(PcOf(w', s.t)) == Leaving(PcOf(w, s.t))
  {
    hide Do, Enabled, ThreadsOk, PcOf;
    match s {
      case FetchAddLive(t) => AddChanges(w, t);
      case LoadPeak(_, _) => PeakChanges(w, s);
      case CasPeak(_, _) => PeakChanges(w, s);
      case LoadLive(_, _) => SubChanges(w, s);
      case CasLive(_, _) => SubChanges(w, s);
      case LoadCountdown(_) => FaultCheckChanges(w, s);
      case CasCountdown(_, _) => FaultCheckChanges(w, s);
      case _ => CallChanges(w, s);
    }
  }

  lemma {:induction false} RunCounters(w: World, ss: seq<Step>)
    requires Inv(w) && CountersOk(w) && IsRun(w, ss)
    ensures CountersOk(Final(w, ss))
    decreases |ss|
  {
    if ss != [] {
      StepInv(w, ss[0]);
      StepCounters(w, ss[0]);
      hide Inv, Do, Enabled, ThreadsOk, CountersOk;
      RunCounters(Do(w, ss[0]), ss[1..]);
    }
  }

  /**
    Call counters: in every interleaving the allocations on the heap and the counted frees make the counted
    allocations, up to the calls in flight; at quiescence `alloc_count` minus `free_count` is the number of
    allocations.
   */
  lemma {:induction false} CallCountersExact(ss: seq<Step>)
    requires IsRun(Init(), ss)
    ensures var w := Final(Init(), ss);
            && |w.heap| + w.frees == w.allocs + |UncountedThreads(w)| + |LeavingThreads(w)|
            && (Quiescent(w) ==> |w.heap| == w.allocs - w.frees)
  {
    InitInv();
    assert UncountedThreads(Init()) == {} && LeavingThreads(Init()) == {};
    RunCounters(Init(), ss);
    var w := Final(Init(), ss);
    if Quiescent(w) {
      assert UncountedThreads(w) == {} && LeavingThreads(w) == {};
    }
  }

  // ---------------------------------------------------------------- what was asked for

  /** What a thread's current call is about. */
  datatype Errand = Wants(size: nat, from: Option<Ptr>) | Frees(p: Ptr)

  /**
    What can be read off the calls of a run and the answers of the system allocator alone: the current call of each
    thread, the size each allocation was last asked to have, and how many were made, resized and given to free.
   */
  datatype Ledger = Ledger(calls: map<Tid, Errand>, asked: map<Ptr, nat>, made: nat, resized: nat, freed: nat)

  function EmptyLedger(): Ledger
  {
    Ledger(map[], map[], 0, 0, 0)
  }

  function Freeing(l: Ledger, t: Tid, p: Ptr): Ledger
  {
    l.(calls := l.calls[t := Frees(p)], freed := l.freed + 1)
  }

  function Noted(l: Ledger, s: Step): Ledger
  {
    match s
    case CallMalloc(t, size) => l.(calls := l.calls[t := Wants(size, None)])
    case CallCalloc(t, count, size) =>
      if count * size < U64_LIMIT then l.(calls := l.calls[t := Wants(count * size, None)]) else l
    case CallRealloc(t, ptr, size) =>
      if ptr.Some? && size == 0 then Freeing(l, t, ptr.value) else l.(calls := l.calls[t := Wants(size, ptr)])
    case CallFree(t, ptr) => if ptr.Some? then Freeing(l, t, ptr.value) else l
    case SystemAllocate(t, result) => if result.Some? then Granted(l, t, result.value) else l
    case SystemFree(t) =>
      if t in l.calls && l.calls[t].Frees? then l.(asked := l.asked - {l.calls[t].p}) else l
    case _ => l
  }

  /** The system allocator answers `q`, which is good for nothing if header and size together overflow. */
  function Granted(l: Ledger, t: Tid, q: Ptr): Ledger
  {
    if t !in l.calls || !l.calls[t].Wants? || l.calls[t].size > 0xffff_ffff_ffff_fff7 then l
    else
      match l.calls[t].from
      case None => l.(asked := l.asked[q := l.calls[t].size], made := l.made + 1)
      case Some(p) => l.(asked := (l.asked - {p})[q := l.calls[t].size], resized := l.resized + 1)
  }

  function LedgerOf(l: Ledger, ss: seq<Step>): Ledger
    decreases |ss|
  {
    if ss == [] then l else LedgerOf(Noted(l, ss[0]), ss[1..])
  }

  /** The thread at `pc` is about what the ledger says. */
  ghost predicate OnErrand(l: Ledger, t: Tid, pc: Pc)
  {
    match pc
    case FaultLoad(req) => t in l.calls && l.calls[t] == Wants(req.size, Target(req))
    case FaultCas(req, _) => t in l.calls && l.calls[t] == Wants(req.size, Target(req))
    case Allocate(req) => t in l.calls && l.calls[t] == Wants(req.size, Target(req))
    case CountFree(p) => t in l.calls && l.calls[t] == Frees(p)
    case SubLoad(p, _, freeing) => freeing ==> t in l.calls && l.calls[t] == Frees(p)
    case SubCas(p, _, freeing, _) => freeing ==> t in l.calls && l.calls[t] == Frees(p)
    case Release(p) => t in l.calls && l.calls[t] == Frees(p)
    case _ => true
  }

  ghost predicate ErrandsOk(l: Ledger, w: World)
  {
    forall t :: t in w.threads ==> OnErrand(l, t, w.threads[t])
  }

  /** Threads that have made, resized or are about to free an allocation, and have not counted it yet. */
  ghost function At(w: World, f: Pc -> bool): set<Tid>
  {
    set t | t in w.threads && f(w.threads[t])
  }

  function Makes(): Pc -> bool
  {
    (pc: Pc) => pc.CountAlloc?
  }

  function Resizes(): Pc -> bool
  {
    (pc: Pc) => pc.CountRealloc?
  }

  function MayFree(): Pc -> bool
  {
    (pc: Pc) => pc.CountFree?
  }

  ghost predicate LedgerOk(l: Ledger, w: World)
  {
    && ErrandsOk(l, w) && l.asked == w.heap
    && l.made == w.allocs + |At(w, Makes())|
    && l.resized == w.reallocs + |At(w, Resizes())|
    && l.freed == w.frees + |At(w, MayFree())|
  }

  lemma AtMoves(w: World, w': World, t: Tid, f: Pc -> bool)
    requires OnlyMoves(w, w', t)
    ensures |At(w', f)| + One(t in w.threads && f(PcOf(w, t))) == |At(w, f)| + One(f(PcOf(w', t)))
  {
    SetMember(At(w, f), At(w', f), t, f(PcOf(w', t)));
  }

  lemma ErrandsMove(l: Ledger, l': Ledger, w: World, w': World, t: Tid)
    requires ErrandsOk(l, w) && OnlyMoves(w, w', t) && OnErrand(l', t, PcOf(w', t))
    requires forall u :: u != t && u in l.calls ==> u in l'.calls && l'.calls[u] == l.calls[u]
    ensures ErrandsOk(l', w')
  {
  }

  lemma ErrandAt(l: Ledger, w: World, t: Tid)
    requires ErrandsOk(l, w)
    ensures OnErrand(l, t, PcOf(w, t))
  {
  }

  /** The ledger keeps up with the world when thread `t` moves and the counters follow. */
  lemma LedgerMoves(l: Ledger, l': Ledger, w: World, w': World, t: Tid)
    requires LedgerOk(l, w) && OnlyMoves(w, w', t) && OnErrand(l', t, PcOf(w', t)) && l'.asked == w'.heap
    requires forall u :: u != t && u in l.calls ==> u in l'.calls && l'.calls[u] == l.calls[u]
    requires var pc, pc' := PcOf(w, t), PcOf(w', t);
             && l'.made - w'.allocs - One(pc'.CountAlloc?) == l.made - w.allocs - One(pc.CountAlloc?)
             && l'.resized - w'.reallocs - One(pc'.CountRealloc?) == l.resized - w.reallocs - One(pc.CountRealloc?)
             && l'.freed - w'.frees - One(pc'.CountFree?) == l.freed - w.frees - One(pc.CountFree?)
    ensures LedgerOk(l', w')
  {
    ErrandsMove(l, l', w, w', t);
    hide ErrandsOk, OnErrand, At;
    AtMoves(w, w', t, Makes());
    AtMoves(w, w', t, Resizes());
    AtMoves(w, w', t, MayFree());
  }

  /** A call puts its errand into the ledger. */
  lemma CallErrand(l: Ledger, w: World, s: Step)
    requires ThreadsOk(w) && Enabled(w, s) && IsCall(s)
    ensures var l', pc := Noted(l, s), PcOf(Do(w, s), s.t);
            && OnErrand(l', s.t, pc)
            && l' == l.(calls := l'.calls, freed := l.freed + One(pc.CountFree?))
            && (forall u :: u != s.t && u in l.calls ==> u in l'.calls && l'.calls[u] == l.calls[u])
            && (Do(w, s).threads == w.threads ==> l' == l)
  {
    hide ThreadsOk, IsFree, U64_LIMIT, Do, CallocOverflows, PcOf;
    CallPc(w, s);
    if s.CallCalloc? {
      CallocFits(s.count, s.size);
    }
  }

  /** Where a call takes its thread. */
  lemma CallPc(w: World, s: Step)
    requires ThreadsOk(w) && Enabled(w, s) && IsCall(s)
    ensures var pc, moved := PcOf(Do(w, s), s.t), Do(w, s).threads != w.threads;
            match s
            case CallMalloc(_, size) => moved && pc == FaultLoad(Malloc(size))
            case CallCalloc(_, count, size) =>
              if CallocOverflows(count, size) then !moved && pc.Idle?
              else moved && pc == FaultLoad(Malloc(count * size))
            case CallRealloc(_, None, size) => moved && pc == FaultLoad(Malloc(size))
            case CallRealloc(_, Some(p), size) =>
              moved && pc == if size == 0 then CountFree(p) else FaultLoad(Realloc(p, size))
            case CallFree(_, ptr) => if ptr.None? then !moved && pc.Idle? else moved && pc == CountFree(ptr.value)
            case _ => true
  {
    hide ThreadsOk, IsFree, CallocOverflows;
  }

  lemma CallocFits(count: nat, size: nat)
    ensures CallocOverflows(count, size) <==> count * size >= U64_LIMIT
  {
    if count != 0 {
      QuotientBound(count, size, U64_LIMIT - 1);
    }
  }

  lemma CallLedger(l: Ledger, w: World, s: Step)
    requires ThreadsOk(w) && LedgerOk(l, w) && Enabled(w, s) && IsCall(s)
    ensures LedgerOk(Noted(l, s), Do(w, s))
  {
    hide ThreadsOk, ErrandsOk, OnErrand, At, Do, Enabled, Noted;
    CallErrand(l, w, s);
    CallChanges(w, s);
    if Do(w, s).threads != w.threads {
      LedgerMoves(l, Noted(l, s), w, Do(w, s), s.t);
    }
  }

  lemma AllocateLedger(l: Ledger, w: World, t: Tid, result: Option<Ptr>)
    requires ThreadsOk(w) && LedgerOk(l, w) && Enabled(w, SystemAllocate(t, result))
    ensures LedgerOk(Noted(l, SystemAllocate(t, result)), Do(w, SystemAllocate(t, result)))
  {
    var s := SystemAllocate(t, result);
    ErrandAt(l, w, t);
    hide ThreadsOk, IsFree, ErrandsOk, At;
    LedgerMoves(l, Noted(l, s), w, Do(w, s), t);
  }

  lemma BumpLedger(l: Ledger, w: World, t: Tid)
    requires ThreadsOk(w) && LedgerOk(l, w) && Enabled(w, BumpCounter(t))
    ensures LedgerOk(l, Do(w, BumpCounter(t)))
  {
    ErrandAt(l, w, t);
    hide ThreadsOk, IsFree, ErrandsOk, At;
    LedgerMoves(l, l, w, Do(w, BumpCounter(t)), t);
  }

  lemma FreeLedger(l: Ledger, w: World, t: Tid)
    requires ThreadsOk(w) && LedgerOk(l, w) && Enabled(w, SystemFree(t))
    ensures LedgerOk(Noted(l, SystemFree(t)), Do(w, SystemFree(t)))
  {
    ErrandAt(l, w, t);
    hide ThreadsOk, IsFree, ErrandsOk, At;
    LedgerMoves(l, Noted(l, SystemFree(t)), w, Do(w, SystemFree(t)), t);
  }

  /** The remaining steps of a thread have no part in the ledger. */
  lemma PlainErrand(l: Ledger, w: World, s: Step)
    requires ThreadsOk(w) && Enabled(w, s) && (IsFaultCheck(s) || s.LoadLive? || s.CasLive?)
    requires OnErrand(l, s.t, PcOf(w, s.t))
    ensures OnErrand(l, s.t, PcOf(Do(w, s), s.t))
  {
    hide ThreadsOk, IsFree;
  }

  lemma PlainLedger(l: Ledger, w: World, s: Step)
    requires ThreadsOk(w) && LedgerOk(l, w) && Enabled(w, s)
    requires IsFaultCheck(s) || s.FetchAddLive? || s.LoadPeak? || s.CasPeak? || s.LoadLive? || s.CasLive?
    ensures LedgerOk(l, Do(w, s))
  {
    hide ThreadsOk, ErrandsOk, At, Do, Enabled, PcOf;
    ErrandAt(l, w, s.t);
    if IsFaultCheck(s) {
      PlainErrand(l, w, s);
      FaultCheckChanges(w, s);
    } else if s.FetchAddLive? {
      AddChanges(w, s.t);
    } else if s.LoadPeak? || s.CasPeak? {
      PeakChanges(w, s);
    } else {
      PlainErrand(l, w, s);
      SubChanges(w, s);
    }
    LedgerMoves(l, l, w, Do(w, s), s.t);
  }

  lemma StepLedger(l: Ledger, w: World, s: Step)
    requires ThreadsOk(w) && LedgerOk(l, w) && Enabled(w, s)
    ensures LedgerOk(Noted(l, s), Do(w, s))
  {
    hide ThreadsOk, Do, Enabled, LedgerOk;
    if IsCall(s) {
      CallLedger(l, w, s);
    } else if s.SystemAllocate? {
      AllocateLedger(l, w, s.t, s.result);
    } else if s.BumpCounter? {
      BumpLedger(l, w, s.t);
    } else if s.SystemFree? {
      FreeLedger(l, w, s.t);
    } else if s.SetFaultCountdown? || s.ClearFault? {
      SetChanges(w, s);
      SameLedger(l, w, Do(w, s));
    } else {
      PlainLedger(l, w, s);
    }
  }

  lemma SameLedger(l: Ledger, w: World, w': World)
    requires LedgerOk(l, w) && w'.threads == w.threads && w'.heap == w.heap
    requires w'.allocs == w.allocs && w'.frees == w.frees && w'.reallocs == w.reallocs
    ensures LedgerOk(l, w')
  {
    hide OnErrand;
    assert At(w', Makes()) == At(w, Makes()) && At(w', Resizes()) == At(w, Resizes());
    assert At(w', MayFree()) == At(w, MayFree());
  }

  lemma {:induction false} RunLedger(l: Ledger, w: World, ss: seq<Step>)
    requires Inv(w) && LedgerOk(l, w) && IsRun(w, ss)
    ensures LedgerOk(LedgerOf(l, ss), Final(w, ss))
    decreases |ss|
  {
    hide Inv, Do, Enabled, ThreadsOk, LedgerOk, Noted;
    if ss != [] {
      StepInv(w, ss[0]);
      StepLedger(l, w, ss[0]);
      RunLedger(Noted(l, ss[0]), Do(w, ss[0]), ss[1..]);
    }
  }

  /**
    In every interleaving the size in the header of each allocation is the one its last successful malloc, calloc or
    realloc asked for, and the counters are exact up to the calls in flight. At quiescence the live count is the sum of
    the sizes asked for, and the counters are the numbers of allocations made, resized and freed.
   */
  lemma {:induction false} AskedExact(ss: seq<Step>)
    requires IsRun(Init(), ss)
    ensures var w, l := Final(Init(), ss), LedgerOf(EmptyLedger(), ss);
            && w.heap == l.asked
            && l.made == w.allocs + |At(w, Makes())| && l.resized == w.reallocs + |At(w, Resizes())|
            && l.freed == w.frees + |At(w, MayFree())|
            && (Quiescent(w) ==>
                  w.live == Sum(l.asked) && w.allocs == l.made && w.reallocs == l.resized && w.frees == l.freed)
  {
    InitInv();
    assert At(Init(), Makes()) == {} && At(Init(), Resizes()) == {} && At(Init(), MayFree()) == {};
    hide IsRun, Final, LedgerOf, Sum, Inv;
    RunLedger(EmptyLedger(), Init(), ss);
    LiveConservation(ss);
    var w := Final(Init(), ss);
    if Quiescent(w) {
      assert At(w, Makes()) == {} && At(w, Resizes()) == {} && At(w, MayFree()) == {};
    }
  }
}
