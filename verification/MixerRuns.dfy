/** Any number of threads writing, draining, closing, creating, reading and sweeping
    tracks, each step one critical section of the track mutex. Queue closes, waits and broadcasts may
    fail at will. */
module MixerRuns {
  import opened Mixer
  import opened Optional

  /** A close_all in progress: the next slot and whether a close has failed. */
  datatype Sweep = Sweep(next: nat, failed: bool)

  /** Where a thread is. */
  datatype Pc =
    | Operating(slot: nat, incarnation: nat)
    | Entering(slot: nat, sweep: Option<Sweep>)
    | Owning(slot: nat, incarnation: nat, sweep: Option<Sweep>)
    | Sweeping(state: Sweep)

  /** A destroyed pair of queues, and a close_all result. */
  datatype Destroyed = Destroyed(slot: nat, incarnation: nat)
  datatype Swept = Swept(ok: bool, allIdle: bool)

  datatype State = State(
    slots: seq<Slot>, closingAll: bool, pcs: map<nat, Pc>,
    sweeper: Option<nat>, destroyed: seq<Destroyed>, swept: seq<Swept>)

  datatype Action =
    | BeginOn(slot: nat) | EndOperation(woken: bool)
    | CreateTrack(made: bool)
    | CloseTrack(slot: nat) | TryEnter(waitOk: bool, queueOk: bool, drainOk: bool) | TryFinish(waitOk: bool, woken: bool)
    | CloseAll | SweepNext
    | ReadFrame(reached: nat)

  datatype Step = Step(thread: nat, action: Action)

  predicate AllIdle(slots: seq<Slot>, n: nat)
    requires n <= |slots|
  {
    forall i :: 0 <= i < n ==> Available(slots[i])
  }

  /** track_close returns to its caller: the application or close_all. */
  function Return(st: State, t: nat, sweep: Option<Sweep>, ok: bool): State {
    if sweep.None? then st.(pcs := st.pcs - {t})
    else st.(pcs := st.pcs[t := Sweeping(Sweep(sweep.value.next + 1, sweep.value.failed || !ok))])
  }

  function OnBegin(st: State, t: nat, i: nat): State {
    if t in st.pcs || i >= |st.slots| || Begin(st.slots[i]).None? then st
    else st.(slots := st.slots[i := Begin(st.slots[i]).value], pcs := st.pcs[t := Operating(i, st.slots[i].incarnation)])
  }

  function OnEnd(st: State, t: nat, woken: bool): State {
    if t !in st.pcs || !st.pcs[t].Operating? || st.pcs[t].slot >= |st.slots| then st else
    var i := st.pcs[t].slot;
    st.(slots := st.slots[i := End(st.slots[i], woken)], pcs := st.pcs - {t})
  }

  function OnCreate(st: State, t: nat, made: bool): State {
    var i := FirstAvailable(st.slots);
    if t in st.pcs || st.closingAll || i == |st.slots| then st
    else st.(slots := st.slots[i := Create(st.slots[i], made)])
  }

  function OnEnter(st: State, t: nat, waitOk: bool, queueOk: bool, drainOk: bool): State {
    if t !in st.pcs || !st.pcs[t].Entering? || st.pcs[t].slot >= |st.slots| then st else
    var (i, sweep) := (st.pcs[t].slot, st.pcs[t].sweep);
    var (s, entry) := Enter(st.slots[i], queueOk, drainOk);
    var next := st.(slots := st.slots[i := s]);
    match entry
    case Owns => next.(pcs := st.pcs[t := Owning(i, s.incarnation, sweep)])
    case Contended => if waitOk then next else Return(next, t, sweep, false)
    case AlreadyClosed => Return(next, t, sweep, true)
    case _ => Return(next, t, sweep, false)
  }

  function OnFinish(st: State, t: nat, waitOk: bool, woken: bool): State {
    if t !in st.pcs || !st.pcs[t].Owning? || st.pcs[t].slot >= |st.slots| then st else
    var (i, sweep) := (st.pcs[t].slot, st.pcs[t].sweep);
    var (s, exit) := Finish(st.slots[i], waitOk, woken);
    var gone := if st.slots[i].queue && !s.queue then [Destroyed(i, s.incarnation)] else [];
    var next := st.(slots := st.slots[i := s], destroyed := st.destroyed + gone);
    if exit.Busy? then next else Return(next, t, sweep, exit.Closed?)
  }

  function OnSweep(st: State, t: nat): State {
    if t !in st.pcs || !st.pcs[t].Sweeping? then st else
    var sweep := st.pcs[t].state;
    if sweep.next >= |st.slots| then
      st.(pcs := st.pcs - {t}, closingAll := false, sweeper := None,
          swept := st.swept + [Swept(!sweep.failed, AllIdle(st.slots, |st.slots|))])
    else if Available(st.slots[sweep.next]) then
      st.(pcs := st.pcs[t := Sweeping(Sweep(sweep.next + 1, sweep.failed))])
    else st.(pcs := st.pcs[t := Entering(sweep.next, Some(sweep))])
  }

  /** The mixer's read, over the slots up to an error. */
  function OnRead(st: State, reached: nat): State {
    st.(slots := seq(|st.slots|, i requires 0 <= i < |st.slots| =>
      if i < reached then Mix(st.slots[i]) else st.slots[i]))
  }

  function Next(st: State, step: Step): State {
    var t := step.thread;
    match step.action
    case BeginOn(i) => OnBegin(st, t, i)
    case EndOperation(woken) => OnEnd(st, t, woken)
    case CreateTrack(made) => OnCreate(st, t, made)
    case CloseTrack(i) =>
      if t in st.pcs || i >= |st.slots| then st else st.(pcs := st.pcs[t := Entering(i, None)])
    case TryEnter(waitOk, queueOk, drainOk) => OnEnter(st, t, waitOk, queueOk, drainOk)
    case TryFinish(waitOk, woken) => OnFinish(st, t, waitOk, woken)
    case CloseAll =>
      if t in st.pcs || st.closingAll then st
      else st.(closingAll := true, sweeper := Some(t), pcs := st.pcs[t := Sweeping(Sweep(0, false))])
    case SweepNext => OnSweep(st, t)
    case ReadFrame(reached) => OnRead(st, reached)
  }

  function Start(count: nat): State {
    State(seq(count, _ => UNUSED), false, map[], None, [], [])
  }

  function Run(count: nat, steps: seq<Step>): State {
    if steps == [] then Start(count) else Next(Run(count, steps[..|steps| - 1]), steps[|steps| - 1])
  }

  // ---- operations and owners ----

  /** The threads with an operation in flight on slot `i`. */
  function OperatingOn(pcs: map<nat, Pc>, i: nat): set<nat> {
    set t | t in pcs && pcs[t].Operating? && pcs[t].slot == i
  }

  predicate SlotsOk(slots: seq<Slot>) { forall i :: 0 <= i < |slots| ==> SlotOk(slots[i]) }

  predicate CountsOk(slots: seq<Slot>, pcs: map<nat, Pc>) {
    forall i :: 0 <= i < |slots| ==> slots[i].operations == |OperatingOn(pcs, i)|
  }

  predicate PcOk(slots: seq<Slot>, pc: Pc) {
    match pc
    case Operating(i, inc) => i < |slots| && slots[i].active && slots[i].incarnation == inc
    case Entering(i, _) => i < |slots|
    case Owning(i, inc, _) => i < |slots| && slots[i].closeInProgress && slots[i].incarnation == inc
    case Sweeping(_) => true
  }

  ghost predicate PcsOk(slots: seq<Slot>, pcs: map<nat, Pc>) {
    forall t :: t in pcs ==> PcOk(slots, pcs[t])
  }

  ghost predicate OneOwner(pcs: map<nat, Pc>) {
    forall t, u :: t in pcs && u in pcs && pcs[t].Owning? && pcs[u].Owning? && pcs[t].slot == pcs[u].slot ==> t == u
  }

  ghost predicate DestroyedOk(slots: seq<Slot>, destroyed: seq<Destroyed>) {
    && (forall k :: 0 <= k < |destroyed| ==> Gone(slots, destroyed[k]))
    && (forall j, k :: 0 <= j < k < |destroyed| ==> destroyed[j] != destroyed[k])
  }

  predicate Gone(slots: seq<Slot>, d: Destroyed) {
    && d.slot < |slots|
    && (d.incarnation < slots[d.slot].incarnation
        || (d.incarnation == slots[d.slot].incarnation && !slots[d.slot].active))
  }

  ghost predicate LifeOk(st: State) {
    && SlotsOk(st.slots) && CountsOk(st.slots, st.pcs) && PcsOk(st.slots, st.pcs)
    && OneOwner(st.pcs) && DestroyedOk(st.slots, st.destroyed)
  }

  /** Moving a thread that neither was nor becomes an operation leaves the counts alone. */
  lemma CountsFrame(pcs: map<nat, Pc>, t: nat, pc: Pc)
    requires !pc.Operating? && (t in pcs ==> !pcs[t].Operating?)
    ensures forall i :: OperatingOn(pcs[t := pc], i) == OperatingOn(pcs, i)
    ensures forall i :: OperatingOn(pcs - {t}, i) == OperatingOn(pcs, i)
  {
  }

  /** Frames for an update of one slot. */
  lemma SlotsFrame(slots: seq<Slot>, i: nat, s: Slot)
    requires SlotsOk(slots) && i < |slots| && SlotOk(s)
    ensures SlotsOk(slots[i := s])
  {
    hide SlotOk;
  }

  lemma PcsFrame(slots: seq<Slot>, pcs: map<nat, Pc>, i: nat, s: Slot)
    requires PcsOk(slots, pcs) && i < |slots| && s.active == slots[i].active && s.incarnation == slots[i].incarnation
    requires slots[i].closeInProgress ==> s.closeInProgress
    ensures PcsOk(slots[i := s], pcs)
  {
    forall u | u in pcs ensures PcOk(slots[i := s], pcs[u]) { assert PcOk(slots, pcs[u]); }
  }

  lemma DestroyedFrame(slots: seq<Slot>, destroyed: seq<Destroyed>, i: nat, s: Slot)
    requires DestroyedOk(slots, destroyed) && i < |slots|
    requires s.incarnation > slots[i].incarnation
      || (s.incarnation == slots[i].incarnation && (s.active ==> slots[i].active))
    ensures DestroyedOk(slots[i := s], destroyed)
  {
    forall k | 0 <= k < |destroyed| ensures Gone(slots[i := s], destroyed[k]) { assert Gone(slots, destroyed[k]); }
  }

  /** A thread starts or changes what it does, owning nothing. */
  lemma PcsMove(slots: seq<Slot>, pcs: map<nat, Pc>, t: nat, pc: Pc)
    requires PcsOk(slots, pcs) && OneOwner(pcs) && PcOk(slots, pc) && !pc.Owning?
    ensures PcsOk(slots, pcs[t := pc]) && OneOwner(pcs[t := pc])
    ensures PcsOk(slots, pcs - {t}) && OneOwner(pcs - {t})
  {
    hide PcOk;
  }

  lemma CountsBegin(slots: seq<Slot>, pcs: map<nat, Pc>, t: nat, i: nat, s: Slot, inc: nat)
    requires CountsOk(slots, pcs) && t !in pcs && i < |slots| && s.operations == slots[i].operations + 1
    ensures CountsOk(slots[i := s], pcs[t := Operating(i, inc)])
  {
    var more := pcs[t := Operating(i, inc)];
    assert OperatingOn(more, i) == OperatingOn(pcs, i) + {t};
    forall j | 0 <= j < |slots| ensures slots[i := s][j].operations == |OperatingOn(more, j)| {
      if j != i { assert OperatingOn(more, j) == OperatingOn(pcs, j); }
    }
  }

  lemma BeginKeepsLife(st: State, t: nat, i: nat)
    requires LifeOk(st)
    ensures LifeOk(OnBegin(st, t, i))
  {
    hide SlotsOk, CountsOk, PcsOk, OneOwner, DestroyedOk;
    if t !in st.pcs && i < |st.slots| && Begin(st.slots[i]).Some? {
      var s := Begin(st.slots[i]).value;
      SlotIsOk(st, i);
      SlotsFrame(st.slots, i, s);
      CountsBegin(st.slots, st.pcs, t, i, s, st.slots[i].incarnation);
      PcsFrame(st.slots, st.pcs, i, s);
      PcsMove(st.slots[i := s], st.pcs, t, Operating(i, st.slots[i].incarnation));
      DestroyedFrame(st.slots, st.destroyed, i, s);
    }
  }

  lemma EndKeepsLife(st: State, t: nat, woken: bool)
    requires LifeOk(st)
    ensures LifeOk(OnEnd(st, t, woken))
  {
    if t in st.pcs && st.pcs[t].Operating? {
      var i := st.pcs[t].slot;
      var next := OnEnd(st, t, woken);
      assert PcOk(st.slots, st.pcs[t]);
      assert t in OperatingOn(st.pcs, i);
      assert OperatingOn(next.pcs, i) == OperatingOn(st.pcs, i) - {t};
      forall j | 0 <= j < |st.slots| && j != i ensures OperatingOn(next.pcs, j) == OperatingOn(st.pcs, j) {}
      forall u | u in next.pcs ensures PcOk(next.slots, next.pcs[u]) { assert PcOk(st.slots, st.pcs[u]); }
      forall k | 0 <= k < |st.destroyed| ensures Gone(next.slots, st.destroyed[k]) { assert Gone(st.slots, st.destroyed[k]); }
    }
  }

  /** Nobody operates on a slot that is not active. */
  lemma InactiveIsQuiet(st: State, i: nat)
    requires LifeOk(st) && i < |st.slots| && st.slots[i].operations == 0
    ensures OperatingOn(st.pcs, i) == {}
    ensures forall t :: t in st.pcs && st.pcs[t].Operating? ==> st.pcs[t].slot != i
  {
    assert |OperatingOn(st.pcs, i)| == 0;
    forall t | t in st.pcs && st.pcs[t].Operating? ensures st.pcs[t].slot != i {
      assert t !in OperatingOn(st.pcs, i);
    }
  }

  lemma CreateKeepsLife(st: State, t: nat, made: bool)
    requires LifeOk(st)
    ensures LifeOk(OnCreate(st, t, made))
  {
    var i := FirstAvailable(st.slots);
    if t !in st.pcs && !st.closingAll && i < |st.slots| {
      var next := OnCreate(st, t, made);
      assert SlotOk(st.slots[i]);
      InactiveIsQuiet(st, i);
      forall u | u in st.pcs ensures PcOk(next.slots, st.pcs[u]) { assert PcOk(st.slots, st.pcs[u]); }
      forall k | 0 <= k < |st.destroyed| ensures Gone(next.slots, st.destroyed[k]) { assert Gone(st.slots, st.destroyed[k]); }
    }
  }

  ghost predicate NoOwner(pcs: map<nat, Pc>, i: nat) {
    forall u :: u in pcs && pcs[u].Owning? ==> pcs[u].slot != i
  }

  /** An update of one slot that keeps its operations, its track and a close in progress. */
  lemma UpdateKeepsLife(st: State, i: nat, s: Slot)
    requires LifeOk(st) && i < |st.slots| && SlotOk(s)
    requires s.active == st.slots[i].active && s.operations == st.slots[i].operations
    requires s.incarnation == st.slots[i].incarnation && (st.slots[i].closeInProgress ==> s.closeInProgress)
    ensures LifeOk(st.(slots := st.slots[i := s]))
  {
    hide SlotsOk, CountsOk, PcsOk, OneOwner, DestroyedOk;
    SlotsFrame(st.slots, i, s);
    CountsUpdate(st.slots, st.pcs, st.pcs, i, s);
    PcsFrame(st.slots, st.pcs, i, s);
    DestroyedFrame(st.slots, st.destroyed, i, s);
  }

  lemma NotOwned(st: State, i: nat)
    requires LifeOk(st) && i < |st.slots| && !st.slots[i].closeInProgress
    ensures NoOwner(st.pcs, i)
  {
    hide SlotsOk, CountsOk, OneOwner, DestroyedOk;
    forall u | u in st.pcs && st.pcs[u].Owning? ensures st.pcs[u].slot != i { assert PcOk(st.slots, st.pcs[u]); }
  }

  lemma OwnKeepsLife(st: State, t: nat, pc: Pc)
    requires LifeOk(st) && pc.Owning? && PcOk(st.slots, pc) && NoOwner(st.pcs, pc.slot)
    requires t in st.pcs && st.pcs[t].Entering?
    ensures LifeOk(st.(pcs := st.pcs[t := pc]))
  {
    CountsFrame(st.pcs, t, pc);
  }

  lemma EnterKeepsLife(st: State, t: nat, waitOk: bool, queueOk: bool, drainOk: bool)
    requires LifeOk(st)
    ensures LifeOk(OnEnter(st, t, waitOk, queueOk, drainOk))
  {
    hide Enter, LifeOk, SlotOk;
    if t in st.pcs && st.pcs[t].Entering? && st.pcs[t].slot < |st.slots| {
      var (i, sweep) := (st.pcs[t].slot, st.pcs[t].sweep);
      SlotIsOk(st, i);
      var (s, entry) := Enter(st.slots[i], queueOk, drainOk);
      UpdateKeepsLife(st, i, s);
      var next := st.(slots := st.slots[i := s]);
      if entry.Owns? {
        NotOwned(st, i);
        OwnKeepsLife(next, t, Owning(i, s.incarnation, sweep));
      } else {
        MoveKeepsLife(next, t, if sweep.None? then st.pcs[t] else
          Sweeping(Sweep(sweep.value.next + 1, sweep.value.failed || !entry.AlreadyClosed?)));
      }
    }
  }

  lemma CountsUpdate(slots: seq<Slot>, pcs: map<nat, Pc>, more: map<nat, Pc>, i: nat, s: Slot)
    requires CountsOk(slots, pcs) && i < |slots| && s.operations == slots[i].operations
    requires forall j :: OperatingOn(more, j) == OperatingOn(pcs, j)
    ensures CountsOk(slots[i := s], more)
  {
    forall j | 0 <= j < |slots| ensures slots[i := s][j].operations == |OperatingOn(more, j)| {
      assert OperatingOn(more, j) == OperatingOn(pcs, j);
    }
  }

  /** The owner of a close lets go of the slot; nobody else holds on to it. */
  lemma PcsRelease(st: State, t: nat, s: Slot)
    requires LifeOk(st) && t in st.pcs && st.pcs[t].Owning?
    requires var i := st.pcs[t].slot;
      i < |st.slots| && s.incarnation == st.slots[i].incarnation && (s.active != st.slots[i].active ==> st.slots[i].operations == 0)
    ensures PcsOk(st.slots[st.pcs[t].slot := s], st.pcs - {t}) && OneOwner(st.pcs - {t})
  {
    hide SlotsOk, CountsOk, DestroyedOk;
    var i, rest := st.pcs[t].slot, st.pcs - {t};
    if st.slots[i].operations == 0 { InactiveIsQuiet(st, i); }
    forall u | u in rest ensures PcOk(st.slots[i := s], rest[u]) { assert PcOk(st.slots, st.pcs[u]); }
  }

  lemma FinishKeepsPcs(st: State, t: nat, waitOk: bool, woken: bool)
    requires LifeOk(st) && t in st.pcs && st.pcs[t].Owning? && st.pcs[t].slot < |st.slots|
    ensures var next := OnFinish(st, t, waitOk, woken); PcsOk(next.slots, next.pcs) && OneOwner(next.pcs)
  {
    hide Finish, SlotsOk, CountsOk, DestroyedOk, PcsOk, OneOwner;
    var i, sweep := st.pcs[t].slot, st.pcs[t].sweep;
    var (s, exit) := Finish(st.slots[i], waitOk, woken);
    if exit.Busy? {
      BusyKeeps(st.slots[i], waitOk, woken);
      assert st.slots[i := s] == st.slots;
    } else {
      PcsRelease(st, t, s);
      if sweep.Some? {
        var pc := Sweeping(Sweep(sweep.value.next + 1, sweep.value.failed || !exit.Closed?));
        PcsMove(st.slots[i := s], st.pcs - {t}, t, pc);
        assert (st.pcs - {t})[t := pc] == st.pcs[t := pc];
      }
    }
  }

  lemma BusyKeeps(s: Slot, waitOk: bool, woken: bool)
    ensures Finish(s, waitOk, woken).1.Busy? ==> Finish(s, waitOk, woken).0 == s
  {
  }

  lemma FinishKeepsCounts(st: State, t: nat, waitOk: bool, woken: bool)
    requires CountsOk(st.slots, st.pcs) && t in st.pcs && st.pcs[t].Owning? && st.pcs[t].slot < |st.slots|
    ensures var next := OnFinish(st, t, waitOk, woken); CountsOk(next.slots, next.pcs)
  {
    hide Finish, CountsOk;
    var i := st.pcs[t].slot;
    var next := OnFinish(st, t, waitOk, woken);
    CountsFrame(st.pcs, t, if t in next.pcs && !next.pcs[t].Owning? then next.pcs[t] else Sweeping(Sweep(0, false)));
    CountsUpdate(st.slots, st.pcs, next.pcs, i, Finish(st.slots[i], waitOk, woken).0);
  }

  lemma FinishKeepsLife(st: State, t: nat, waitOk: bool, woken: bool)
    requires LifeOk(st)
    ensures LifeOk(OnFinish(st, t, waitOk, woken))
  {
    hide Finish, SlotsOk, CountsOk, PcsOk, OneOwner, DestroyedOk;
    if t in st.pcs && st.pcs[t].Owning? && st.pcs[t].slot < |st.slots| {
      var i := st.pcs[t].slot;
      SlotIsOk(st, i);
      SlotsFrame(st.slots, i, Finish(st.slots[i], waitOk, woken).0);
      FinishKeepsCounts(st, t, waitOk, woken);
      FinishKeepsPcs(st, t, waitOk, woken);
      FinishKeepsDestroyed(st, t, waitOk, woken);
    }
  }

  lemma DestroyedAppend(slots: seq<Slot>, destroyed: seq<Destroyed>, d: Destroyed)
    requires DestroyedOk(slots, destroyed) && Gone(slots, d) && d !in destroyed
    ensures DestroyedOk(slots, destroyed + [d])
  {
    hide Gone;
  }

  lemma NotYetDestroyed(slots: seq<Slot>, destroyed: seq<Destroyed>, i: nat)
    requires DestroyedOk(slots, destroyed) && i < |slots| && slots[i].active
    ensures Destroyed(i, slots[i].incarnation) !in destroyed
  {
    forall k | 0 <= k < |destroyed| ensures destroyed[k] != Destroyed(i, slots[i].incarnation) {
      assert Gone(slots, destroyed[k]);
    }
  }

  lemma FinishKeepsDestroyed(st: State, t: nat, waitOk: bool, woken: bool)
    requires LifeOk(st) && t in st.pcs && st.pcs[t].Owning? && st.pcs[t].slot < |st.slots|
    ensures var next := OnFinish(st, t, waitOk, woken); DestroyedOk(next.slots, next.destroyed)
  {
    hide LifeOk, DestroyedOk;
    var i := st.pcs[t].slot;
    var s := Finish(st.slots[i], waitOk, woken).0;
    SlotIsOk(st, i);
    LifeDestroyed(st);
    DestroyedFrame(st.slots, st.destroyed, i, s);
    if st.slots[i].queue && !s.queue {
      NotYetDestroyed(st.slots, st.destroyed, i);
      DestroyedAppend(st.slots[i := s], st.destroyed, Destroyed(i, s.incarnation));
    } else {
      assert st.destroyed + [] == st.destroyed;
    }
  }

  lemma LifeDestroyed(st: State)
    requires LifeOk(st)
    ensures DestroyedOk(st.slots, st.destroyed)
  {
  }

  lemma SlotIsOk(st: State, i: nat)
    requires LifeOk(st) && i < |st.slots|
    ensures SlotOk(st.slots[i])
  {
    hide SlotOk;
  }

  lemma MoveKeepsLife(st: State, t: nat, pc: Pc)
    requires LifeOk(st) && !pc.Operating? && !pc.Owning? && PcOk(st.slots, pc)
    requires t in st.pcs ==> st.pcs[t].Sweeping? || st.pcs[t].Entering?
    ensures LifeOk(st.(pcs := st.pcs[t := pc])) && LifeOk(st.(pcs := st.pcs - {t}))
  {
    CountsFrame(st.pcs, t, pc);
  }

  /** Every open track has its queue, so a read gives up none. */
  lemma ReadGivesUpNothing(st: State, reached: nat)
    requires LifeOk(st)
    ensures OnRead(st, reached) == st
  {
    var next := OnRead(st, reached);
    forall i | 0 <= i < |st.slots| ensures next.slots[i] == st.slots[i] { assert SlotOk(st.slots[i]); }
  }

  lemma StepKeepsLife(st: State, step: Step)
    requires LifeOk(st)
    ensures LifeOk(Next(st, step))
  {
    hide LifeOk;
    var t := step.thread;
    match step.action
    case BeginOn(i) => BeginKeepsLife(st, t, i);
    case EndOperation(woken) => EndKeepsLife(st, t, woken);
    case CreateTrack(made) => CreateKeepsLife(st, t, made);
    case CloseTrack(i) => if t !in st.pcs && i < |st.slots| { MoveKeepsLife(st, t, Entering(i, None)); }
    case TryEnter(a, b, c) => EnterKeepsLife(st, t, a, b, c);
    case TryFinish(a, b) => FinishKeepsLife(st, t, a, b);
    case CloseAll => if t !in st.pcs { MoveKeepsLife(st, t, Sweeping(Sweep(0, false))); SameLife(st, t); }
    case SweepNext => SweepKeepsLife(st, t);
    case ReadFrame(reached) => ReadGivesUpNothing(st, reached);
  }

  lemma SameLife(st: State, t: nat)
    requires LifeOk(st.(pcs := st.pcs[t := Sweeping(Sweep(0, false))]))
    ensures LifeOk(st.(closingAll := true, sweeper := Some(t), pcs := st.pcs[t := Sweeping(Sweep(0, false))]))
  {
  }

  lemma SweepKeepsLife(st: State, t: nat)
    requires LifeOk(st)
    ensures LifeOk(OnSweep(st, t))
  {
    if t in st.pcs && st.pcs[t].Sweeping? {
      var sweep := st.pcs[t].state;
      MoveKeepsLife(st, t, Sweeping(Sweep(sweep.next + 1, sweep.failed)));
      if sweep.next < |st.slots| { MoveKeepsLife(st, t, Entering(sweep.next, Some(sweep))); }
    }
  }

  lemma {:induction false} RunKeepsLife(count: nat, steps: seq<Step>)
    ensures LifeOk(Run(count, steps))
  {
    if steps == [] {
      assert Run(count, steps) == Start(count);
      forall i | 0 <= i < count ensures OperatingOn(map[], i) == {} {}
    } else {
      hide Next, LifeOk;
      var before := steps[..|steps| - 1];
      RunKeepsLife(count, before);
      StepKeepsLife(Run(count, before), steps[|steps| - 1]);
    }
  }

  /** In every reachable state, a thread inside write or drain still has the queues it
      started with, in a slot that was not taken again; no queues were destroyed twice;
      and at most one thread owns the close of a track. */
  lemma {:induction false} OperationsKeepTheirQueues(count: nat, steps: seq<Step>)
    ensures var st := Run(count, steps);
      && (forall t :: t in st.pcs && st.pcs[t].Operating? ==>
            var pc := st.pcs[t];
            && pc.slot < |st.slots| && st.slots[pc.slot].queue && st.slots[pc.slot].drain
            && st.slots[pc.slot].incarnation == pc.incarnation
            && Destroyed(pc.slot, pc.incarnation) !in st.destroyed)
      && (forall j, k :: 0 <= j < k < |st.destroyed| ==> st.destroyed[j] != st.destroyed[k])
      && OneOwner(st.pcs)
  {
    RunKeepsLife(count, steps);
    var st := Run(count, steps);
    forall t | t in st.pcs && st.pcs[t].Operating?
      ensures var pc := st.pcs[t];
        && pc.slot < |st.slots| && st.slots[pc.slot].queue && st.slots[pc.slot].drain
        && st.slots[pc.slot].incarnation == pc.incarnation
        && Destroyed(pc.slot, pc.incarnation) !in st.destroyed
    {
      var pc := st.pcs[t];
      assert PcOk(st.slots, pc) && SlotOk(st.slots[pc.slot]);
      assert forall k :: 0 <= k < |st.destroyed| ==> Gone(st.slots, st.destroyed[k]);
    }
  }

  lemma StepWhenQuiet(st: State, step: Step, i: nat)
    requires LifeOk(st) && i < |st.slots|
    ensures var next := Next(st, step);
      && |next.slots| == |st.slots|
      && ((st.slots[i].queue && !next.slots[i].queue) || st.slots[i].incarnation != next.slots[i].incarnation
          ==> st.slots[i].operations == 0)
  {
    hide LifeOk, Enter, Finish, OnRead;
    assert SlotOk(st.slots[i]) by { SlotIsOk(st, i); }
    if step.action.ReadFrame? { ReadGivesUpNothing(st, step.action.reached); }
    match step.action
    case BeginOn(_) =>
    case EndOperation(_) =>
    case CreateTrack(_) =>
    case TryEnter(_, _, _) =>
    case TryFinish(_, _) =>
    case _ =>
  }

  /** The step that destroys a track's queues, or that takes its slot again, finds no
      operation in flight on it. */
  lemma {:induction false} QueuesGoWhenQuiet(count: nat, steps: seq<Step>, step: Step, i: nat)
    ensures var (st, next) := (Run(count, steps), Run(count, steps + [step]));
      i < |st.slots| ==>
      && i < |next.slots|
      && ((st.slots[i].queue && !next.slots[i].queue) || st.slots[i].incarnation != next.slots[i].incarnation
          ==> OperatingOn(st.pcs, i) == {})
  {
    hide Next, LifeOk;
    RunKeepsLife(count, steps);
    var st := Run(count, steps);
    assert (steps + [step])[..|steps|] == steps;
    if i < |st.slots| {
      StepWhenQuiet(st, step, i);
      if st.slots[i].operations == 0 { InactiveIsQuiet(st, i); }
    }
  }

  // ---- close_all ----

  function SweepOf(pc: Pc): Option<Sweep> {
    match pc
    case Operating(_, _) => None
    case Entering(_, sweep) => sweep
    case Owning(_, _, sweep) => sweep
    case Sweeping(sweep) => Some(sweep)
  }

  predicate SweepTrue(slots: seq<Slot>, pc: Pc) {
    SweepOf(pc).Some? ==>
      var w := SweepOf(pc).value;
      && w.next <= |slots|
      && (!pc.Sweeping? ==> pc.slot == w.next < |slots|)
      && (!w.failed ==> AllIdle(slots, w.next))
  }

  ghost predicate SweepOk(st: State) {
    && (st.closingAll <==> st.sweeper.Some?)
    && (forall t :: t in st.pcs && SweepOf(st.pcs[t]).Some? ==> st.sweeper == Some(t))
    && (forall t :: t in st.pcs ==> SweepTrue(st.slots, st.pcs[t]))
    && (forall k :: 0 <= k < |st.swept| ==> (st.swept[k].ok ==> st.swept[k].allIdle))
  }

  /** Changing a slot that was not idle, or leaving it idle, keeps every finished sweep. */
  lemma IdleFrame(slots: seq<Slot>, i: nat, s: Slot, pc: Pc)
    requires i < |slots| && SweepTrue(slots, pc) && (Available(slots[i]) ==> Available(s))
    ensures SweepTrue(slots[i := s], pc)
  {
  }

  lemma SlotKeepsSweep(st: State, i: nat, s: Slot)
    requires SweepOk(st) && i < |st.slots| && (Available(st.slots[i]) ==> Available(s))
    ensures SweepOk(st.(slots := st.slots[i := s]))
  {
    forall t | t in st.pcs ensures SweepTrue(st.slots[i := s], st.pcs[t]) { IdleFrame(st.slots, i, s, st.pcs[t]); }
  }

  /** A thread moves without starting a sweep; its own sweep, if any, stays true. */
  lemma MoveKeepsSweep(st: State, t: nat, pc: Pc)
    requires SweepOk(st) && SweepTrue(st.slots, pc)
    requires SweepOf(pc).Some? ==> t in st.pcs && SweepOf(st.pcs[t]).Some?
    ensures SweepOk(st.(pcs := st.pcs[t := pc])) && SweepOk(st.(pcs := st.pcs - {t}))
  {
  }

  lemma ReturnKeepsSweep(st: State, t: nat, ok: bool)
    requires SweepOk(st) && t in st.pcs && (st.pcs[t].Entering? || st.pcs[t].Owning?)
    requires st.pcs[t].slot < |st.slots| && (ok ==> Available(st.slots[st.pcs[t].slot]))
    ensures SweepOk(Return(st, t, st.pcs[t].sweep, ok))
  {
    var sweep := st.pcs[t].sweep;
    assert SweepTrue(st.slots, st.pcs[t]);
    MoveKeepsSweep(st, t, if sweep.None? then st.pcs[t]
      else Sweeping(Sweep(sweep.value.next + 1, sweep.value.failed || !ok)));
  }

  lemma OperationKeepsSweep(st: State, t: nat, i: nat, woken: bool)
    requires SweepOk(st) && LifeOk(st)
    ensures SweepOk(OnBegin(st, t, i)) && SweepOk(OnEnd(st, t, woken))
  {
    if t !in st.pcs && i < |st.slots| && Begin(st.slots[i]).Some? {
      SlotKeepsSweep(st, i, Begin(st.slots[i]).value);
      MoveKeepsSweep(st.(slots := st.slots[i := Begin(st.slots[i]).value]), t, Operating(i, st.slots[i].incarnation));
    }
    if t in st.pcs && st.pcs[t].Operating? {
      assert PcOk(st.slots, st.pcs[t]);
      var j := st.pcs[t].slot;
      SlotKeepsSweep(st, j, End(st.slots[j], woken));
      MoveKeepsSweep(st.(slots := st.slots[j := End(st.slots[j], woken)]), t, st.pcs[t]);
    }
  }

  lemma CreateKeepsSweep(st: State, t: nat, made: bool)
    requires SweepOk(st)
    ensures SweepOk(OnCreate(st, t, made))
  {
  }

  lemma EnterKeepsSweep(st: State, t: nat, waitOk: bool, queueOk: bool, drainOk: bool)
    requires SweepOk(st)
    ensures SweepOk(OnEnter(st, t, waitOk, queueOk, drainOk))
  {
    hide Enter;
    if t in st.pcs && st.pcs[t].Entering? && st.pcs[t].slot < |st.slots| {
      var i := st.pcs[t].slot;
      var (s, entry) := Enter(st.slots[i], queueOk, drainOk);
      SlotKeepsSweep(st, i, s);
      var next := st.(slots := st.slots[i := s]);
      assert SweepTrue(next.slots, next.pcs[t]);
      hide SweepOk;
      if entry.Owns? {
        MoveKeepsSweep(next, t, Owning(i, s.incarnation, st.pcs[t].sweep));
      } else if !entry.Contended? || !waitOk {
        ReturnKeepsSweep(next, t, entry.AlreadyClosed?);
      }
    }
  }

  lemma FinishKeepsSweep(st: State, t: nat, waitOk: bool, woken: bool)
    requires SweepOk(st) && LifeOk(st)
    ensures SweepOk(OnFinish(st, t, waitOk, woken))
  {
    hide Finish;
    if t in st.pcs && st.pcs[t].Owning? {
      var i := st.pcs[t].slot;
      assert PcOk(st.slots, st.pcs[t]) && SlotOk(st.slots[i]);
      var (s, exit) := Finish(st.slots[i], waitOk, woken);
      SlotKeepsSweep(st, i, s);
      var next := st.(slots := st.slots[i := s]);
      if !exit.Busy? { ReturnKeepsSweep(next, t, exit.Closed?); }
    }
  }

  lemma SweepKeepsSweep(st: State, t: nat)
    requires SweepOk(st)
    ensures SweepOk(OnSweep(st, t))
  {
    if t in st.pcs && st.pcs[t].Sweeping? {
      var sweep := st.pcs[t].state;
      assert SweepTrue(st.slots, st.pcs[t]);
      if sweep.next < |st.slots| {
        MoveKeepsSweep(st, t, if Available(st.slots[sweep.next]) then Sweeping(Sweep(sweep.next + 1, sweep.failed))
          else Entering(sweep.next, Some(sweep)));
      }
    }
  }

  lemma StepKeepsSweep(st: State, step: Step)
    requires SweepOk(st) && LifeOk(st)
    ensures SweepOk(Next(st, step))
  {
    hide LifeOk, OnBegin, OnEnd, OnCreate, OnEnter, OnFinish, OnSweep, OnRead;
    var t := step.thread;
    match step.action
    case BeginOn(i) => OperationKeepsSweep(st, t, i, true);
    case EndOperation(woken) => OperationKeepsSweep(st, t, 0, woken);
    case CreateTrack(made) => CreateKeepsSweep(st, t, made);
    case CloseTrack(i) => if t !in st.pcs && i < |st.slots| { MoveKeepsSweep(st, t, Entering(i, None)); }
    case TryEnter(a, b, c) => EnterKeepsSweep(st, t, a, b, c);
    case TryFinish(a, b) => FinishKeepsSweep(st, t, a, b);
    case CloseAll =>
    case SweepNext => SweepKeepsSweep(st, t);
    case ReadFrame(reached) => ReadGivesUpNothing(st, reached);
  }

  lemma {:induction false} RunKeepsSweep(count: nat, steps: seq<Step>)
    ensures SweepOk(Run(count, steps))
  {
    if steps == [] {
      assert Run(count, steps) == Start(count);
    } else {
      hide Next, LifeOk, SweepOk;
      var before := steps[..|steps| - 1];
      RunKeepsSweep(count, before);
      RunKeepsLife(count, before);
      StepKeepsSweep(Run(count, before), steps[|steps| - 1]);
    }
  }

  /** Whenever close_all returned OK, no slot was active or closing at the moment it
      cleared closing_all. */
  lemma {:induction false} CloseAllLeavesNothingOpen(count: nat, steps: seq<Step>)
    ensures var swept := Run(count, steps).swept;
      forall k :: 0 <= k < |swept| && swept[k].ok ==> swept[k].allIdle
  {
    RunKeepsSweep(count, steps);
  }
}
