/** What the mixer's track slots are for, over every run: tracks open, close once they are
    quiet, and a sweep of quiet tracks closes them all. */
module MixerProgress {
  import opened Mixer
  import opened MixerRuns
  import opened Optional

  lemma RunOn(count: nat, before: seq<Step>, step: Step)
    ensures Run(count, before + [step]) == Next(Run(count, before), step)
  {
    hide Next;
    assert (before + [step])[..|before|] == before;
  }

  /** A created track takes operations at once. */
  lemma CreatedTrackOpens(count: nat, steps: seq<Step>, t: nat)
    requires var st := Run(count, steps); t !in st.pcs && !st.closingAll && FirstAvailable(st.slots) < |st.slots|
    ensures var st := Run(count, steps); var i := FirstAvailable(st.slots);
      var end := Run(count, steps + [Step(t, CreateTrack(true))] + [Step(t, BeginOn(i))]);
      && t in end.pcs && end.pcs[t] == Operating(i, st.slots[i].incarnation + 1)
      && i < |end.slots| && end.slots[i].queue && end.slots[i].drain && end.slots[i].operations == 1
      && forall j :: 0 <= j < |st.slots| && j != i ==> j < |end.slots| && end.slots[j] == st.slots[j]
  {
    hide Run;
    var i := FirstAvailable(Run(count, steps).slots);
    RunOn(count, steps, Step(t, CreateTrack(true)));
    RunOn(count, steps + [Step(t, CreateTrack(true))], Step(t, BeginOn(i)));
  }

  /** An owner whose track has no operation left, none of which failed to wake it, closes
      it: the queues are gone and the slot is free. */
  lemma OwnerCloses(count: nat, steps: seq<Step>, t: nat)
    requires var st := Run(count, steps);
      && t in st.pcs && st.pcs[t].Owning? && st.pcs[t].sweep.None?
      && OperatingOn(st.pcs, st.pcs[t].slot) == {} && st.pcs[t].slot < |st.slots| && !st.slots[st.pcs[t].slot].failed
    ensures var st := Run(count, steps); var i := st.pcs[t].slot;
      var end := Run(count, steps + [Step(t, TryFinish(true, true))]);
      && t !in end.pcs && i < |end.slots| && Available(end.slots[i]) && !end.slots[i].queue && end.slots[i].closed
      && end.destroyed == st.destroyed + (if st.slots[i].queue then [Destroyed(i, st.slots[i].incarnation)] else [])
  {
    hide Run;
    RunKeepsLife(count, steps);
    RunOn(count, steps, Step(t, TryFinish(true, true)));
    Quiet(Run(count, steps), Run(count, steps).pcs[t].slot);
  }

  lemma Quiet(st: State, i: nat)
    requires LifeOk(st) && i < |st.slots| && OperatingOn(st.pcs, i) == {}
    ensures st.slots[i].operations == 0
  {
    hide SlotsOk, PcsOk, OneOwner, DestroyedOk;
    assert st.slots[i].operations == |OperatingOn(st.pcs, i)|;
  }

  /** Closing an open, quiet track succeeds when no call fails. */
  lemma CloseCloses(count: nat, steps: seq<Step>, t: nat, i: nat)
    requires var st := Run(count, steps);
      && t !in st.pcs && i < |st.slots| && st.slots[i].active && !st.slots[i].closing
      && OperatingOn(st.pcs, i) == {} && !st.slots[i].failed
    ensures var st := Run(count, steps);
      var end := Run(count, steps + [Step(t, CloseTrack(i))] + [Step(t, TryEnter(true, true, true))] + [Step(t, TryFinish(true, true))]);
      && t !in end.pcs && i < |end.slots| && Available(end.slots[i]) && !end.slots[i].queue
      && end.destroyed == st.destroyed + [Destroyed(i, st.slots[i].incarnation)]
  {
    hide Run;
    RunKeepsLife(count, steps);
    SlotIsOk(Run(count, steps), i);
    Quiet(Run(count, steps), i);
    RunOn(count, steps, Step(t, CloseTrack(i)));
    RunOn(count, steps + [Step(t, CloseTrack(i))], Step(t, TryEnter(true, true, true)));
    RunOn(count, steps + [Step(t, CloseTrack(i))] + [Step(t, TryEnter(true, true, true))], Step(t, TryFinish(true, true)));
  }

  /** A second closer waits for the owner of the close, and when the owner succeeds so does
      it: it returns, and a close_all goes on to the next track without an error. */
  lemma SecondCloserSucceeds(count: nat, steps: seq<Step>, owner: nat, second: nat, queueOk: bool, drainOk: bool)
    requires var st := Run(count, steps);
      && owner in st.pcs && st.pcs[owner].Owning? && st.pcs[owner].slot < |st.slots|
      && second in st.pcs && st.pcs[second].Entering? && st.pcs[second].slot == st.pcs[owner].slot
      && OperatingOn(st.pcs, st.pcs[owner].slot) == {} && !st.slots[st.pcs[owner].slot].failed
    ensures var st := Run(count, steps); var sweep := st.pcs[second].sweep;
      var waits := Run(count, steps + [Step(second, TryEnter(true, queueOk, drainOk))]);
      var end := Run(count, steps + [Step(second, TryEnter(true, queueOk, drainOk))]
                       + [Step(owner, TryFinish(true, true))] + [Step(second, TryEnter(true, queueOk, drainOk))]);
      && waits == st
      && if sweep.None? then second !in end.pcs
         else second in end.pcs && end.pcs[second] == Sweeping(Sweep(sweep.value.next + 1, sweep.value.failed))
  {
    hide Run, Next;
    RunKeepsLife(count, steps);
    var st := Run(count, steps);
    Quiet(st, st.pcs[owner].slot);
    OwnerOwns(st, owner);
    var enter, finish := Step(second, TryEnter(true, queueOk, drainOk)), Step(owner, TryFinish(true, true));
    RunOn(count, steps, enter);
    RunOn(count, steps + [enter], finish);
    RunOn(count, steps + [enter] + [finish], enter);
    Waits(st, second, queueOk, drainOk);
    OwnerFrees(st, owner, second);
    Returns(Next(st, finish), second, queueOk, drainOk);
  }

  lemma OwnerOwns(st: State, owner: nat)
    requires LifeOk(st) && owner in st.pcs && st.pcs[owner].Owning? && st.pcs[owner].slot < |st.slots|
    ensures var s := st.slots[st.pcs[owner].slot]; s.closeInProgress && SlotOk(s)
  {
  }

  lemma Waits(st: State, t: nat, queueOk: bool, drainOk: bool)
    requires t in st.pcs && st.pcs[t].Entering? && st.pcs[t].slot < |st.slots|
    requires var s := st.slots[st.pcs[t].slot]; s.closeInProgress && SlotOk(s)
    ensures Next(st, Step(t, TryEnter(true, queueOk, drainOk))) == st
  {
    var i := st.pcs[t].slot;
    assert st.slots[i := st.slots[i]] == st.slots;
  }

  lemma OwnerFrees(st: State, owner: nat, other: nat)
    requires owner in st.pcs && st.pcs[owner].Owning? && other in st.pcs && other != owner
    requires var i := st.pcs[owner].slot; i < |st.slots| && st.slots[i].operations == 0 && !st.slots[i].failed
    ensures var next := Next(st, Step(owner, TryFinish(true, true))); var i := st.pcs[owner].slot;
      && other in next.pcs && next.pcs[other] == st.pcs[other] && |next.slots| == |st.slots|
      && Available(next.slots[i]) && next.slots[i].closed && !next.slots[i].queue && !next.slots[i].drain
  {
  }

  lemma Returns(st: State, t: nat, queueOk: bool, drainOk: bool)
    requires t in st.pcs && st.pcs[t].Entering? && st.pcs[t].slot < |st.slots|
    requires var s := st.slots[st.pcs[t].slot]; Available(s) && s.closed && !s.queue && !s.drain
    ensures var next := Next(st, Step(t, TryEnter(true, queueOk, drainOk))); var sweep := st.pcs[t].sweep;
      if sweep.None? then t !in next.pcs
      else t in next.pcs && next.pcs[t] == Sweeping(Sweep(sweep.value.next + 1, sweep.value.failed))
  {
  }

  // ---- close_all ----

  /** No operation, no closer and no unreported failure on the slots from `n` on. */
  predicate QuietFrom(slots: seq<Slot>, n: nat) {
    forall i :: n <= i < |slots| ==> slots[i].operations == 0 && !slots[i].closeInProgress && !slots[i].failed
  }

  lemma SweepSkips(st: State, t: nat, n: nat)
    requires t in st.pcs && st.pcs[t] == Sweeping(Sweep(n, false)) && n < |st.slots| && Available(st.slots[n])
    ensures Next(st, Step(t, SweepNext)) == st.(pcs := st.pcs[t := Sweeping(Sweep(n + 1, false))])
  {
  }

  lemma SweepEnters(st: State, t: nat, n: nat)
    requires t in st.pcs && st.pcs[t] == Sweeping(Sweep(n, false)) && n < |st.slots| && !Available(st.slots[n])
    ensures Next(st, Step(t, SweepNext)) == st.(pcs := st.pcs[t := Entering(n, Some(Sweep(n, false)))])
  {
  }

  lemma EnterOwns(st: State, t: nat, n: nat)
    requires t in st.pcs && st.pcs[t] == Entering(n, Some(Sweep(n, false))) && n < |st.slots|
    requires !Available(st.slots[n]) && !st.slots[n].closeInProgress
    ensures var next := Next(st, Step(t, TryEnter(true, true, true)));
      && next.slots == st.slots[n := next.slots[n]] && next.swept == st.swept
      && next.slots[n].operations == st.slots[n].operations && next.slots[n].failed == st.slots[n].failed
      && t in next.pcs && next.pcs[t] == Owning(n, st.slots[n].incarnation, Some(Sweep(n, false)))
  {
  }

  lemma FinishFrees(st: State, t: nat, n: nat, incarnation: nat)
    requires t in st.pcs && st.pcs[t] == Owning(n, incarnation, Some(Sweep(n, false))) && n < |st.slots|
    requires st.slots[n].operations == 0 && !st.slots[n].failed
    ensures var next := Next(st, Step(t, TryFinish(true, true)));
      && next.slots == st.slots[n := next.slots[n]] && next.swept == st.swept
      && t in next.pcs && next.pcs[t] == Sweeping(Sweep(n + 1, false))
  {
  }

  /** The sweep closes the next slot, if it is not free already. */
  lemma SweepsOne(count: nat, steps: seq<Step>, t: nat, n: nat) returns (more: seq<Step>)
    requires var st := Run(count, steps);
      t in st.pcs && st.pcs[t] == Sweeping(Sweep(n, false)) && n < |st.slots| && QuietFrom(st.slots, n)
    ensures var st, end := Run(count, steps), Run(count, steps + more);
      && t in end.pcs && end.pcs[t] == Sweeping(Sweep(n + 1, false)) && QuietFrom(end.slots, n + 1)
      && |end.slots| == |st.slots| && end.swept == st.swept
  {
    hide Run, Next;
    var st := Run(count, steps);
    RunOn(count, steps, Step(t, SweepNext));
    if Available(st.slots[n]) {
      more := [Step(t, SweepNext)];
      SweepSkips(st, t, n);
    } else {
      SweepEnters(st, t, n);
      var entered := steps + [Step(t, SweepNext)];
      RunOn(count, entered, Step(t, TryEnter(true, true, true)));
      EnterOwns(Run(count, entered), t, n);
      var owned := entered + [Step(t, TryEnter(true, true, true))];
      RunOn(count, owned, Step(t, TryFinish(true, true)));
      FinishFrees(Run(count, owned), t, n, st.slots[n].incarnation);
      more := [Step(t, SweepNext)] + [Step(t, TryEnter(true, true, true))] + [Step(t, TryFinish(true, true))];
      assert steps + more == owned + [Step(t, TryFinish(true, true))];
    }
  }

  lemma {:induction false} SweepsRest(count: nat, steps: seq<Step>, t: nat, n: nat) returns (more: seq<Step>)
    requires var st := Run(count, steps);
      t in st.pcs && st.pcs[t] == Sweeping(Sweep(n, false)) && n <= |st.slots| && QuietFrom(st.slots, n)
    ensures var st, end := Run(count, steps), Run(count, steps + more);
      && t !in end.pcs && !end.closingAll
      && |end.swept| == |st.swept| + 1 && end.swept[|st.swept|] == Swept(true, true)
    decreases |Run(count, steps).slots| - n
  {
    var st := Run(count, steps);
    if n == |st.slots| {
      more := [Step(t, SweepNext)];
      RunOn(count, steps, Step(t, SweepNext));
      hide Run;
      RunKeepsSweep(count, steps + more);
      RunKeepsSweep(count, steps);
    } else {
      hide Run;
      var one := SweepsOne(count, steps, t, n);
      var rest := SweepsRest(count, steps + one, t, n + 1);
      more := one + rest;
      assert steps + more == steps + one + rest;
    }
  }

  /** A close_all that meets no running operation, no other closer and no failing call
      returns OK, with every slot free. */
  lemma CloseAllSucceeds(count: nat, steps: seq<Step>, t: nat) returns (more: seq<Step>)
    requires var st := Run(count, steps); t !in st.pcs && !st.closingAll && QuietFrom(st.slots, 0)
    ensures var st, end := Run(count, steps), Run(count, steps + [Step(t, CloseAll)] + more);
      && t !in end.pcs && !end.closingAll
      && |end.swept| == |st.swept| + 1 && end.swept[|st.swept|] == Swept(true, true)
  {
    RunOn(count, steps, Step(t, CloseAll));
    hide Run;
    more := SweepsRest(count, steps + [Step(t, CloseAll)], t, 0);
  }
}
