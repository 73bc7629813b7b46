/** What the service's `active` flag says of a connectable window and its peer. */
module WifiActive {
  import opened WifiService
  import opened WifiRuns
  import WifiLink

  /** A connectable window with a peer is not advertising. */
  predicate ActiveOk(s: Service) { s.adv.active && s.adv.connectable ==> s.conn.handle == INVALID }

  /** A restart is due only while there is no peer. */
  predicate RestartOk(s: Service) { s.adv.restartPending ==> s.conn.handle == INVALID }

  predicate FlagsOk(s: Service) { ActiveOk(s) && RestartOk(s) }

  /** This step opens a connectable window over a connected peer and a standing flag. */
  predicate OpensOver(st: State, step: Step) {
    && step.Continue? && st.window == StartPublish(true, true)
    && !st.s.closing && st.s.adv.active && st.s.conn.handle != INVALID
  }

  lemma OverBreaks(cfg: Config, st: State, step: Step)
    requires OpensOver(st, step)
    ensures !ActiveOk(Next(cfg, st, step).s)
  {
  }

  lemma ApplyKeepsFlags(cfg: Config, s: Service, t: Transition)
    ensures FlagsOk(s) ==> FlagsOk(Apply(cfg, s, t))
    ensures RestartOk(s) ==> RestartOk(Apply(cfg, s, t))
  {
    hide Post;
  }

  lemma {:induction false} ApplyAllKeepsFlags(cfg: Config, s: Service, ts: seq<Transition>)
    ensures FlagsOk(s) ==> FlagsOk(ApplyAll(cfg, s, ts))
    ensures RestartOk(s) ==> RestartOk(ApplyAll(cfg, s, ts))
    decreases |ts|
  {
    hide Apply, FlagsOk, RestartOk;
    if ts != [] {
      ApplyKeepsFlags(cfg, s, ts[0]);
      ApplyAllKeepsFlags(cfg, Apply(cfg, s, ts[0]), ts[1..]);
    }
  }

  lemma SameFlags(s: Service, t: Service)
    requires t.adv == s.adv && t.conn == s.conn
    ensures FlagsOk(s) == FlagsOk(t) && RestartOk(s) == RestartOk(t)
  {
  }

  lemma EventKeepsFlags(cfg: Config, st: State, step: Step)
    requires step.HostEvent? || step.Sent?
    ensures FlagsOk(st.s) ==> FlagsOk(Next(cfg, st, step).s)
    ensures RestartOk(st.s) ==> RestartOk(Next(cfg, st, step).s)
  {
    hide Apply, ApplyAll, Due, Defer, FlagsOk, RestartOk;
    var a, b := st.s.(deferred := Deferred([], false)), st.s.(sending := false);
    SameFlags(st.s, a);
    SameFlags(st.s, b.(deferred := Deferred([], false)));
    SameFlags(st.s, Next(cfg, st, step).s.(adv := st.s.adv, conn := st.s.conn));
    ApplyAllKeepsFlags(cfg, a, Due(st.s));
    ApplyAllKeepsFlags(cfg, b.(deferred := Deferred([], false)), Due(b));
    if step.HostEvent? {
      ApplyKeepsFlags(cfg, Drain(cfg, st.s), step.t);
      if st.s.sending { SameFlags(st.s, Next(cfg, st, step).s); }
    } else if !st.worker.Sending? {
      assert Next(cfg, st, step) == st;
    }
  }

  lemma WorkKeepsFlags(cfg: Config, st: State, step: Step)
    requires step.Command? || step.Credentials? || step.BadCredentials? || step.Turn? || step.Send? || step.Finish?
    ensures Next(cfg, st, step).s.adv == st.s.adv && Next(cfg, st, step).s.conn == st.s.conn
  {
    hide Post;
  }

  lemma BeginKeepsFlags(cfg: Config, st: State, step: Step)
    ensures FlagsOk(st.s) ==> FlagsOk(OnBegin(cfg, st, step).s)
    ensures RestartOk(st.s) ==> RestartOk(OnBegin(cfg, st, step).s)
  {
  }

  /** A start that is taken note of, and the ways a window fails or ends. */
  lemma SectionsKeepFlags(s: Service, generation: nat, eventGeneration: nat, code: int, ok: bool)
    ensures FlagsOk(s) ==> FlagsOk(PublishStart(s, generation, eventGeneration)) && FlagsOk(LatchFailure(s, code))
    ensures FlagsOk(s) ==> FlagsOk(HostStopped(s)) && FlagsOk(FailStart(s)) && FlagsOk(EndStop(s, ok))
    ensures RestartOk(s) ==> RestartOk(PublishStart(s, generation, eventGeneration)) && RestartOk(LatchFailure(s, code))
    ensures RestartOk(s) ==> RestartOk(HostStopped(s)) && RestartOk(FailStart(s)) && RestartOk(EndStop(s, ok))
  {
    hide Post;
  }

  lemma OpeningKeepsFlags(s: Service, connectable: bool, ok: bool)
    ensures FlagsOk(s) && !(connectable && ok && !s.closing && s.adv.active && s.conn.handle != INVALID) ==>
      FlagsOk(TryOpen(s, connectable, ok).0)
    ensures RestartOk(s) ==> RestartOk(TryOpen(s, connectable, ok).0)
    ensures Recheck(s).0 == HostStopped(s)
  {
  }

  lemma ContinueKeepsFlags(st: State, code: int)
    ensures FlagsOk(st.s) && !OpensOver(st, Continue(code)) ==> FlagsOk(OnContinue(st, code).s)
    ensures RestartOk(st.s) ==> RestartOk(OnContinue(st, code).s)
  {
    hide PublishStart, LatchFailure, HostStopped, FailStart, EndStop, TryOpen, Recheck, FlagsOk, RestartOk;
    SectionsKeepFlags(st.s, 0, 0, code, true);
    OpeningKeepsFlags(st.s, true, true);
    match st.window
    case RestoreEnd(ok, g, e) => SectionsKeepFlags(st.s, g, e, code, ok);
    case StartEnd(ok, g, e) => SectionsKeepFlags(st.s, g, e, code, ok);
    case StopEnd(ok) => SectionsKeepFlags(st.s, 0, 0, code, ok);
    case StartPublish(connectable, ok) => OpeningKeepsFlags(st.s, connectable, ok);
    case _ =>
  }

  lemma ReturnKeepsFlags(st: State, ok: bool)
    ensures OnHostReturns(st, ok).s == st.s
  {
  }

  lemma WindowKeepsFlags(cfg: Config, st: State, step: Step)
    requires !step.HostEvent? && !step.Sent?
    requires !step.Command? && !step.Credentials? && !step.BadCredentials? && !step.Turn? && !step.Send? && !step.Finish?
    ensures FlagsOk(st.s) && !OpensOver(st, step) ==> FlagsOk(Next(cfg, st, step).s)
    ensures RestartOk(st.s) ==> RestartOk(Next(cfg, st, step).s)
  {
    hide OnBegin, OnContinue, OnHostReturns;
    BeginKeepsFlags(cfg, st, step);
    match step
    case HostReturns(ok, _) => ReturnKeepsFlags(st, ok);
    case Continue(code) => ContinueKeepsFlags(st, code);
    case _ =>
  }

  lemma StepKeepsFlags(cfg: Config, st: State, step: Step)
    ensures FlagsOk(st.s) && !OpensOver(st, step) ==> FlagsOk(Next(cfg, st, step).s)
    ensures RestartOk(st.s) ==> RestartOk(Next(cfg, st, step).s)
  {
    hide Next, FlagsOk, RestartOk;
    if step.HostEvent? || step.Sent? {
      EventKeepsFlags(cfg, st, step);
    } else if step.Command? || step.Credentials? || step.BadCredentials? || step.Turn? || step.Send? || step.Finish? {
      WorkKeepsFlags(cfg, st, step);
      SameFlags(st.s, Next(cfg, st, step).s);
    } else {
      WindowKeepsFlags(cfg, st, step);
    }
  }

  ghost predicate NeverOver(cfg: Config, steps: seq<Step>) {
    forall i :: 0 <= i < |steps| ==> !OpensOver(Run(cfg, steps[..i]), steps[i])
  }

  ghost predicate NeverBoth(cfg: Config, steps: seq<Step>) {
    forall i :: 0 <= i <= |steps| ==> ActiveOk(Run(cfg, steps[..i]).s)
  }

  lemma LastStep(cfg: Config, steps: seq<Step>)
    requires steps != []
    ensures var before, step := steps[..|steps| - 1], steps[|steps| - 1];
      && (NeverOver(cfg, steps) <==> NeverOver(cfg, before) && !OpensOver(Run(cfg, before), step))
      && (NeverBoth(cfg, steps) <==> NeverBoth(cfg, before) && ActiveOk(Run(cfg, steps).s))
  {
    hide Run, OpensOver, ActiveOk;
    var n := |steps| - 1;
    var before := steps[..n];
    assert steps[..n + 1] == steps && before[..n] == before;
    assert forall i :: 0 <= i < n ==> before[i] == steps[i] && before[..i] == steps[..i];
  }

  lemma {:induction false} RunKeepsFlags(cfg: Config, steps: seq<Step>)
    ensures RestartOk(Run(cfg, steps).s)
    ensures NeverBoth(cfg, steps) <==> NeverOver(cfg, steps)
    ensures NeverOver(cfg, steps) ==> ActiveOk(Run(cfg, steps).s)
  {
    if steps == [] {
      assert Run(cfg, steps) == START;
    } else {
      hide Next, ActiveOk, RestartOk, NeverOver, NeverBoth, OpensOver;
      var before, step := steps[..|steps| - 1], steps[|steps| - 1];
      RunKeepsFlags(cfg, before);
      StepKeepsFlags(cfg, Run(cfg, before), step);
      if OpensOver(Run(cfg, before), step) { OverBreaks(cfg, Run(cfg, before), step); }
      LastStep(cfg, steps);
    }
  }

  /** In every run a restart is due only without a peer; and a connectable window with a
      peer never counts as advertising if and only if none is opened over a peer while the
      flag still stands. */
  lemma NeverActiveWithPeer(cfg: Config, steps: seq<Step>)
    ensures var s := Run(cfg, steps).s; s.adv.restartPending ==> s.conn.handle == INVALID
    ensures
      (forall i :: 0 <= i <= |steps| ==>
        var s := Run(cfg, steps[..i]).s; s.adv.active && s.adv.connectable ==> s.conn.handle == INVALID)
      <==> NeverOver(cfg, steps)
  {
    hide Run;
    RunKeepsFlags(cfg, steps);
  }

  /** The condition is needed: a Host that reports advertising during a start it then
      fails leaves the flag standing, and the next window opens with it. */
  lemma StaleFlag(cfg: Config)
    ensures var steps := [BeginStart(false, false), Continue(0), Beacon(true), HostReturns(false, 0), Continue(0),
                          HostEvent(Connected(true, 1, 0)), BeginStart(true, false), Continue(0)];
      var s := Run(cfg, steps).s; s.adv.started && s.adv.active && s.adv.connectable && s.conn.handle != INVALID
  {
    hide Next;
    var a := Next(cfg, START, BeginStart(false, false));
    var b := Next(cfg, a, Continue(0));
    var c := Next(cfg, b, Beacon(true));
    FirstWindow(cfg);
    var d := Next(cfg, c, HostReturns(false, 0));
    var e := Next(cfg, d, Continue(0));
    var f := Next(cfg, e, HostEvent(Connected(true, 1, 0)));
    SecondWindow(cfg, c);
    Unrolled(cfg);
  }

  lemma FirstWindow(cfg: Config)
    ensures var c := Next(cfg, Next(cfg, Next(cfg, START, BeginStart(false, false)), Continue(0)), Beacon(true));
      && c.window.StartStart? && c.s.adv.active && !c.s.adv.connectable && !c.s.adv.needsReset && !c.s.closing
      && c.s.conn == START.s.conn && !c.s.sending && c.s.deferred == Deferred([], false)
  {
  }

  lemma SecondWindow(cfg: Config, c: State)
    requires c.window.StartStart? && c.s.adv.active && !c.s.adv.connectable && !c.s.adv.needsReset && !c.s.closing
    requires c.s.conn == START.s.conn && !c.s.sending && c.s.deferred == Deferred([], false)
    ensures var e := Next(cfg, Next(cfg, c, HostReturns(false, 0)), Continue(0));
      var f := Next(cfg, e, HostEvent(Connected(true, 1, 0)));
      var s := Next(cfg, Next(cfg, f, BeginStart(true, false)), Continue(0)).s;
      s.adv.started && s.adv.active && s.adv.connectable && s.conn.handle != INVALID
  {
    hide Next;
    StartFails(cfg, c);
    var e := Next(cfg, Next(cfg, c, HostReturns(false, 0)), Continue(0));
    PeerComes(cfg, e);
    OpensAgain(cfg, Next(cfg, e, HostEvent(Connected(true, 1, 0))));
  }

  /** The window is shut and the Host quiet, but the flag stands. */
  predicate Stale(s: Service) { s.adv.active && !s.adv.connectable && !s.adv.started && !s.adv.needsReset && !s.closing }

  lemma StartFails(cfg: Config, c: State)
    requires c.window.StartStart? && c.s.adv.active && !c.s.adv.connectable && !c.s.adv.needsReset && !c.s.closing
    ensures var e := Next(cfg, Next(cfg, c, HostReturns(false, 0)), Continue(0));
      && e.window.Free? && Stale(e.s) && e.s.conn == c.s.conn && e.s.sending == c.s.sending && e.s.deferred == c.s.deferred
  {
  }

  lemma PeerComes(cfg: Config, e: State)
    requires e.window.Free? && Stale(e.s) && e.s.conn == START.s.conn && !e.s.sending && e.s.deferred == Deferred([], false)
    ensures var f := Next(cfg, e, HostEvent(Connected(true, 1, 0)));
      f.window.Free? && Stale(f.s) && f.s.conn.handle == 1
  {
    hide Post, CheckMtu;
    assert Due(e.s) == [];
  }

  lemma OpensAgain(cfg: Config, f: State)
    requires f.window.Free? && Stale(f.s) && f.s.conn.handle == 1
    ensures var s := Next(cfg, Next(cfg, f, BeginStart(true, false)), Continue(0)).s;
      s.adv.started && s.adv.active && s.adv.connectable && s.conn.handle != INVALID
  {
  }

  lemma Unrolled(cfg: Config)
    ensures var steps := [BeginStart(false, false), Continue(0), Beacon(true), HostReturns(false, 0), Continue(0),
                          HostEvent(Connected(true, 1, 0)), BeginStart(true, false), Continue(0)];
      Run(cfg, steps) == Next(cfg, Next(cfg, Next(cfg, Next(cfg, Next(cfg, Next(cfg, Next(cfg, Next(cfg, START,
        BeginStart(false, false)), Continue(0)), Beacon(true)), HostReturns(false, 0)), Continue(0)),
        HostEvent(Connected(true, 1, 0))), BeginStart(true, false)), Continue(0))
  {
    hide Next;
    var s1 := [BeginStart(false, false)];
    var s2 := s1 + [Continue(0)];
    var s3 := s2 + [Beacon(true)];
    var s4 := s3 + [HostReturns(false, 0)];
    var s5 := s4 + [Continue(0)];
    var s6 := s5 + [HostEvent(Connected(true, 1, 0))];
    var s7 := s6 + [BeginStart(true, false)];
    WifiLink.RunOn(cfg, [], BeginStart(false, false));
    assert [] + s1 == s1;
    WifiLink.RunOn(cfg, s1, Continue(0));
    WifiLink.RunOn(cfg, s2, Beacon(true));
    WifiLink.RunOn(cfg, s3, HostReturns(false, 0));
    WifiLink.RunOn(cfg, s4, Continue(0));
    WifiLink.RunOn(cfg, s5, HostEvent(Connected(true, 1, 0)));
    WifiLink.RunOn(cfg, s6, BeginStart(true, false));
    WifiLink.RunOn(cfg, s7, Continue(0));
    assert s7 + [Continue(0)] == [BeginStart(false, false), Continue(0), Beacon(true), HostReturns(false, 0), Continue(0),
                                  HostEvent(Connected(true, 1, 0)), BeginStart(true, false), Continue(0)];
  }

  // ---- reports and restores ----

  /** A window that is already advertising is left alone by a restore. */
  lemma RestoreLeavesActive(cfg: Config, before: seq<Step>)
    requires var st := Run(cfg, before); st.window.Free? && st.s.adv.active
    ensures var st, end := Run(cfg, before), Run(cfg, before + [BeginRestore]);
      end.window.Free? && end.log == st.log && end.s.adv.active && !end.s.adv.restartPending
  {
    hide Run;
    WifiLink.RunOn(cfg, before, BeginRestore);
  }

  /** How many reports had come when the start under way was called. */
  predicate CallOlder(st: State) {
    match st.window
    case RestoreStart(_, e) => e <= st.s.adv.eventGeneration
    case RestoreEnd(ok, _, e) => ok ==> e <= st.s.adv.eventGeneration
    case StartStart(_, e) => e <= st.s.adv.eventGeneration
    case StartEnd(_, _, e) => e <= st.s.adv.eventGeneration
    case _ => true
  }

  lemma {:induction false} RunKeepsOlder(cfg: Config, steps: seq<Step>)
    ensures CallOlder(Run(cfg, steps))
  {
    if steps == [] {
      assert Run(cfg, steps) == START;
    } else {
      hide Next, CallOlder;
      var before := steps[..|steps| - 1];
      RunKeepsOlder(cfg, before);
      StepKeepsOlder(cfg, Run(cfg, before), steps[|steps| - 1]);
    }
  }

  lemma StepKeepsOlder(cfg: Config, st: State, step: Step)
    requires CallOlder(st)
    ensures CallOlder(Next(cfg, st, step))
  {
    hide Post, Apply, ApplyAll, Due, Defer;
    if step.HostEvent? || step.Sent? {
      EventKeepsOlder(cfg, st, step);
    } else if step.Command? || step.Credentials? || step.BadCredentials? || step.Turn? || step.Send? || step.Finish? {
      WorkKeepsFlags(cfg, st, step);
      WorkKeepsWindow(cfg, st, step);
    }
  }

  lemma WorkKeepsWindow(cfg: Config, st: State, step: Step)
    requires step.Command? || step.Credentials? || step.BadCredentials? || step.Turn? || step.Send? || step.Finish?
    ensures Next(cfg, st, step).window == st.window
  {
    hide Post, MaySend;
  }

  lemma ApplyKeepsReports(cfg: Config, s: Service, t: Transition)
    ensures Apply(cfg, s, t).adv.eventGeneration == s.adv.eventGeneration
  {
    hide Post;
  }

  lemma {:induction false} ApplyAllKeepsReports(cfg: Config, s: Service, ts: seq<Transition>)
    ensures ApplyAll(cfg, s, ts).adv.eventGeneration == s.adv.eventGeneration
    decreases |ts|
  {
    hide Apply;
    if ts != [] {
      ApplyKeepsReports(cfg, s, ts[0]);
      ApplyAllKeepsReports(cfg, Apply(cfg, s, ts[0]), ts[1..]);
    }
  }

  lemma EventKeepsOlder(cfg: Config, st: State, step: Step)
    requires CallOlder(st) && (step.HostEvent? || step.Sent?)
    ensures CallOlder(Next(cfg, st, step))
  {
    hide Apply, ApplyAll, Due, Defer;
    var a, b := st.s.(deferred := Deferred([], false)), st.s.(sending := false);
    ApplyAllKeepsReports(cfg, a, Due(st.s));
    ApplyAllKeepsReports(cfg, b.(deferred := Deferred([], false)), Due(b));
    if step.HostEvent? { ApplyKeepsReports(cfg, Drain(cfg, st.s), step.t); }
  }

  /** A report that comes between the Host's return from a start and the service's taking
      note of it is the one that counts. */
  lemma LateReportWins(cfg: Config, before: seq<Step>, on: bool, code: int)
    requires var w := Run(cfg, before).window; (w.RestoreEnd? && w.ok) || (w.StartEnd? && w.ok)
    ensures Run(cfg, before + [Beacon(on)] + [Continue(code)]).s.adv.active == Run(cfg, before + [Beacon(on)]).s.adv.active
  {
    hide Run, Next;
    RunKeepsOlder(cfg, before);
    WifiLink.RunOn(cfg, before, Beacon(on));
    WifiLink.RunOn(cfg, before + [Beacon(on)], Continue(code));
    Reported(cfg, Run(cfg, before), on);
    ReportStands(cfg, Run(cfg, before + [Beacon(on)]), code);
  }

  lemma Reported(cfg: Config, st: State, on: bool)
    ensures var r := Next(cfg, st, Beacon(on));
      r.window == st.window && r.s.adv.eventGeneration == st.s.adv.eventGeneration + 1
  {
  }

  lemma ReportStands(cfg: Config, st: State, code: int)
    requires var w := st.window;
      (w.RestoreEnd? && w.ok && w.eventGeneration < st.s.adv.eventGeneration)
      || (w.StartEnd? && w.ok && w.eventGeneration < st.s.adv.eventGeneration)
    ensures Next(cfg, st, Continue(code)).s.adv.active == st.s.adv.active
  {
  }
}
