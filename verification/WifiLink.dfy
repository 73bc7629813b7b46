/** The connection said on the history of Host events alone, and what brings advertising
    back: the reference the folds and windows of the service are measured against. */
module WifiLink {
  import opened WifiService
  import opened WifiRuns

  // ---- the history of connections ----

  /** The `i`-th event connects a peer: at that moment no earlier one is still connected. */
  ghost predicate Accepts(ts: seq<Transition>, i: nat)
    requires i < |ts|
    decreases i, 0
  {
    ts[i].Connected? && ts[i].peripheral && forall j: nat | j < i :: !Live(ts, j, i)
  }

  /** The peer that connected with the `j`-th event has not disconnected before the `n`-th. */
  ghost predicate Live(ts: seq<Transition>, j: nat, n: nat)
    requires j < n <= |ts|
    decreases j, 1
  {
    && Accepts(ts, j) && ts[j].handle != INVALID
    && forall k | j < k < n :: !(ts[k].Disconnected? && ts[k].handle == ts[j].handle)
  }

  ghost function Connections(ts: seq<Transition>, n: nat): nat
    requires n <= |ts|
  {
    if n == 0 then 0 else Connections(ts, n - 1) + if Accepts(ts, n - 1) then 1 else 0
  }

  /** The MTU last reported for the peer of event `j`. */
  function LatestMtu(ts: seq<Transition>, j: nat, n: nat): nat
    requires j < n <= |ts| && ts[j].Connected?
  {
    if n == j + 1 then ts[j].mtu
    else if ts[n - 1].MtuChanged? && ts[n - 1].handle == ts[j].handle then ts[n - 1].mtu
    else LatestMtu(ts, j, n - 1)
  }

  /** Whether that peer last turned notifications of this value on. */
  predicate LatestOn(ts: seq<Transition>, j: nat, n: nat, value: nat)
    requires j < n <= |ts| && ts[j].Connected?
  {
    if n == j + 1 then false else
    match ts[n - 1]
    case SubscriptionChanged(handle, notify, v, enabled) =>
      if handle == ts[j].handle && notify && v == value then enabled else LatestOn(ts, j, n - 1, value)
    case _ => LatestOn(ts, j, n - 1, value)
  }

  // ---- the fold is that history ----

  lemma FollowOne(cfg: Config, ts: seq<Transition>, n: nat)
    requires 0 < n <= |ts|
    ensures FollowAll(cfg, IDLE.conn, ts[..n]) == Follow(cfg, FollowAll(cfg, IDLE.conn, ts[..n - 1]), ts[n - 1])
  {
    hide Follow;
    assert ts[..n] == ts[..n - 1] + [ts[n - 1]];
    FollowConcat(cfg, IDLE.conn, ts[..n - 1], [ts[n - 1]]);
    assert [ts[n - 1]][1..] == [];
  }

  /** What the connection is while the peer of event `j` is connected. */
  predicate IsPeer(cfg: Config, c: Conn, ts: seq<Transition>, j: nat, n: nat)
    requires j < n <= |ts|
  {
    && ts[j].Connected? && c.handle == ts[j].handle && c.mtu == LatestMtu(ts, j, n)
    && c.scanSubscribed == LatestOn(ts, j, n, cfg.scanValue)
    && c.provisionSubscribed == (cfg.provisionValue != cfg.scanValue && LatestOn(ts, j, n, cfg.provisionValue))
  }

  lemma {:induction false} LiveIsCurrent(cfg: Config, ts: seq<Transition>, j: nat, n: nat)
    requires j < n <= |ts| && Live(ts, j, n)
    ensures IsPeer(cfg, FollowAll(cfg, IDLE.conn, ts[..n]), ts, j, n)
    decreases n, 0
  {
    FollowOne(cfg, ts, n);
    if n == j + 1 {
      CurrentIsLive(cfg, ts, j);
    } else {
      LiveIsCurrent(cfg, ts, j, n - 1);
      assert !(ts[n - 1].Disconnected? && ts[n - 1].handle == ts[j].handle);
    }
  }

  lemma {:induction false} CurrentIsLive(cfg: Config, ts: seq<Transition>, n: nat)
    requires n <= |ts|
    ensures FollowAll(cfg, IDLE.conn, ts[..n]).handle != INVALID ==> exists j: nat | j < n :: Live(ts, j, n)
    decreases n, 0
  {
    if n > 0 {
      var c, t := FollowAll(cfg, IDLE.conn, ts[..n - 1]), ts[n - 1];
      FollowOne(cfg, ts, n);
      CurrentIsLive(cfg, ts, n - 1);
      if Follow(cfg, c, t).handle != INVALID {
        if c.handle != INVALID {
          var j: nat :| j < n - 1 && Live(ts, j, n - 1);
          LiveIsCurrent(cfg, ts, j, n - 1);
          assert Live(ts, j, n);
        } else {
          NoneLive(cfg, ts, n - 1);
          assert Live(ts, n - 1, n);
        }
      }
    } else {
      assert ts[..0] == [];
    }
  }

  lemma {:induction false} NoneLive(cfg: Config, ts: seq<Transition>, n: nat)
    requires n <= |ts| && FollowAll(cfg, IDLE.conn, ts[..n]).handle == INVALID
    ensures forall j: nat | j < n :: !Live(ts, j, n)
    decreases n, 1
  {
    forall j: nat | j < n ensures !Live(ts, j, n) {
      if Live(ts, j, n) { LiveIsCurrent(cfg, ts, j, n); }
    }
  }

  lemma {:induction false} GenerationCounts(cfg: Config, ts: seq<Transition>, n: nat)
    requires n <= |ts|
    ensures FollowAll(cfg, IDLE.conn, ts[..n]).generation == Connections(ts, n)
  {
    if n == 0 {
      assert ts[..0] == [];
    } else {
      GenerationCounts(cfg, ts, n - 1);
      FollowOne(cfg, ts, n);
      AcceptedWhenNone(cfg, ts, n - 1);
    }
  }

  lemma AcceptedWhenNone(cfg: Config, ts: seq<Transition>, i: nat)
    requires i < |ts|
    ensures Accepts(ts, i) <==>
      ts[i].Connected? && ts[i].peripheral && FollowAll(cfg, IDLE.conn, ts[..i]).handle == INVALID
  {
    CurrentIsLive(cfg, ts, i);
    if FollowAll(cfg, IDLE.conn, ts[..i]).handle == INVALID { NoneLive(cfg, ts, i); }
  }

  /** In every run that has dropped no event, with no notify in flight: the service has a
      connection exactly when some peer connected and has not left, it is that peer with its
      latest MTU and subscriptions, and the generation counts the peers so far. */
  lemma ConnectionIsHistory(cfg: Config, steps: seq<Step>)
    requires var st := Run(cfg, steps); !st.past.dropped && !st.s.sending
    ensures var st := Run(cfg, steps); var ts := st.past.received;
      && (st.s.conn.handle != INVALID <==> exists j: nat | j < |ts| :: Live(ts, j, |ts|))
      && (forall j: nat | j < |ts| :: Live(ts, j, |ts|) ==> IsPeer(cfg, st.s.conn, ts, j, |ts|))
      && st.s.conn.generation == Connections(ts, |ts|)
  {
    hide Run, Follow, Live, IsPeer, Accepts;
    TransitionsLinearize(cfg, steps);
    var st := Run(cfg, steps);
    var ts := st.past.received;
    assert ts[..|ts|] == ts;
    CurrentIsLive(cfg, ts, |ts|);
    if st.s.conn.handle == INVALID { NoneLive(cfg, ts, |ts|); }
    GenerationCounts(cfg, ts, |ts|);
    forall j: nat | j < |ts| && Live(ts, j, |ts|) ensures IsPeer(cfg, st.s.conn, ts, j, |ts|) {
      LiveIsCurrent(cfg, ts, j, |ts|);
    }
  }

  // ---- advertising comes back ----

  /** The window is open, nothing holds it back and no Host call is under way. */
  predicate MayAdvertise(st: State) {
    && st.window.Free? && st.s.adv.started && st.s.adv.healthy && !st.s.adv.paused && !st.s.closing
    && !(st.s.adv.connectable && st.s.conn.handle != INVALID)
  }

  /** The worker's restore with a Host that obeys: a stop first when one is owed. */
  function Restore(needsReset: bool): seq<Step> {
    [BeginRestore] + (if needsReset then [HostReturns(true, 0)] else [])
      + [Continue(0), HostReturns(true, 0), Continue(0)]
  }

  lemma RunOn(cfg: Config, before: seq<Step>, step: Step)
    ensures Run(cfg, before + [step]) == Next(cfg, Run(cfg, before), step)
  {
    hide Next;
    assert (before + [step])[..|before|] == before;
  }

  lemma RestoreBegins(cfg: Config, st: State)
    requires MayAdvertise(st) && !st.s.adv.active
    ensures Next(cfg, st, BeginRestore) == st.(
      s := st.s.(adv := st.s.adv.(restartPending := false)),
      window := if st.s.adv.needsReset then RestoreStop else RestoreRecheck)
  {
  }

  lemma RestoreStops(cfg: Config, st: State)
    requires st.window.RestoreStop?
    ensures Next(cfg, st, HostReturns(true, 0)) == st.(window := RestoreRecheck, log := st.log + [StopOk])
  {
  }

  lemma RestoreCalls(cfg: Config, st: State)
    requires st.window.RestoreRecheck? && MayAdvertise(st.(window := Free))
    ensures Next(cfg, st, Continue(0)) == st.(
      s := st.s.(adv := st.s.adv.(active := false, needsReset := false)),
      window := RestoreStart(st.s.conn.generation, st.s.adv.eventGeneration),
      log := st.log + [StartCalled])
  {
  }

  lemma RestoreStarts(cfg: Config, st: State, g: nat, e: nat)
    requires st.window == RestoreStart(g, e)
    ensures Next(cfg, st, HostReturns(true, 0)) == st.(window := RestoreEnd(true, g, e), log := st.log + [StartOk])
  {
  }

  lemma RestoreEnds(cfg: Config, st: State)
    requires st.window == RestoreEnd(true, st.s.conn.generation, st.s.adv.eventGeneration)
    requires MayAdvertise(st.(window := Free))
    ensures Next(cfg, st, Continue(0)) == st.(
      s := st.s.(adv := st.s.adv.(active := true, needsReset := true)), window := Free)
  {
  }

  lemma RestoreRuns(cfg: Config, before: seq<Step>)
    requires var st := Run(cfg, before); st.window.RestoreRecheck? && MayAdvertise(st.(window := Free))
    ensures var st := Run(cfg, before);
      Run(cfg, before + [Continue(0)] + [HostReturns(true, 0)] + [Continue(0)])
        == st.(s := st.s.(adv := st.s.adv.(active := true, needsReset := true)), window := Free,
               log := st.log + [StartCalled] + [StartOk])
  {
    hide Next, Run;
    var st := Run(cfg, before);
    RunOn(cfg, before, Continue(0));
    RestoreCalls(cfg, st);
    var called := before + [Continue(0)];
    RunOn(cfg, called, HostReturns(true, 0));
    RestoreStarts(cfg, Run(cfg, called), st.s.conn.generation, st.s.adv.eventGeneration);
    var started := called + [HostReturns(true, 0)];
    RunOn(cfg, started, Continue(0));
    RestoreEnds(cfg, Run(cfg, started));
  }

  /** Restoring an idle window starts the Host, once, and leaves it advertising. */
  lemma RestoreStartsHost(cfg: Config, before: seq<Step>)
    requires var st := Run(cfg, before); MayAdvertise(st) && !st.s.adv.active
    ensures var st := Run(cfg, before); var end := Run(cfg, before + Restore(st.s.adv.needsReset));
      && end.window.Free? && end.s.adv.active && end.s.adv.needsReset && !end.s.adv.restartPending
      && end.log == st.log + (if st.s.adv.needsReset then [StopOk] else []) + [StartCalled] + [StartOk]
  {
    hide Next, Run;
    var st := Run(cfg, before);
    var begun := before + [BeginRestore];
    RunOn(cfg, before, BeginRestore);
    RestoreBegins(cfg, st);
    var ready := if st.s.adv.needsReset then begun + [HostReturns(true, 0)] else begun;
    if st.s.adv.needsReset {
      RunOn(cfg, begun, HostReturns(true, 0));
      RestoreStops(cfg, Run(cfg, begun));
    }
    RestoreRuns(cfg, ready);
    assert before + Restore(st.s.adv.needsReset) == ready + [Continue(0)] + [HostReturns(true, 0)] + [Continue(0)];
    assert st.log + [] == st.log;
  }

  /** Losing the peer of an open, healthy window makes the next idle turn restore it. */
  lemma LossAsksForRestore(cfg: Config, before: seq<Step>, reason: int)
    requires var st := Run(cfg, before);
      && st.s.conn.handle != INVALID && !st.s.sending
      && st.s.adv.started && st.s.adv.healthy && !st.s.closing
    ensures var st := Run(cfg, before); var lost := Run(cfg, before + [HostEvent(Disconnected(st.s.conn.handle, reason))]);
      && lost.s.conn.handle == INVALID && lost.s.adv.restartPending
      && WorkerTurn(lost.s.(events := [])).1.RestoreAdvertising?
  {
    hide Run;
    var st := Run(cfg, before);
    RunOn(cfg, before, HostEvent(Disconnected(st.s.conn.handle, reason)));
    RunKeepsLinear(cfg, before);
    assert Due(st.s) == [];
  }

  // ---- windows open and close ----

  /** Opening a window that may open, with a Host that obeys, leaves it advertising. */
  lemma OpenStartsHost(cfg: Config, before: seq<Step>, connectable: bool)
    requires var st := Run(cfg, before);
      && st.window.Free? && !st.s.closing && !st.s.adv.started && !st.s.adv.needsReset
      && !(connectable && st.s.conn.handle != INVALID)
    ensures var st := Run(cfg, before);
      var end := Run(cfg, before + [BeginStart(connectable, false)] + [Continue(0)] + [HostReturns(true, 0)] + [Continue(0)]);
      && end.window.Free? && end.s.adv.started && end.s.adv.healthy && end.s.adv.connectable == connectable
      && end.s.adv.active && end.s.adv.needsReset
      && end.log == st.log + [Opened] + [StartCalled] + [StartOk]
  {
    hide Next, Run;
    var st := Run(cfg, before);
    RunOn(cfg, before, BeginStart(connectable, false));
    StartBegins(cfg, st, connectable);
    var begun := before + [BeginStart(connectable, false)];
    RunOn(cfg, begun, Continue(0));
    StartOpens(cfg, Run(cfg, begun), connectable);
    var published := begun + [Continue(0)];
    RunOn(cfg, published, HostReturns(true, 0));
    StartReturns(cfg, Run(cfg, published));
    var started := published + [HostReturns(true, 0)];
    RunOn(cfg, started, Continue(0));
    StartEnds(cfg, Run(cfg, started));
  }

  lemma StartBegins(cfg: Config, st: State, connectable: bool)
    requires st.window.Free? && !st.s.closing && !st.s.adv.started && !st.s.adv.needsReset
    ensures Next(cfg, st, BeginStart(connectable, false)) == st.(window := StartPublish(connectable, true))
  {
  }

  lemma StartOpens(cfg: Config, st: State, connectable: bool)
    requires st.window == StartPublish(connectable, true) && !st.s.closing && !(connectable && st.s.conn.handle != INVALID)
    ensures Next(cfg, st, Continue(0)) == st.(
      s := st.s.(adv := st.s.adv.(connectable := connectable, started := true, paused := false, healthy := true)),
      window := StartStart(st.s.conn.generation, st.s.adv.eventGeneration),
      log := st.log + [Opened] + [StartCalled])
  {
  }

  lemma StartReturns(cfg: Config, st: State)
    requires st.window.StartStart?
    ensures Next(cfg, st, HostReturns(true, 0))
      == st.(window := StartEnd(true, st.window.generation, st.window.eventGeneration), log := st.log + [StartOk])
  {
  }

  lemma StartEnds(cfg: Config, st: State)
    requires st.window == StartEnd(true, st.s.conn.generation, st.s.adv.eventGeneration)
    requires !(st.s.adv.connectable && st.s.conn.handle != INVALID)
    ensures Next(cfg, st, Continue(0)) == st.(
      s := st.s.(adv := st.s.adv.(active := true, needsReset := true)), window := Free)
  {
  }

  /** Pausing an advertising window that is not to be kept stops the Host. */
  lemma PauseStopsHost(cfg: Config, before: seq<Step>)
    requires var st := Run(cfg, before);
      st.window.Free? && st.s.adv.started && !cfg.keepAdvertising && (st.s.adv.active || st.s.adv.needsReset)
    ensures var st := Run(cfg, before); var end := Run(cfg, before + [BeginPause] + [HostReturns(true, 0)] + [Continue(0)]);
      && end.window.Free? && end.s.adv.paused && end.s.adv.started && !end.s.adv.active && !end.s.adv.needsReset
      && end.log == st.log + [StopOk]
  {
    hide Run, Next;
    var st := Run(cfg, before);
    RunOn(cfg, before, BeginPause);
    PauseBegins(cfg, st);
    var begun := before + [BeginPause];
    RunOn(cfg, begun, HostReturns(true, 0));
    var stopped := begun + [HostReturns(true, 0)];
    RunOn(cfg, stopped, Continue(0));
    PauseEnds(cfg, Run(cfg, begun));
  }

  lemma PauseBegins(cfg: Config, st: State)
    requires st.window.Free? && st.s.adv.started && !cfg.keepAdvertising && (st.s.adv.active || st.s.adv.needsReset)
    ensures Next(cfg, st, BeginPause) == st.(s := st.s.(adv := st.s.adv.(paused := true)), window := PauseStop)
  {
  }

  lemma PauseEnds(cfg: Config, st: State)
    requires st.window.PauseStop?
    ensures Next(cfg, Next(cfg, st, HostReturns(true, 0)), Continue(0))
      == st.(s := st.s.(adv := st.s.adv.(active := false, needsReset := false)), window := Free, log := st.log + [StopOk])
  {
  }

  /** Stopping a window closes it, and stops the Host if it may be advertising. */
  lemma StopStopsHost(cfg: Config, before: seq<Step>)
    requires var st := Run(cfg, before); st.window.Free? && (st.s.adv.active || st.s.adv.needsReset)
    ensures var st := Run(cfg, before); var end := Run(cfg, before + [BeginStop] + [HostReturns(true, 0)] + [Continue(0)]);
      && end.window.Free? && !end.s.adv.started && !end.s.adv.active && !end.s.adv.needsReset
      && end.log == st.log + [StopOk] + [Stopped]
  {
    hide Run, Next;
    var st := Run(cfg, before);
    RunOn(cfg, before, BeginStop);
    StopBegins(cfg, st);
    var begun := before + [BeginStop];
    RunOn(cfg, begun, HostReturns(true, 0));
    var returned := begun + [HostReturns(true, 0)];
    RunOn(cfg, returned, Continue(0));
    StopEnds(cfg, Run(cfg, begun));
  }

  lemma StopBegins(cfg: Config, st: State)
    requires st.window.Free? && (st.s.adv.active || st.s.adv.needsReset)
    ensures Next(cfg, st, BeginStop)
      == st.(s := st.s.(adv := st.s.adv.(started := false, restartPending := false, paused := false)), window := StopStop)
  {
  }

  lemma StopEnds(cfg: Config, st: State)
    requires st.window.StopStop?
    ensures Next(cfg, Next(cfg, st, HostReturns(true, 0)), Continue(0))
      == st.(s := st.s.(adv := st.s.adv.(active := false, needsReset := false)), window := Free, log := st.log + [StopOk] + [Stopped])
  {
  }

  /** The Host's own reports: advertising that ended is not active; advertising that began
      is, unless the window is shut or a peer holds it. */
  lemma BeaconIsFollowed(cfg: Config, before: seq<Step>)
    ensures !Run(cfg, before + [Beacon(false)]).s.adv.active
    ensures MayAdvertise(Run(cfg, before)) ==> Run(cfg, before + [Beacon(true)]).s.adv.active
  {
    hide Run;
    RunOn(cfg, before, Beacon(false));
    RunOn(cfg, before, Beacon(true));
  }

  // ---- what the owner hears ----

  lemma {:induction false} EventsBounded(cfg: Config, steps: seq<Step>)
    ensures |Run(cfg, steps).s.events| <= QUEUE_LENGTH
  {
    if steps != [] {
      var before, step := steps[..|steps| - 1], steps[|steps| - 1];
      EventsBounded(cfg, before);
      StepBounded(cfg, Run(cfg, before), step);
    }
  }

  lemma {:induction false} ApplyAllBounded(cfg: Config, s: Service, ts: seq<Transition>)
    requires |s.events| <= QUEUE_LENGTH
    ensures |ApplyAll(cfg, s, ts).events| <= QUEUE_LENGTH
    decreases |ts|
  {
    if ts != [] {
      ApplyBounded(cfg, s, ts[0]);
      ApplyAllBounded(cfg, Apply(cfg, s, ts[0]), ts[1..]);
    }
  }

  lemma ApplyBounded(cfg: Config, s: Service, t: Transition)
    requires |s.events| <= QUEUE_LENGTH
    ensures |Apply(cfg, s, t).events| <= QUEUE_LENGTH
  {
  }

  lemma StepBounded(cfg: Config, st: State, step: Step)
    requires |st.s.events| <= QUEUE_LENGTH
    ensures |Next(cfg, st, step).s.events| <= QUEUE_LENGTH
  {
    hide Apply, ApplyAll, Due, OnBegin, OnContinue, OnHostReturns, OnTurn;
    if step.HostEvent? {
      ApplyAllBounded(cfg, st.s.(deferred := Deferred([], false)), Due(st.s));
      ApplyBounded(cfg, Drain(cfg, st.s), step.t);
    } else if step.Sent? {
      var u := st.s.(sending := false);
      ApplyAllBounded(cfg, u.(deferred := Deferred([], false)), Due(u));
    } else {
      TurnBounded(st);
      WindowBounded(cfg, st, step);
    }
  }

  lemma TurnBounded(st: State)
    requires |st.s.events| <= QUEUE_LENGTH
    ensures |OnTurn(st).s.events| <= QUEUE_LENGTH
  {
  }

  lemma PostBounded(s: Service, code: int)
    requires |s.events| <= QUEUE_LENGTH
    ensures |LatchFailure(s, code).events| <= QUEUE_LENGTH
  {
  }

  lemma WindowBounded(cfg: Config, st: State, step: Step)
    requires |st.s.events| <= QUEUE_LENGTH
    ensures |OnBegin(cfg, st, step).s.events| <= QUEUE_LENGTH
    ensures step.HostReturns? ==> |OnHostReturns(st, step.ok).s.events| <= QUEUE_LENGTH
    ensures step.Continue? ==> |OnContinue(st, step.code).s.events| <= QUEUE_LENGTH
  {
    hide LatchFailure;
    if step.Continue? { PostBounded(st.s, step.code); }
  }

  /** A peer that connects or leaves outside a notify is reported at once, and so is an MTU
      that is too small; the reports are the newest. */
  lemma PeerIsReported(cfg: Config, before: seq<Step>, t: Transition)
    requires var st := Run(cfg, before); !st.s.sending
    ensures var st := Run(cfg, before); var events := Run(cfg, before + [HostEvent(t)]).s.events; var n := |events|;
      match t
      case Connected(peripheral, handle, mtu) =>
        peripheral && st.s.conn.handle == INVALID ==>
          if mtu != 0 && mtu < cfg.minMtu
          then n > 1 && events[n - 2] == Event(PeerConnected, handle, 0) && events[n - 1] == Event(MtuTooSmall, handle, mtu)
          else n > 0 && events[n - 1] == Event(PeerConnected, handle, 0)
      case MtuChanged(handle, mtu) =>
        handle == st.s.conn.handle && mtu != 0 && mtu < cfg.minMtu ==> n > 0 && events[n - 1] == Event(MtuTooSmall, handle, mtu)
      case Disconnected(handle, reason) =>
        handle == st.s.conn.handle ==> n > 0 && events[n - 1] == Event(PeerDisconnected, handle, reason)
      case _ => true
  {
    hide Run, Next;
    RunOn(cfg, before, HostEvent(t));
    RunKeepsLinear(cfg, before);
    EventsBounded(cfg, before);
    AppliedAtOnce(cfg, Run(cfg, before), t);
  }

  lemma AppliedAtOnce(cfg: Config, st: State, t: Transition)
    requires LinearOk(cfg, st) && !st.s.sending
    ensures Next(cfg, st, HostEvent(t)).s == Apply(cfg, st.s, t)
  {
    hide Apply;
    assert Due(st.s) == [];
  }

  // ---- dropped events ----

  /** An event that finds the queue full costs the connection when the send is over. */
  lemma DropLosesConnection(cfg: Config, before: seq<Step>, t: Transition)
    requires var st := Run(cfg, before); st.s.sending && |st.s.deferred.queue| == QUEUE_LENGTH
    ensures Run(cfg, before + [HostEvent(t)] + [Sent]).s.conn.handle == INVALID
    ensures Run(cfg, before + [HostEvent(t)]).past.dropped
  {
    hide Run;
    RunOn(cfg, before, HostEvent(t));
    OverflowLosesConnection(cfg, before + [HostEvent(t)]);
  }
}
