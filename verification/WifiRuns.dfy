/** The service as a state machine: Host callbacks, GATT writes, the worker and the
    callers of the advertising functions interleave at every point where no thread
    holds the mutex. */
module WifiRuns {
  import opened WifiService

  /** A work item and the write that asked for it: by which handle, in which generation. */
  datatype Item = Item(work: Work, accepted: Peer)

  datatype Worker = Idle | Working(item: Item) | Sending(item: Item)

  /** Where the holder of adv_mutex is. */
  datatype Window =
    | Free
    | RestoreStop | RestoreRecheck
    | RestoreStart(generation: nat, eventGeneration: nat)
    | RestoreEnd(ok: bool, generation: nat, eventGeneration: nat)
    | PauseStop | PauseEnd(ok: bool)
    | StartData(connectable: bool) | StartPublish(connectable: bool, ok: bool)
    | StartStart(generation: nat, eventGeneration: nat)
    | StartEnd(ok: bool, generation: nat, eventGeneration: nat)
    | StopStop | StopEnd(ok: bool)

  /** Host calls and the outcomes a caller can see, in order. */
  datatype Call = StartCalled | StartOk | StartFailed | StopOk | StopFailed | Opened | Stopped | Latched

  datatype Past = Past(
    received: seq<Transition>, applied: seq<Transition>, dropped: bool,
    scanWrite: Peer, credentialsWrite: Peer, rejectWrite: Peer)

  datatype State = State(s: Service, worker: Worker, window: Window, past: Past, log: seq<Call>)

  const NOBODY := Peer(INVALID, 0)

  const START := State(IDLE, Idle, Free, Past([], [], false, NOBODY, NOBODY, NOBODY), [])

  datatype Step =
    | HostEvent(t: Transition) | Beacon(on: bool)
    | Command(handle: nat, command: WifiService.Command)
    | Credentials(handle: nat) | BadCredentials(handle: nat, code: int)
    | Turn | Send | Sent | Finish | CloseService
    | BeginRestore | BeginPause | Resume | BeginStart(connectable: bool, withData: bool)
    | RevokeWindow | BeginStop | HostReturns(ok: bool, code: int) | Continue(code: int)

  // ---- the steps ----

  function OnHostEvent(cfg: Config, st: State, t: Transition): State {
    var due := if st.s.sending then [] else Due(st.s) + [t];
    st.(s := SystemEvent(cfg, st.s, t),
        past := st.past.(received := st.past.received + [t], applied := st.past.applied + due,
                         dropped := st.past.dropped || (st.s.sending && |st.s.deferred.queue| == QUEUE_LENGTH)))
  }

  function OnCommand(st: State, handle: nat, command: WifiService.Command): State {
    var s := CommandWrite(st.s, handle, command).0;
    var granted := s.req.scanRequested && !st.s.req.scanRequested;
    st.(s := s, past := if granted then st.past.(scanWrite := Peer(handle, st.s.conn.generation)) else st.past)
  }

  function OnCredentials(st: State, handle: nat): State {
    var (s, reply) := CredentialsWrite(st.s, handle);
    st.(s := s, past := if reply.Accepted? then st.past.(credentialsWrite := Peer(handle, st.s.conn.generation)) else st.past)
  }

  function OnBadCredentials(st: State, handle: nat, code: int): State {
    st.(s := RejectWrite(st.s, handle, code), past := st.past.(rejectWrite := Peer(handle, st.s.conn.generation)))
  }

  function OnTurn(st: State): State {
    var (s, work) := WorkerTurn(st.s);
    match work
    case Reject(_) => st.(s := s, worker := Working(Item(work, st.past.rejectWrite)))
    case Provision(_) => st.(s := s, worker := Working(Item(work, st.past.credentialsWrite)))
    case Scan(_) => st.(s := s, worker := Working(Item(work, st.past.scanWrite)))
    case _ => st.(s := s)
  }

  function OnSend(cfg: Config, st: State, item: Item): State {
    if item.work.Nothing? || item.work.RestoreAdvertising? then st else
    var s := NotifyBegin(cfg, st.s, item.work.Scan?, item.work.peer);
    st.(s := s, worker := if s.sending then Sending(item) else Working(item))
  }

  function OnSent(cfg: Config, st: State, item: Item): State {
    st.(s := NotifyEnd(cfg, st.s), worker := Working(item),
        past := st.past.(applied := st.past.applied + Due(st.s)))
  }

  /** Advertising steps leave the connection, the requests and the worker alone. */
  predicate SameLink(a: State, b: State) {
    && a.s.conn == b.s.conn && a.s.req == b.s.req && a.s.deferred == b.s.deferred
    && a.s.sending == b.s.sending && a.past == b.past && a.worker == b.worker
  }

  function OnBegin(cfg: Config, st: State, step: Step): (r: State)
    ensures SameLink(st, r)
  {
    match step
    case BeginRestore =>
      var (s, restore, reset) := WifiService.BeginRestore(st.s);
      st.(s := s, window := if !restore then Free else if reset then RestoreStop else RestoreRecheck)
    case BeginPause =>
      var (s, stop) := WifiService.BeginPause(cfg, st.s);
      st.(s := s, window := if stop then PauseStop else Free)
    case BeginStart(connectable, withData) =>
      if !MayOpen(st.s) then st
      else st.(window := if withData then StartData(connectable) else StartPublish(connectable, true))
    case BeginStop =>
      var (s, stop) := WifiService.BeginStop(st.s);
      st.(s := s, window := if stop then StopStop else StopEnd(true))
    case _ => st
  }

  function OnHostReturns(st: State, ok: bool): (r: State)
    ensures SameLink(st, r)
  {
    match st.window
    case RestoreStop =>
      st.(window := if ok then RestoreRecheck else RestoreEnd(false, 0, 0), log := st.log + [if ok then StopOk else StopFailed])
    case RestoreStart(g, e) =>
      st.(window := RestoreEnd(ok, g, e), log := st.log + [if ok then StartOk else StartFailed])
    case PauseStop => st.(window := PauseEnd(ok), log := st.log + [if ok then StopOk else StopFailed])
    case StartData(connectable) => st.(window := StartPublish(connectable, ok))
    case StartStart(g, e) =>
      st.(window := StartEnd(ok, g, e), log := st.log + [if ok then StartOk else StartFailed])
    case StopStop => st.(window := StopEnd(ok), log := st.log + [if ok then StopOk else StopFailed])
    case _ => st
  }

  function OnContinue(st: State, code: int): (r: State)
    ensures SameLink(st, r)
  {
    match st.window
    case RestoreRecheck =>
      var (s, start) := Recheck(st.s);
      if start then
        st.(s := s, window := RestoreStart(s.conn.generation, s.adv.eventGeneration), log := st.log + [StartCalled])
      else st.(s := s, window := Free)
    case RestoreEnd(ok, g, e) =>
      if ok then st.(s := PublishStart(st.s, g, e), window := Free)
      else st.(s := LatchFailure(st.s, code), window := Free, log := st.log + [Latched])
    case PauseEnd(ok) =>
      if ok then st.(s := HostStopped(st.s), window := Free)
      else st.(s := LatchFailure(st.s, code), window := Free, log := st.log + [Latched])
    case StartPublish(connectable, ok) =>
      var (s, opens, start) := TryOpen(st.s, connectable, ok);
      if !opens then st.(s := s, window := Free, log := st.log + [Latched])
      else if start then
        st.(s := s, window := StartStart(s.conn.generation, s.adv.eventGeneration), log := st.log + [Opened] + [StartCalled])
      else st.(s := s, window := Free, log := st.log + [Opened])
    case StartEnd(ok, g, e) =>
      if ok then st.(s := PublishStart(st.s, g, e), window := Free)
      else st.(s := FailStart(st.s), window := Free, log := st.log + [Latched])
    case StopEnd(ok) =>
      st.(s := EndStop(st.s, ok), window := Free, log := st.log + [if ok then Stopped else Latched])
    case _ => st
  }

  /** One step; a step that is not possible now changes nothing. The Host never reports
      a write from the invalid handle. While a work item runs, the worker may notify,
      pause and resume in any order. */
  function Next(cfg: Config, st: State, step: Step): State {
    match step
    case HostEvent(t) => OnHostEvent(cfg, st, t)
    case Beacon(on) => st.(s := AdvertisingEvent(st.s, on))
    case Command(handle, command) => if handle == INVALID then st else OnCommand(st, handle, command)
    case Credentials(handle) => if handle == INVALID then st else OnCredentials(st, handle)
    case BadCredentials(handle, code) => if handle == INVALID then st else OnBadCredentials(st, handle, code)
    case Turn => if st.worker.Idle? then OnTurn(st) else st
    case Send => if st.worker.Working? then OnSend(cfg, st, st.worker.item) else st
    case Sent => if st.worker.Sending? then OnSent(cfg, st, st.worker.item) else st
    case Finish =>
      if st.worker.Working? then st.(s := WorkDone(st.s, st.worker.item.work), worker := Idle) else st
    case CloseService => st.(s := Close(st.s))
    case Resume => st.(s := st.s.(adv := st.s.adv.(paused := false)))
    case RevokeWindow => st.(s := Revoke(st.s))
    case HostReturns(ok, _) => OnHostReturns(st, ok)
    case Continue(code) => OnContinue(st, code)
    case _ => if st.window.Free? then OnBegin(cfg, st, step) else st
  }

  function Run(cfg: Config, steps: seq<Step>): State {
    if steps == [] then START else Next(cfg, Run(cfg, steps[..|steps| - 1]), steps[|steps| - 1])
  }

  // ---- which peer a notification goes to ----

  predicate RequestsOk(s: Service, past: Past) {
    && (s.req.scanRequested ==> s.conn.handle != INVALID && past.scanWrite == Peer(s.conn.handle, s.conn.generation))
    && (s.req.credentialsPending ==>
          s.conn.handle != INVALID && past.credentialsWrite == Peer(s.conn.handle, s.conn.generation))
    && (s.req.rejectPending ==> s.req.rejectPeer == past.rejectWrite)
  }

  predicate ItemOk(item: Item) {
    && (item.work.Reject? || item.work.Provision? || item.work.Scan?)
    && item.work.peer == item.accepted
  }

  predicate WorkerOk(s: Service, worker: Worker) {
    match worker
    case Idle => !s.sending
    case Working(item) => !s.sending && ItemOk(item)
    case Sending(item) =>
      s.sending && ItemOk(item) && item.work.peer == Peer(s.conn.handle, s.conn.generation) && s.conn.handle != INVALID
  }

  predicate PeerOk(st: State) { RequestsOk(st.s, st.past) && WorkerOk(st.s, st.worker) }

  lemma ApplyKeepsRequests(cfg: Config, s: Service, t: Transition, past: Past)
    requires RequestsOk(s, past)
    ensures RequestsOk(Apply(cfg, s, t), past)
  {
  }

  lemma {:induction false} ApplyAllKeepsRequests(cfg: Config, s: Service, ts: seq<Transition>, past: Past)
    requires RequestsOk(s, past)
    ensures RequestsOk(ApplyAll(cfg, s, ts), past)
    decreases |ts|
  {
    if ts != [] {
      ApplyKeepsRequests(cfg, s, ts[0], past);
      ApplyAllKeepsRequests(cfg, Apply(cfg, s, ts[0]), ts[1..], past);
    }
  }

  lemma DrainKeepsRequests(cfg: Config, s: Service, past: Past)
    requires RequestsOk(s, past)
    ensures RequestsOk(Drain(cfg, s), past)
  {
    ApplyAllKeepsRequests(cfg, s.(deferred := Deferred([], false)), Due(s), past);
  }

  lemma HostEventKeepsPeer(cfg: Config, st: State, t: Transition)
    requires PeerOk(st)
    ensures PeerOk(OnHostEvent(cfg, st, t))
  {
    hide Drain, Apply, Due;
    if !st.s.sending {
      DrainKeepsRequests(cfg, st.s, st.past);
      ApplyKeepsRequests(cfg, Drain(cfg, st.s), t, st.past);
    }
  }

  lemma WriteKeepsPeer(st: State, handle: nat, command: WifiService.Command, code: int)
    requires PeerOk(st) && handle != INVALID
    ensures PeerOk(OnCommand(st, handle, command))
    ensures PeerOk(OnCredentials(st, handle))
    ensures PeerOk(OnBadCredentials(st, handle, code))
  {
    hide Post;
  }

  lemma TurnKeepsPeer(st: State)
    requires PeerOk(st) && st.worker.Idle?
    ensures PeerOk(OnTurn(st))
  {
  }

  lemma SendKeepsPeer(cfg: Config, st: State)
    requires PeerOk(st) && st.worker.Working?
    ensures PeerOk(OnSend(cfg, st, st.worker.item))
    ensures PeerOk(st.(s := WorkDone(st.s, st.worker.item.work), worker := Idle))
  {
  }

  lemma SentKeepsPeer(cfg: Config, st: State)
    requires PeerOk(st) && st.worker.Sending?
    ensures PeerOk(OnSent(cfg, st, st.worker.item))
  {
    hide Drain, Due;
    DrainKeepsRequests(cfg, st.s.(sending := false), st.past);
  }

  lemma SameLinkKeepsPeer(a: State, b: State)
    requires PeerOk(a) && SameLink(a, b)
    ensures PeerOk(b)
  {
  }

  lemma CloseKeepsPeer(st: State)
    requires PeerOk(st)
    ensures PeerOk(st.(s := Close(st.s)))
  {
  }

  lemma StepKeepsPeer(cfg: Config, st: State, step: Step)
    requires PeerOk(st)
    ensures PeerOk(Next(cfg, st, step))
  {
    hide OnHostEvent, OnCommand, OnCredentials, OnBadCredentials, OnTurn, OnSend, OnSent, OnBegin, OnHostReturns, OnContinue,
      PeerOk, Close;
    match step
    case HostEvent(t) => HostEventKeepsPeer(cfg, st, t);
    case Command(handle, command) => if handle != INVALID { WriteKeepsPeer(st, handle, command, 0); }
    case Credentials(handle) => if handle != INVALID { WriteKeepsPeer(st, handle, ScanStop, 0); }
    case BadCredentials(handle, code) => if handle != INVALID { WriteKeepsPeer(st, handle, ScanStop, code); }
    case Turn => if st.worker.Idle? { TurnKeepsPeer(st); }
    case Send => if st.worker.Working? { SendKeepsPeer(cfg, st); }
    case Sent => if st.worker.Sending? { SentKeepsPeer(cfg, st); }
    case Finish => if st.worker.Working? { SendKeepsPeer(cfg, st); }
    case CloseService => CloseKeepsPeer(st);
    case _ => SameLinkKeepsPeer(st, Next(cfg, st, step));
  }

  lemma {:induction false} RunKeepsPeer(cfg: Config, steps: seq<Step>)
    ensures PeerOk(Run(cfg, steps))
  {
    hide Next, PeerOk;
    if steps == [] {
      StartPeer();
    } else {
      var before := steps[..|steps| - 1];
      RunKeepsPeer(cfg, before);
      StepKeepsPeer(cfg, Run(cfg, before), steps[|steps| - 1]);
    }
  }

  lemma StartPeer()
    ensures PeerOk(START)
  {
  }

  /** In every reachable state a Host notify in flight goes to the peer whose write asked
      for it: the same handle, in the generation that was current when the write came. */
  lemma {:induction false} NotifyReachesItsPeer(cfg: Config, steps: seq<Step>)
    ensures var st := Run(cfg, steps);
      && (st.s.sending <==> st.worker.Sending?)
      && (st.worker.Sending? ==> ItemOk(st.worker.item))
      && (st.worker.Sending? ==> var item := st.worker.item;
            && st.s.conn.handle == item.accepted.handle != INVALID
            && st.s.conn.generation == item.accepted.generation
            && item.work.peer == item.accepted)
  {
    RunKeepsPeer(cfg, steps);
  }

  /** While a notify is in flight nothing changes the connection. */
  lemma SendFreezesConnection(cfg: Config, st: State, step: Step)
    requires PeerOk(st) && st.s.sending && Next(cfg, st, step).s.sending
    ensures Next(cfg, st, step).s.conn == st.s.conn
    ensures Next(cfg, st, step).worker == st.worker
  {
    hide Drain, Apply, Due, Post;
  }

  /** The states of a run from its `i`-th to its `j`-th step all have a notify in flight. */
  ghost predicate SendingThroughout(cfg: Config, steps: seq<Step>, i: nat, j: nat)
    requires i <= j <= |steps|
  {
    forall k :: i <= k <= j ==> Run(cfg, steps[..k]).s.sending
  }

  lemma RunOnce(cfg: Config, steps: seq<Step>, j: nat)
    requires 0 < j <= |steps|
    ensures Run(cfg, steps[..j]) == Next(cfg, Run(cfg, steps[..j - 1]), steps[j - 1])
  {
    hide Next;
    assert steps[..j][..j - 1] == steps[..j - 1];
  }

  /** One notify call sees one connection, however many steps interleave with it. */
  lemma {:induction false} FrozenWhileSending(cfg: Config, steps: seq<Step>, i: nat, j: nat)
    requires i <= j <= |steps| && SendingThroughout(cfg, steps, i, j)
    ensures Run(cfg, steps[..j]).s.conn == Run(cfg, steps[..i]).s.conn
    ensures Run(cfg, steps[..j]).worker == Run(cfg, steps[..i]).worker
    decreases j
  {
    hide Run, Next, PeerOk;
    if i < j {
      FrozenWhileSending(cfg, steps, i, j - 1);
      RunOnce(cfg, steps, j);
      RunKeepsPeer(cfg, steps[..j - 1]);
      assert Run(cfg, steps[..j]).s.sending && Run(cfg, steps[..j - 1]).s.sending;
      SendFreezesConnection(cfg, Run(cfg, steps[..j - 1]), steps[j - 1]);
    }
  }

  // ---- deferred transitions take effect in arrival order ----

  predicate LinearOk(cfg: Config, st: State) {
    && st.s.conn == FollowAll(cfg, IDLE.conn, st.past.applied)
    && (!st.s.sending ==> st.s.deferred == Deferred([], false))
    && (!st.past.dropped ==> !st.s.deferred.overflow && st.past.applied + st.s.deferred.queue == st.past.received)
    && |st.s.deferred.queue| <= QUEUE_LENGTH
  }

  lemma HostEventKeepsLinear(cfg: Config, st: State, t: Transition)
    requires LinearOk(cfg, st)
    ensures LinearOk(cfg, OnHostEvent(cfg, st, t))
  {
    var applied, queue := st.past.applied, st.s.deferred.queue;
    if st.s.sending {
      assert applied + (queue + [t]) == (applied + queue) + [t];
      assert applied + [] == applied;
    } else {
      assert Due(st.s) == [] && [] + [t] == [t];
      assert applied + [] == applied && applied + [t] + [] == applied + [t];
      FollowConcat(cfg, IDLE.conn, applied, [t]);
      assert FollowAll(cfg, st.s.conn, [t]) == Follow(cfg, st.s.conn, t);
    }
  }

  lemma SentKeepsLinear(cfg: Config, st: State, item: Item)
    requires LinearOk(cfg, st)
    ensures LinearOk(cfg, OnSent(cfg, st, item))
  {
    FollowConcat(cfg, IDLE.conn, st.past.applied, Due(st.s));
    assert st.past.applied + st.s.deferred.queue + [] == st.past.applied + st.s.deferred.queue;
  }

  /** No transition is received, applied or deferred, and no send ends. */
  predicate SameFlow(a: State, b: State) {
    && b.s.conn == a.s.conn && b.s.deferred == a.s.deferred && (a.s.sending ==> b.s.sending)
    && b.past.received == a.past.received && b.past.applied == a.past.applied && b.past.dropped == a.past.dropped
  }

  lemma WriteKeepsFlow(st: State, handle: nat, command: WifiService.Command, code: int)
    ensures SameFlow(st, OnCommand(st, handle, command))
    ensures SameFlow(st, OnCredentials(st, handle))
    ensures SameFlow(st, OnBadCredentials(st, handle, code))
  {
    hide Post;
  }

  lemma WorkKeepsFlow(cfg: Config, st: State, item: Item)
    ensures SameFlow(st, OnTurn(st)) && SameFlow(st, OnSend(cfg, st, item))
    ensures SameFlow(st, st.(s := WorkDone(st.s, item.work), worker := Idle))
  {
  }

  lemma OtherStepsKeepFlow(cfg: Config, st: State, step: Step)
    requires !step.HostEvent? && !step.Sent?
    ensures SameFlow(st, Next(cfg, st, step))
  {
    hide OnCommand, OnCredentials, OnBadCredentials, OnTurn, OnSend, OnBegin, OnHostReturns, OnContinue, WorkDone;
    match step
    case Command(handle, command) => WriteKeepsFlow(st, handle, command, 0);
    case Credentials(handle) => WriteKeepsFlow(st, handle, ScanStop, 0);
    case BadCredentials(handle, code) => WriteKeepsFlow(st, handle, ScanStop, code);
    case Turn => WorkKeepsFlow(cfg, st, Item(Nothing, NOBODY));
    case Send => if st.worker.Working? { WorkKeepsFlow(cfg, st, st.worker.item); }
    case Finish => if st.worker.Working? { WorkKeepsFlow(cfg, st, st.worker.item); }
    case _ =>
  }

  lemma FlowKeepsLinear(cfg: Config, a: State, b: State)
    requires LinearOk(cfg, a) && SameFlow(a, b)
    ensures LinearOk(cfg, b)
  {
    hide FollowAll;
  }

  lemma StepKeepsLinear(cfg: Config, st: State, step: Step)
    requires LinearOk(cfg, st)
    ensures LinearOk(cfg, Next(cfg, st, step))
  {
    hide OnHostEvent, OnSent, LinearOk, SameFlow;
    match step
    case HostEvent(t) => HostEventKeepsLinear(cfg, st, t);
    case Sent => if st.worker.Sending? { SentKeepsLinear(cfg, st, st.worker.item); }
    case _ =>
      hide Next;
      OtherStepsKeepFlow(cfg, st, step);
      FlowKeepsLinear(cfg, st, Next(cfg, st, step));
  }

  lemma {:induction false} RunKeepsLinear(cfg: Config, steps: seq<Step>)
    ensures LinearOk(cfg, Run(cfg, steps))
  {
    if steps == [] {
      assert Run(cfg, steps) == START;
    } else {
      hide Next, LinearOk;
      var before := steps[..|steps| - 1];
      RunKeepsLinear(cfg, before);
      StepKeepsLinear(cfg, Run(cfg, before), steps[|steps| - 1]);
    }
  }

  /** With no notify in flight no transition waits, and unless one was dropped the
      connection is the fold of all received transitions in arrival order; with one in
      flight it is the fold of a prefix and the rest is queued. */
  lemma {:induction false} TransitionsLinearize(cfg: Config, steps: seq<Step>)
    ensures var st := Run(cfg, steps);
      && (!st.s.sending ==> st.s.deferred == Deferred([], false))
      && (!st.past.dropped && !st.s.sending ==> st.s.conn == FollowAll(cfg, IDLE.conn, st.past.received))
      && (!st.past.dropped ==> exists k: nat | k <= |st.past.received| ::
            && st.s.conn == FollowAll(cfg, IDLE.conn, st.past.received[..k])
            && st.s.deferred.queue == st.past.received[k..])
  {
    RunKeepsLinear(cfg, steps);
    var st := Run(cfg, steps);
    if !st.past.dropped {
      var k := |st.past.applied|;
      assert st.past.received[..k] == st.past.applied && st.past.received[k..] == st.s.deferred.queue;
      if !st.s.sending { assert st.past.applied + [] == st.past.applied; }
    }
  }

  /** A dropped transition costs the connection as soon as the send is over. */
  lemma {:induction false} OverflowLosesConnection(cfg: Config, steps: seq<Step>)
    ensures var (st, next) := (Run(cfg, steps), Run(cfg, steps + [Sent]));
      st.s.deferred.overflow ==>
        && !next.s.sending && next.s.conn.handle == INVALID && next.s.deferred == Deferred([], false)
        && !next.s.req.scanRequested && !next.s.req.credentialsPending
  {
    RunKeepsPeer(cfg, steps);
    RunKeepsLinear(cfg, steps);
    assert (steps + [Sent])[..|steps|] == steps;
    RunKeepsPeer(cfg, steps + [Sent]);
  }

  // ---- Host advertising calls ----

  /** The last Host call that succeeded was a start. */
  predicate On(log: seq<Call>) {
    log != [] &&
    match log[|log| - 1]
    case StartOk => true
    case StopOk => false
    case _ => On(log[..|log| - 1])
  }

  /** A window was opened since the last stop that succeeded and the last failure. */
  predicate Armed(log: seq<Call>) {
    log != [] &&
    match log[|log| - 1]
    case Opened => true
    case Stopped => false
    case Latched => false
    case _ => Armed(log[..|log| - 1])
  }

  ghost predicate Disciplined(log: seq<Call>) {
    forall i :: 0 <= i < |log| ==> CallOk(log, i)
  }

  predicate CallOk(log: seq<Call>, i: nat)
    requires i < |log|
  {
    && (log[i] == StartOk ==> !On(log[..i]))
    && (log[i] == StartCalled ==> Armed(log[..i]))
  }

  lemma Logged(log: seq<Call>, call: Call)
    requires Disciplined(log)
    requires (call == StartOk ==> !On(log)) && (call == StartCalled ==> Armed(log))
    ensures Disciplined(log + [call])
    ensures On(log + [call]) == if call.StartOk? then true else if call.StopOk? then false else On(log)
    ensures Armed(log + [call])
      == if call.Opened? then true else if call.Stopped? || call.Latched? then false else Armed(log)
  {
    var next := log + [call];
    assert next[..|log|] == log;
    forall i | 0 <= i < |next| ensures CallOk(next, i) {
      if i < |log| { assert CallOk(log, i) && next[..i] == log[..i]; }
    }
  }

  predicate HolderOk(window: Window, a: Advertising, on: bool) {
    match window
    case Free => on == a.needsReset
    case RestoreStop => on == a.needsReset
    case RestoreRecheck => !on
    case RestoreStart(_, _) => !on && !a.needsReset
    case RestoreEnd(ok, _, _) => if ok then on else on == a.needsReset
    case PauseStop => on == a.needsReset
    case PauseEnd(ok) => if ok then !on else on == a.needsReset
    case StartData(_) => !on && !a.needsReset
    case StartPublish(_, _) => !on && !a.needsReset
    case StartStart(_, _) => !on && !a.needsReset
    case StartEnd(ok, _, _) => if ok then on else !on && !a.needsReset
    case StopStop => on == a.needsReset && !a.started
    case StopEnd(ok) => (if ok then !on else on == a.needsReset) && !a.started
  }

  ghost predicate WindowOk(st: State) {
    && Disciplined(st.log)
    && HolderOk(st.window, st.s.adv, On(st.log))
    && (st.s.adv.started && st.s.adv.healthy ==> Armed(st.log))
  }

  lemma HostReturnsKeepsWindow(st: State, ok: bool)
    requires WindowOk(st)
    ensures WindowOk(OnHostReturns(st, ok))
  {
    hide Disciplined, On, Armed;
    var start := st.window.RestoreStart? || st.window.StartStart?;
    if start || st.window.RestoreStop? || st.window.PauseStop? || st.window.StopStop? {
      Logged(st.log, if start then (if ok then StartOk else StartFailed) else if ok then StopOk else StopFailed);
    }
  }

  lemma ContinueKeepsWindow(st: State, code: int)
    requires WindowOk(st)
    ensures WindowOk(OnContinue(st, code))
  {
    hide Disciplined, On, Armed, Post;
    match st.window
    case RestoreRecheck => if CanStart(HostStopped(st.s)) { Logged(st.log, StartCalled); }
    case RestoreEnd(ok, _, _) => if !ok { Logged(st.log, Latched); }
    case PauseEnd(ok) => if !ok { Logged(st.log, Latched); }
    case StartPublish(connectable, ok) =>
      if !ok || st.s.closing {
        Logged(st.log, Latched);
      } else {
        Logged(st.log, Opened);
        if CanStart(OpenWindow(st.s, connectable)) { Logged(st.log + [Opened], StartCalled); }
      }
    case StartEnd(ok, _, _) => if !ok { Logged(st.log, Latched); }
    case StopEnd(ok) => Logged(st.log, if ok then Stopped else Latched);
    case _ =>
  }

  /** Nothing the invariant of the window speaks of has changed. */
  predicate SameSide(a: State, b: State) {
    b.log == a.log && b.window == a.window && SameWindow(b.s.adv, a.s.adv)
  }

  lemma EventsKeepSide(cfg: Config, st: State, t: Transition, item: Item)
    ensures SameSide(st, OnHostEvent(cfg, st, t)) && SameSide(st, OnSent(cfg, st, item))
  {
    hide Drain, Apply, Due, Defer;
  }

  lemma WorkKeepsSide(cfg: Config, st: State, item: Item)
    ensures SameSide(st, OnTurn(st)) && SameSide(st, OnSend(cfg, st, item))
    ensures SameSide(st, st.(s := WorkDone(st.s, item.work), worker := Idle))
  {
  }

  lemma WritesKeepSide(st: State, handle: nat, command: WifiService.Command, code: int)
    ensures SameSide(st, OnCommand(st, handle, command))
    ensures SameSide(st, OnCredentials(st, handle))
    ensures SameSide(st, OnBadCredentials(st, handle, code))
  {
    hide Post;
  }

  lemma LinkStepsKeepSide(cfg: Config, st: State, step: Step)
    requires step.HostEvent? || step.Command? || step.Credentials? || step.BadCredentials?
      || step.Turn? || step.Send? || step.Sent? || step.Finish?
    ensures SameSide(st, Next(cfg, st, step))
  {
    hide OnHostEvent, OnCommand, OnCredentials, OnBadCredentials, OnTurn, OnSend, OnSent, WorkDone;
    var item := if st.worker.Idle? then Item(Nothing, NOBODY) else st.worker.item;
    match step
    case HostEvent(t) => EventsKeepSide(cfg, st, t, item);
    case Sent => EventsKeepSide(cfg, st, MtuChanged(0, 0), item);
    case Command(handle, command) => WritesKeepSide(st, handle, command, 0);
    case Credentials(handle) => WritesKeepSide(st, handle, ScanStop, 0);
    case BadCredentials(handle, code) => WritesKeepSide(st, handle, ScanStop, code);
    case _ => WorkKeepsSide(cfg, st, item);
  }

  lemma SideKeepsWindow(a: State, b: State)
    requires WindowOk(a) && SameSide(a, b)
    ensures WindowOk(b)
  {
    hide Disciplined, On, Armed;
  }

  lemma BeginKeepsWindow(cfg: Config, st: State, step: Step)
    requires WindowOk(st) && st.window.Free?
    ensures WindowOk(OnBegin(cfg, st, step))
  {
    hide Disciplined, On, Armed;
  }

  lemma StepKeepsWindow(cfg: Config, st: State, step: Step)
    requires WindowOk(st)
    ensures WindowOk(Next(cfg, st, step))
  {
    hide Disciplined, On, Armed, OnBegin, OnHostReturns, OnContinue;
    if step.HostEvent? || step.Command? || step.Credentials? || step.BadCredentials?
       || step.Turn? || step.Send? || step.Sent? || step.Finish? {
      hide Next, WindowOk;
      LinkStepsKeepSide(cfg, st, step);
      SideKeepsWindow(st, Next(cfg, st, step));
    } else {
      match step
      case HostReturns(ok, _) => HostReturnsKeepsWindow(st, ok);
      case Continue(code) => ContinueKeepsWindow(st, code);
      case Beacon(_) =>
      case CloseService =>
      case Resume =>
      case RevokeWindow =>
      case _ => if st.window.Free? { BeginKeepsWindow(cfg, st, step); }
    }
  }

  lemma {:induction false} RunKeepsWindow(cfg: Config, steps: seq<Step>)
    ensures WindowOk(Run(cfg, steps))
  {
    if steps == [] {
      assert Run(cfg, steps) == START;
    } else {
      hide Next, WindowOk;
      var before := steps[..|steps| - 1];
      RunKeepsWindow(cfg, before);
      StepKeepsWindow(cfg, Run(cfg, before), steps[|steps| - 1]);
    }
  }

  /** Host starts and stops alternate; with adv_mutex free, needsReset says whether the
      last successful Host call was a start; after a successful stop or a failure no
      Host start is called before a new window is opened. */
  lemma {:induction false} HostCallsAlternate(cfg: Config, steps: seq<Step>)
    ensures var st := Run(cfg, steps);
      && (forall i :: 0 <= i < |st.log| && st.log[i] == StartOk ==> !On(st.log[..i]))
      && (forall i :: 0 <= i < |st.log| && st.log[i] == StartCalled ==> Armed(st.log[..i]))
      && (st.window.Free? ==> (st.s.adv.needsReset <==> On(st.log)))
  {
    hide On, Armed;
    RunKeepsWindow(cfg, steps);
    var log := Run(cfg, steps).log;
    forall i | 0 <= i < |log|
      ensures (log[i] == StartOk ==> !On(log[..i])) && (log[i] == StartCalled ==> Armed(log[..i]))
    {
      assert CallOk(log, i);
    }
  }
}
