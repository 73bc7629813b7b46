/** Books over every run of the provisioning service: no accepted request is lost. Each
    write the service took on is waiting, was taken up by the worker, was merged with one
    of its kind, or was cancelled for a reason its peer or the owner gave. */
module WifiLedger {
  import opened WifiService
  import opened WifiRuns

  datatype Request = ToProvision | ToScan | ToReject

  predicate Pending(s: Service, k: Request) {
    match k
    case ToProvision => s.req.credentialsPending
    case ToScan => s.req.scanRequested
    case ToReject => s.req.rejectPending
  }

  // ---- what happens to a request in one step ----

  /** A write that asks for work and is not refused. */
  predicate Asked(st: State, step: Step, k: Request) {
    match (k, step)
    case (ToProvision, Credentials(handle)) => handle != INVALID && CredentialsWrite(st.s, handle).1.Accepted?
    case (ToScan, Command(handle, ScanStart)) => handle != INVALID && CommandWrite(st.s, handle, ScanStart).1.Accepted?
    case (ToReject, BadCredentials(handle, _)) => handle != INVALID
    case _ => false
  }

  /** It finds one of its kind waiting, or for a scan running, and adds nothing to it. */
  predicate Merged(st: State, step: Step, k: Request) {
    Asked(st, step, k) && (Pending(st.s, k) || (k == ToScan && st.s.req.scanRunning))
  }

  predicate IsFor(work: Work, k: Request) {
    match k
    case ToProvision => work.Provision?
    case ToScan => work.Scan?
    case ToReject => work.Reject?
  }

  /** The worker, idle before, has taken up such a request. */
  predicate Taken(st: State, step: Step, next: State, k: Request) {
    step.Turn? && st.worker.Idle? && next.worker.Working? && IsFor(next.worker.item.work, k)
  }

  /** Among these transitions the peer disconnects or, for a scan, unsubscribes. */
  ghost predicate Breaks(cfg: Config, c: Conn, ts: seq<Transition>, k: Request) {
    exists i :: 0 <= i < |ts| && BreaksAt(cfg, FollowAll(cfg, c, ts[..i]), ts[i], k)
  }

  predicate BreaksAt(cfg: Config, c: Conn, t: Transition, k: Request) {
    match t
    case Disconnected(handle, _) => handle == c.handle
    case SubscriptionChanged(handle, notify, value, enabled) =>
      k == ToScan && handle == c.handle && notify && value == cfg.scanValue && !enabled
    case _ => false
  }

  /** The peer or the owner takes the request back. */
  ghost predicate TakenBack(cfg: Config, st: State, step: Step, k: Request) {
    match step
    case CloseService => true
    case HostEvent(t) => !st.s.sending && Breaks(cfg, st.s.conn, Due(st.s) + [t], k)
    case Sent => st.worker.Sending? && Breaks(cfg, st.s.conn, Due(st.s), k)
    case Command(handle, ScanStop) => k == ToScan && handle != INVALID && CommandWrite(st.s, handle, ScanStop).1.Accepted?
    case _ => false
  }

  ghost predicate Cancelled(cfg: Config, st: State, step: Step, k: Request) {
    Pending(st.s, k) && TakenBack(cfg, st, step, k)
  }

  function One(b: bool): nat { if b then 1 else 0 }

  // ---- transitions and requests ----

  lemma ApplyBreaks(cfg: Config, s: Service, t: Transition, k: Request)
    ensures Pending(Apply(cfg, s, t), k) == (Pending(s, k) && !BreaksAt(cfg, s.conn, t, k))
  {
    hide Post;
  }

  lemma BreaksFirst(cfg: Config, c: Conn, ts: seq<Transition>, k: Request)
    requires ts != []
    ensures Breaks(cfg, c, ts, k) <==> BreaksAt(cfg, c, ts[0], k) || Breaks(cfg, Follow(cfg, c, ts[0]), ts[1..], k)
  {
    hide BreaksAt, Follow;
    var rest, d := ts[1..], Follow(cfg, c, ts[0]);
    forall i | 0 <= i < |rest| ensures FollowAll(cfg, d, rest[..i]) == FollowAll(cfg, c, ts[..i + 1]) {
      assert ts[..i + 1][0] == ts[0] && ts[..i + 1][1..] == rest[..i];
    }
    assert ts[..0] == [] && FollowAll(cfg, c, []) == c;
    if Breaks(cfg, c, ts, k) {
      var i :| 0 <= i < |ts| && BreaksAt(cfg, FollowAll(cfg, c, ts[..i]), ts[i], k);
      if i > 0 { assert rest[i - 1] == ts[i] && ts[..i] == ts[..i - 1 + 1]; }
    }
    if BreaksAt(cfg, c, ts[0], k) { assert BreaksAt(cfg, FollowAll(cfg, c, ts[..0]), ts[0], k); }
    if Breaks(cfg, d, rest, k) {
      var i :| 0 <= i < |rest| && BreaksAt(cfg, FollowAll(cfg, d, rest[..i]), rest[i], k);
      assert ts[i + 1] == rest[i];
    }
  }

  lemma {:induction false} ApplyAllBreaks(cfg: Config, s: Service, ts: seq<Transition>, k: Request)
    ensures Pending(ApplyAll(cfg, s, ts), k) == (Pending(s, k) && !Breaks(cfg, s.conn, ts, k))
    decreases |ts|
  {
    hide Apply, Breaks, BreaksAt, Pending;
    if ts == [] {
      NothingBreaks(cfg, s.conn, k);
    } else {
      ApplyBreaks(cfg, s, ts[0], k);
      BreaksFirst(cfg, s.conn, ts, k);
      ApplyAllBreaks(cfg, Apply(cfg, s, ts[0]), ts[1..], k);
    }
  }

  lemma NothingBreaks(cfg: Config, c: Conn, k: Request)
    ensures !Breaks(cfg, c, [], k)
  {
  }

  lemma DrainBreaks(cfg: Config, s: Service, k: Request)
    ensures Pending(Drain(cfg, s), k) == (Pending(s, k) && !Breaks(cfg, s.conn, Due(s), k))
  {
    hide ApplyAll, Breaks;
    ApplyAllBreaks(cfg, s.(deferred := Deferred([], false)), Due(s), k);
  }

  lemma {:induction false} ApplyAllConcat(cfg: Config, s: Service, a: seq<Transition>, b: seq<Transition>)
    ensures ApplyAll(cfg, s, a + b) == ApplyAll(cfg, ApplyAll(cfg, s, a), b)
    decreases |a|
  {
    hide Apply;
    if a == [] {
      assert a + b == b;
    } else {
      assert (a + b)[1..] == a[1..] + b;
      ApplyAllConcat(cfg, Apply(cfg, s, a[0]), a[1..], b);
    }
  }

  lemma EventBreaks(cfg: Config, s: Service, t: Transition, k: Request)
    ensures Pending(Apply(cfg, Drain(cfg, s), t), k) == (Pending(s, k) && !Breaks(cfg, s.conn, Due(s) + [t], k))
  {
    hide Apply, Breaks, Pending;
    var bare := s.(deferred := Deferred([], false));
    ApplyAllConcat(cfg, bare, Due(s), [t]);
    assert ApplyAll(cfg, Drain(cfg, s), [t]) == Apply(cfg, Drain(cfg, s), t) by {
      assert [t][1..] == [];
    }
    ApplyAllBreaks(cfg, bare, Due(s) + [t], k);
    assert Pending(bare, k) == Pending(s, k) by { SameRequests(s, bare, k); }
  }

  lemma SameRequests(a: Service, b: Service, k: Request)
    requires a.req == b.req
    ensures Pending(a, k) == Pending(b, k)
  {
  }

  // ---- one step balances ----

  /** The change of a waiting request is what the step asked for, less what was merged,
      taken up and cancelled. */
  ghost predicate Balanced(cfg: Config, st: State, step: Step, next: State, k: Request) {
    One(Pending(next.s, k)) + One(Merged(st, step, k)) + One(Taken(st, step, next, k)) + One(Cancelled(cfg, st, step, k))
      == One(Pending(st.s, k)) + One(Asked(st, step, k))
  }

  lemma EventBalanced(cfg: Config, st: State, t: Transition, k: Request)
    ensures Balanced(cfg, st, HostEvent(t), Next(cfg, st, HostEvent(t)), k)
  {
    hide Apply, Drain, Due, Breaks, Defer;
    if !st.s.sending { EventBreaks(cfg, st.s, t, k); }
  }

  lemma SentBalanced(cfg: Config, st: State, k: Request)
    ensures Balanced(cfg, st, Sent, Next(cfg, st, Sent), k)
  {
    hide Apply, Drain, Breaks;
    DrainBreaks(cfg, st.s.(sending := false), k);
  }

  lemma WriteBalanced(cfg: Config, st: State, step: Step, k: Request)
    requires step.Command? || step.Credentials? || step.BadCredentials?
    ensures Balanced(cfg, st, step, Next(cfg, st, step), k)
  {
    hide Post, Breaks, Next;
    match step
    case Command(handle, command) => CommandBalanced(cfg, st, handle, command, k);
    case _ => CredentialsBalanced(cfg, st, step, k);
  }

  lemma CommandBalanced(cfg: Config, st: State, handle: nat, command: Command, k: Request)
    ensures Balanced(cfg, st, Command(handle, command), Next(cfg, st, Command(handle, command)), k)
  {
    hide Post, Breaks;
  }

  lemma CredentialsBalanced(cfg: Config, st: State, step: Step, k: Request)
    requires step.Credentials? || step.BadCredentials?
    ensures Balanced(cfg, st, step, Next(cfg, st, step), k)
  {
    hide Post, Breaks;
  }

  lemma TurnBalanced(cfg: Config, st: State, k: Request)
    ensures Balanced(cfg, st, Turn, Next(cfg, st, Turn), k)
  {
    hide Breaks;
  }

  lemma SendBalanced(cfg: Config, st: State, k: Request)
    ensures Balanced(cfg, st, Send, Next(cfg, st, Send), k)
    ensures Balanced(cfg, st, Finish, Next(cfg, st, Finish), k)
  {
    hide MaySend, Pending, IsFor;
    SameRequests(st.s, Next(cfg, st, Send).s, k);
    assert Pending(Next(cfg, st, Finish).s, k) == Pending(st.s, k) by { FinishKeeps(cfg, st, k); }
  }

  lemma FinishKeeps(cfg: Config, st: State, k: Request)
    ensures Pending(Next(cfg, st, Finish).s, k) == Pending(st.s, k)
  {
    assert Next(cfg, st, Finish).s == if st.worker.Working? then WorkDone(st.s, st.worker.item.work) else st.s by {
      hide WorkDone;
    }
  }

  lemma CloseBalanced(cfg: Config, st: State, k: Request)
    ensures Balanced(cfg, st, CloseService, Next(cfg, st, CloseService), k)
  {
  }

  /** The steps of the advertising windows touch no request. */
  predicate Aside(step: Step) {
    && !step.HostEvent? && !step.Sent? && !step.Command? && !step.Credentials? && !step.BadCredentials?
    && !step.Turn? && !step.Send? && !step.Finish? && !step.CloseService?
  }

  lemma AsideBalanced(cfg: Config, st: State, step: Step, k: Request)
    requires Aside(step)
    ensures Balanced(cfg, st, step, Next(cfg, st, step), k)
  {
    hide Next, Balanced;
    AsideKeepsRequests(cfg, st, step);
    NothingHappens(cfg, st, step, Next(cfg, st, step), k);
  }

  lemma AsideKeepsRequests(cfg: Config, st: State, step: Step)
    requires Aside(step)
    ensures Next(cfg, st, step).s.req == st.s.req && Next(cfg, st, step).worker == st.worker
  {
    hide OnBegin, OnHostReturns, OnContinue;
  }

  lemma NothingHappens(cfg: Config, st: State, step: Step, next: State, k: Request)
    requires Aside(step)
    requires next.s.req == st.s.req
    ensures Balanced(cfg, st, step, next, k)
  {
  }

  lemma StepBalanced(cfg: Config, st: State, step: Step, k: Request)
    ensures Balanced(cfg, st, step, Next(cfg, st, step), k)
  {
    hide Balanced, Next;
    match step
    case HostEvent(t) => EventBalanced(cfg, st, t, k);
    case Sent => SentBalanced(cfg, st, k);
    case Command(_, _) => WriteBalanced(cfg, st, step, k);
    case Credentials(_) => WriteBalanced(cfg, st, step, k);
    case BadCredentials(_, _) => WriteBalanced(cfg, st, step, k);
    case Turn => TurnBalanced(cfg, st, k);
    case Send => SendBalanced(cfg, st, k);
    case Finish => SendBalanced(cfg, st, k);
    case CloseService => CloseBalanced(cfg, st, k);
    case _ => AsideBalanced(cfg, st, step, k);
  }

  // ---- whole runs ----

  /** Requests accepted, taken up by the worker, merged and cancelled so far. */
  datatype Book = Book(accepted: nat, taken: nat, merged: nat, cancelled: nat)

  ghost function Books(cfg: Config, steps: seq<Step>, k: Request): Book {
    if steps == [] then Book(0, 0, 0, 0) else
    var before, step := steps[..|steps| - 1], steps[|steps| - 1];
    var st, b := Run(cfg, before), Books(cfg, before, k);
    Book(b.accepted + One(Asked(st, step, k)), b.taken + One(Taken(st, step, Next(cfg, st, step), k)),
         b.merged + One(Merged(st, step, k)), b.cancelled + One(Cancelled(cfg, st, step, k)))
  }

  /** In every run each accepted request of a kind was taken up, merged or cancelled, or is
      the one still waiting. */
  lemma {:induction false} NoRequestIsLost(cfg: Config, steps: seq<Step>, k: Request)
    ensures var b := Books(cfg, steps, k);
      b.accepted == b.taken + b.merged + b.cancelled + One(Pending(Run(cfg, steps).s, k))
  {
    hide Next, Asked, Taken, Merged, Cancelled;
    if steps == [] {
      assert !Pending(START.s, k);
    } else {
      var before, step := steps[..|steps| - 1], steps[|steps| - 1];
      NoRequestIsLost(cfg, before, k);
      StepBalanced(cfg, Run(cfg, before), step, k);
    }
  }

  // ---- what is accepted and what is taken up ----

  /** Writes are accepted exactly from the connected peer of an open service; credentials
      only while none wait or run, a scan only from a subscriber. */
  lemma AcceptedExactly(s: Service, handle: nat)
    ensures CredentialsWrite(s, handle).1.Accepted? <==>
      !s.closing && handle == s.conn.handle && !s.req.credentialsPending && !s.req.credentialsRunning
    ensures CredentialsWrite(s, handle).1.Busy? <==>
      !s.closing && handle == s.conn.handle && (s.req.credentialsPending || s.req.credentialsRunning)
    ensures CommandWrite(s, handle, ScanStart).1.Accepted? <==> !s.closing && handle == s.conn.handle && s.conn.scanSubscribed
    ensures CommandWrite(s, handle, ScanStop).1.Accepted? <==> !s.closing && handle == s.conn.handle
  {
  }

  /** The first of the waiting requests in the order the worker serves them. */
  predicate IsNext(s: Service, k: Request) {
    && Pending(s, k)
    && (k != ToReject ==> !s.req.rejectPending)
    && (k == ToScan ==> !s.req.credentialsPending)
  }

  function WriteOf(past: Past, k: Request): Peer {
    match k
    case ToProvision => past.credentialsWrite
    case ToScan => past.scanWrite
    case ToReject => past.rejectWrite
  }

  /** An idle worker of an open service with no event to report and no restart due takes up
      the next request, for the peer that wrote it. */
  lemma TurnTakesUp(cfg: Config, steps: seq<Step>, k: Request)
    requires var st := Run(cfg, steps);
      && st.worker.Idle? && !st.s.closing && st.s.events == [] && !st.s.adv.restartPending
      && IsNext(st.s, k)
    ensures var st := Run(cfg, steps); var next := Run(cfg, steps + [Turn]);
      && next.worker.Working? && IsFor(next.worker.item.work, k)
      && next.worker.item.work.peer == next.worker.item.accepted == WriteOf(st.past, k)
      && !Pending(next.s, k) && (k == ToScan ==> !next.s.req.scanStop)
  {
    hide Next, PeerOk, IsNext, IsFor, Pending, WriteOf;
    assert (steps + [Turn])[..|steps|] == steps;
    RunKeepsPeer(cfg, steps);
    TakesUp(cfg, Run(cfg, steps), k);
  }

  lemma TakesUp(cfg: Config, st: State, k: Request)
    requires PeerOk(st)
    requires st.worker.Idle? && !st.s.closing && st.s.events == [] && !st.s.adv.restartPending && IsNext(st.s, k)
    ensures var next := Next(cfg, st, Turn);
      && next.worker.Working? && IsFor(next.worker.item.work, k)
      && next.worker.item.work.peer == next.worker.item.accepted == WriteOf(st.past, k)
      && !Pending(next.s, k) && (k == ToScan ==> !next.s.req.scanStop)
  {
  }

  function Turns(n: nat): (ts: seq<Step>)
    ensures |ts| == n && forall i :: 0 <= i < n ==> ts[i] == Turn
  {
    seq(n, _ => Turn)
  }

  /** Before that, each turn reports one event and changes nothing else. */
  lemma {:induction false} TurnsReportEvents(cfg: Config, steps: seq<Step>, n: nat)
    requires var st := Run(cfg, steps); st.worker.Idle? && !st.s.closing && n <= |st.s.events|
    ensures var st := Run(cfg, steps); var next := Run(cfg, steps + Turns(n));
      next == st.(s := st.s.(events := st.s.events[n..]))
    decreases n
  {
    hide Next;
    if n == 0 {
      assert steps + Turns(0) == steps;
    } else {
      TurnsReportEvents(cfg, steps, n - 1);
      var all := steps + Turns(n);
      assert all[..|all| - 1] == steps + Turns(n - 1) && all[|all| - 1] == Turn;
      ReportsEvent(cfg, Run(cfg, all[..|all| - 1]));
      assert Run(cfg, steps).s.events[n - 1..][1..] == Run(cfg, steps).s.events[n..];
    }
  }

  lemma ReportsEvent(cfg: Config, st: State)
    requires st.worker.Idle? && !st.s.closing && st.s.events != []
    ensures Next(cfg, st, Turn) == st.(s := st.s.(events := st.s.events[1..]))
  {
  }

  /** However many events wait, turns alone bring the next request to the worker. */
  lemma RequestIsServed(cfg: Config, steps: seq<Step>, k: Request)
    requires var st := Run(cfg, steps);
      st.worker.Idle? && !st.s.closing && !st.s.adv.restartPending && IsNext(st.s, k)
    ensures var st := Run(cfg, steps); var next := Run(cfg, steps + Turns(|st.s.events| + 1));
      && next.worker.Working? && IsFor(next.worker.item.work, k)
      && next.worker.item.accepted == WriteOf(st.past, k)
  {
    hide Next;
    var st := Run(cfg, steps);
    var n := |st.s.events|;
    TurnsReportEvents(cfg, steps, n);
    var mid := steps + Turns(n);
    assert steps + Turns(n + 1) == mid + [Turn];
    TurnTakesUp(cfg, mid, k);
  }

  /** A frame goes to the Host exactly when its peer is still connected and subscribed to
      the channel, and the channel has an attribute. */
  lemma SendReachesHost(cfg: Config, steps: seq<Step>)
    requires Run(cfg, steps).worker.Working?
    ensures var st := Run(cfg, steps); var item := st.worker.item;
      Run(cfg, steps + [Send]).worker.Sending? <==>
        && item.accepted == Peer(st.s.conn.handle, st.s.conn.generation) && st.s.conn.handle != INVALID
        && if item.work.Scan? then st.s.conn.scanSubscribed && cfg.scanValue != INVALID_ATTRIBUTE
           else st.s.conn.provisionSubscribed && cfg.provisionValue != INVALID_ATTRIBUTE
  {
    hide Next, PeerOk;
    assert (steps + [Send])[..|steps|] == steps;
    RunKeepsPeer(cfg, steps);
    SendsExactly(cfg, Run(cfg, steps));
  }

  lemma SendsExactly(cfg: Config, st: State)
    requires PeerOk(st) && st.worker.Working?
    ensures var item := st.worker.item;
      Next(cfg, st, Send).worker.Sending? <==>
        && item.accepted == Peer(st.s.conn.handle, st.s.conn.generation) && st.s.conn.handle != INVALID
        && if item.work.Scan? then st.s.conn.scanSubscribed && cfg.scanValue != INVALID_ATTRIBUTE
           else st.s.conn.provisionSubscribed && cfg.provisionValue != INVALID_ATTRIBUTE
  {
  }

  // ---- a scan that is called off is told so ----

  lemma {:induction false} BreaksStop(cfg: Config, s: Service, ts: seq<Transition>)
    ensures s.req.scanStop || Breaks(cfg, s.conn, ts, ToScan) ==> ApplyAll(cfg, s, ts).req.scanStop
    decreases |ts|
  {
    hide Apply, Breaks, BreaksAt;
    if ts == [] {
      NothingBreaks(cfg, s.conn, ToScan);
    } else {
      BreakStops(cfg, s, ts[0]);
      BreaksFirst(cfg, s.conn, ts, ToScan);
      BreaksStop(cfg, Apply(cfg, s, ts[0]), ts[1..]);
    }
  }

  lemma BreakStops(cfg: Config, s: Service, t: Transition)
    ensures s.req.scanStop || BreaksAt(cfg, s.conn, t, ToScan) ==> Apply(cfg, s, t).req.scanStop
  {
    hide Post;
  }

  lemma EventsStop(cfg: Config, st: State, step: Step)
    requires step.HostEvent? || step.Sent?
    ensures st.s.req.scanStop || TakenBack(cfg, st, step, ToScan) ==> Next(cfg, st, step).s.req.scanStop
  {
    hide Apply, Breaks, Due, Defer;
    if step.HostEvent? && !st.s.sending {
      var bare := st.s.(deferred := Deferred([], false));
      BreaksStop(cfg, bare, Due(st.s) + [step.t]);
      ApplyAllConcat(cfg, bare, Due(st.s), [step.t]);
      assert [step.t][1..] == [];
      assert ApplyAll(cfg, Drain(cfg, st.s), [step.t]) == Apply(cfg, Drain(cfg, st.s), step.t);
    } else if step.Sent? && st.worker.Sending? {
      var u := st.s.(sending := false);
      assert Due(u) == Due(st.s) by { SameDue(st.s); }
      BreaksStop(cfg, u.(deferred := Deferred([], false)), Due(u));
    }
  }

  lemma SameDue(s: Service)
    ensures Due(s.(sending := false)) == Due(s)
  {
  }

  /** Whatever takes a scan back marks a running one to stop, and the mark stays until the
      worker is done with it. */
  lemma StopReachesScan(cfg: Config, steps: seq<Step>, step: Step)
    ensures var st, next := Run(cfg, steps), Run(cfg, steps + [step]);
      && (TakenBack(cfg, st, step, ToScan) ==> next.s.req.scanStop)
      && (st.s.req.scanStop && !st.worker.Idle? && !step.Finish? ==> next.s.req.scanStop)
  {
    hide Next, TakenBack;
    assert (steps + [step])[..|steps|] == steps;
    StepStops(cfg, Run(cfg, steps), step);
  }

  lemma StepStops(cfg: Config, st: State, step: Step)
    ensures TakenBack(cfg, st, step, ToScan) ==> Next(cfg, st, step).s.req.scanStop
    ensures st.s.req.scanStop && !st.worker.Idle? && !step.Finish? ==> Next(cfg, st, step).s.req.scanStop
  {
    if step.HostEvent? || step.Sent? {
      hide Next, TakenBack;
      EventsStop(cfg, st, step);
    } else if Aside(step) {
      hide Next;
      AsideKeepsRequests(cfg, st, step);
    } else {
      hide Post, MaySend;
    }
  }

  // ---- busy exactly while it works ----

  function Busy(worker: Worker, k: Request): bool { !worker.Idle? && IsFor(worker.item.work, k) }

  predicate RunningOk(st: State) {
    && (st.s.req.credentialsRunning <==> Busy(st.worker, ToProvision))
    && (st.s.req.scanRunning <==> Busy(st.worker, ToScan))
  }

  lemma ApplyKeepsRunning(cfg: Config, s: Service, t: Transition)
    ensures var r := Apply(cfg, s, t).req;
      r.credentialsRunning == s.req.credentialsRunning && r.scanRunning == s.req.scanRunning
  {
    hide Post, CheckMtu, Follow;
    var r := Apply(cfg, s, t).req;
    if t.Connected? || t.MtuChanged? {
      assert r == s.req;
    } else if r != s.req {
      assert r == s.req.(scanRequested := false, scanStop := true, credentialsPending := r.credentialsPending, rejectPending := r.rejectPending);
    }
  }

  lemma {:induction false} ApplyAllKeepsRunning(cfg: Config, s: Service, ts: seq<Transition>)
    ensures var r := ApplyAll(cfg, s, ts).req;
      r.credentialsRunning == s.req.credentialsRunning && r.scanRunning == s.req.scanRunning
    decreases |ts|
  {
    hide Apply;
    if ts != [] {
      ApplyKeepsRunning(cfg, s, ts[0]);
      ApplyAllKeepsRunning(cfg, Apply(cfg, s, ts[0]), ts[1..]);
    }
  }

  lemma EventsKeepRunning(cfg: Config, st: State, step: Step)
    requires RunningOk(st) && (step.HostEvent? || step.Sent?)
    ensures RunningOk(Next(cfg, st, step))
  {
    hide Apply, ApplyAll, Due, Defer;
    ApplyAllKeepsRunning(cfg, st.s.(deferred := Deferred([], false)), Due(st.s));
    var u := st.s.(sending := false);
    ApplyAllKeepsRunning(cfg, u.(deferred := Deferred([], false)), Due(u));
    if step.HostEvent? { ApplyKeepsRunning(cfg, Drain(cfg, st.s), step.t); }
  }

  lemma WritesKeepRunning(cfg: Config, st: State, step: Step)
    requires RunningOk(st) && (step.Command? || step.Credentials? || step.BadCredentials?)
    ensures RunningOk(Next(cfg, st, step))
  {
    hide Post;
  }

  lemma WorkKeepsRunning(cfg: Config, st: State, step: Step)
    requires RunningOk(st) && (step.Turn? || step.Send? || step.Finish? || step.CloseService?)
    ensures RunningOk(Next(cfg, st, step))
  {
    hide MaySend;
  }

  lemma {:induction false} RunKeepsRunning(cfg: Config, steps: seq<Step>)
    ensures RunningOk(Run(cfg, steps))
  {
    if steps == [] {
      assert Run(cfg, steps) == START;
    } else {
      hide Next, RunningOk;
      var before, step := steps[..|steps| - 1], steps[|steps| - 1];
      RunKeepsRunning(cfg, before);
      StepKeepsRunning(cfg, Run(cfg, before), step);
    }
  }

  lemma StepKeepsRunning(cfg: Config, st: State, step: Step)
    requires RunningOk(st)
    ensures RunningOk(Next(cfg, st, step))
  {
    hide Next, RunningOk;
    if Aside(step) {
      AsideKeepsRunning(cfg, st, step);
    } else if step.HostEvent? || step.Sent? {
      EventsKeepRunning(cfg, st, step);
    } else if step.Command? || step.Credentials? || step.BadCredentials? {
      WritesKeepRunning(cfg, st, step);
    } else {
      WorkKeepsRunning(cfg, st, step);
    }
  }

  lemma AsideKeepsRunning(cfg: Config, st: State, step: Step)
    requires RunningOk(st) && Aside(step)
    ensures RunningOk(Next(cfg, st, step))
  {
    hide Next;
    AsideKeepsRequests(cfg, st, step);
  }

  /** In every run the service counts as busy with credentials, or with a scan, exactly
      while the worker is on them; a finished item makes it free again. */
  lemma BusyExactly(cfg: Config, steps: seq<Step>)
    ensures var st := Run(cfg, steps);
      && (st.s.req.credentialsRunning <==> Busy(st.worker, ToProvision))
      && (st.s.req.scanRunning <==> Busy(st.worker, ToScan))
    ensures Run(cfg, steps).worker.Working? ==> Run(cfg, steps + [Finish]).worker.Idle?
  {
    hide Next;
    RunKeepsRunning(cfg, steps);
    assert (steps + [Finish])[..|steps|] == steps;
    FinishIdles(cfg, Run(cfg, steps));
  }

  lemma FinishIdles(cfg: Config, st: State)
    ensures st.worker.Working? ==> Next(cfg, st, Finish).worker.Idle?
  {
  }

  /** A closed service takes up nothing more and accepts nothing more. */
  lemma ClosedTakesNothing(cfg: Config, steps: seq<Step>, more: seq<Step>)
    ensures var st := Run(cfg, steps + [CloseService] + more);
      && st.s.closing
      && (forall handle, command :: !CommandWrite(st.s, handle, command).1.Accepted?)
      && (forall handle :: !CredentialsWrite(st.s, handle).1.Accepted?)
      && WorkerTurn(st.s) == (st.s, Nothing)
    decreases |more|
  {
    hide Next;
    if more == [] {
      assert steps + [CloseService] + more == steps + [CloseService] && (steps + [CloseService])[..|steps|] == steps;
      Closes(cfg, Run(cfg, steps));
    } else {
      var front := more[..|more| - 1];
      ClosedTakesNothing(cfg, steps, front);
      var all := steps + [CloseService] + more;
      assert all[..|all| - 1] == steps + [CloseService] + front;
      StaysClosed(cfg, Run(cfg, steps + [CloseService] + front), all[|all| - 1]);
    }
  }

  lemma Closes(cfg: Config, st: State)
    ensures Next(cfg, st, CloseService).s.closing
  {
  }

  lemma StaysClosed(cfg: Config, st: State, step: Step)
    requires st.s.closing
    ensures Next(cfg, st, step).s.closing
  {
    hide Apply, Post, Due;
  }
}
