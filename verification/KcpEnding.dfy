/** How a stream ends: a failed turn or a close is final, its reason is kept for every later
    caller, and nobody waits on an ended stream. */
module KcpEnding {
  import opened Bytes
  import opened KcpStream
  import opened KcpRuns

  /** The worker is not in the middle of a turn and will start no other. */
  predicate Ended(e: End) { e.closing && e.phase != Updating }

  /** What callers of an ended stream are told. */
  function Reason(e: End): int { if e.fatal != OK then e.fatal else ERR_CLOSED }

  /** No byte of one side comes or goes, but for those its reader takes. */
  predicate Frozen(me: Side, out: Wire, me': Side, out': Wire) {
    && Ended(me'.e) && me'.e.fatal == me.e.fatal && me'.e.tx == me.e.tx
    && out'.sent == out.sent && me'.past.written == me.past.written
    && me'.past.read + me'.e.rx == me.past.read + me.e.rx
  }

  lemma ActFreezes(cfg: Config, me: Side, out: Wire, inn: Wire, action: Action)
    requires Admitted(cfg) && Ended(me.e)
    ensures var (me', out', _) := Act(cfg, me, out, inn, action); Frozen(me, out, me', out')
  {
    hide DrainInput, DrainTx, DrainRx;
    match action
    case WriteBytes(data) =>
      if data == [] { assert me.past.written + data == me.past.written; }
    case ReadBytes(size) =>
      if size > 0 && me.e.rx != [] {
        var n := if |me.e.rx| < size then |me.e.rx| else size;
        assert me.past.read + me.e.rx[..n] + me.e.rx[n..] == me.past.read + me.e.rx;
      } else {
        assert me.past.read + [] == me.past.read;
      }
    case _ =>
  }

  /** The peer neither writes to this side's wire nor changes this side. */
  lemma PeerFreezes(cfg: Config, me: Side, out: Wire, inn: Wire, action: Action)
    requires Admitted(cfg)
    ensures Act(cfg, me, out, inn, action).2.sent == inn.sent
  {
    hide DrainTx;
  }

  /** Whatever happens after the end of a stream, its reason, its unsent bytes and what it
      has left to read stay as they were. */
  lemma {:induction false} EndIsFinal(ca: Config, cb: Config, steps: seq<Step>, more: seq<Step>)
    requires Admitted(ca) && Admitted(cb) && Ended(Run(ca, cb, steps).a.e)
    ensures var s, t := Run(ca, cb, steps), Run(ca, cb, steps + more); Frozen(s.a, s.ab, t.a, t.ab)
    decreases |more|
  {
    hide Act;
    if more == [] {
      assert steps + more == steps;
    } else {
      var before, step := more[..|more| - 1], more[|more| - 1];
      EndIsFinal(ca, cb, steps, before);
      var all := steps + more;
      assert all[..|all| - 1] == steps + before && all[|all| - 1] == step;
      var s := Run(ca, cb, steps + before);
      if step.left {
        ActFreezes(ca, s.a, s.ab, s.ba, step.action);
      } else {
        PeerFreezes(cb, s.b, s.ba, s.ab, step.action);
      }
    }
  }

  /** On an ended stream every call returns: what has arrived can still be read, a flush of
      acknowledged bytes succeeds unless something failed, and all else gets the reason. */
  lemma NobodyWaits(cfg: Config, e: End, data: seq<byte>, size: nat)
    requires Ended(e) && 0 < |data| <= cfg.txSize && size > 0
    ensures Write(cfg, e, data) == (e, Returned(Reason(e)))
    ensures var (e', got, outcome) := Read(e, size);
      && e'.rx == e.rx[|got|..] && got == e.rx[..|got|]
      && if e.rx == [] then outcome == Returned(Reason(e)) else outcome == Returned(OK) && got != []
    ensures Flush(e) == Returned(if e.fatal == OK && e.tx == [] && e.waitsnd <= 0 then OK else Reason(e))
  {
  }

  /** In every run the second half of a turn that found a failure ends the stream with it. */
  lemma FailureEnds(ca: Config, cb: Config, steps: seq<Step>)
    requires Admitted(ca) && Admitted(cb) && Run(ca, cb, steps).a.e.phase == Updating
    ensures var s, t := Run(ca, cb, steps), Run(ca, cb, steps + [Step(true, CollectTurn)]);
      && (s.a.e.fatal != OK ==> Ended(t.a.e) && t.a.e.fatal == s.a.e.fatal)
      && (t.a.e.fatal != OK ==> Ended(t.a.e))
      && t.a.e.phase != Updating
  {
    hide DrainRx;
    var all := steps + [Step(true, CollectTurn)];
    assert all[..|all| - 1] == steps;
    var s := Run(ca, cb, steps);
    assert s.a.e.fatal != OK ==> DrainRx(ca, s.a.e, s.ba) == (s.a.e, s.ba) by { FailedTakesNothing(ca, s.a.e, s.ba); }
  }

  lemma FailedTakesNothing(cfg: Config, e: End, inn: Wire)
    ensures e.fatal != OK ==> DrainRx(cfg, e, inn) == (e, inn)
  {
  }

  /** Closing an idle open stream ends it, for the reason given if that is an error. */
  lemma CloseEnds(ca: Config, cb: Config, steps: seq<Step>, status: int)
    requires Admitted(ca) && Admitted(cb)
    requires var e := Run(ca, cb, steps).a.e; e.phase == Polling && !e.closing
    ensures var t := Run(ca, cb, steps + [Step(true, Closed(status))]);
      Ended(t.a.e) && Reason(t.a.e) == (if status == OK then ERR_CLOSED else status)
  {
    hide Flatten;
    RunKeeps(ca, cb, steps);
    var all := steps + [Step(true, Closed(status))];
    assert all[..|all| - 1] == steps;
  }
}
