/** What a worker turn leaves undone: nothing it could have done. The safety of the
    stream is in `KcpRuns`; here every drain goes as far as it can, and bytes that have
    arrived get read. */
module KcpProgress {
  import opened Bytes
  import opened KcpStream
  import opened KcpRuns

  // ---- receiving ----

  /** No arrived message that fits is left with KCP. */
  predicate RxDone(cfg: Config, e: End, inn: Wire) {
    e.fatal != OK || !inn.Ready() || |inn.sent[inn.received]| > cfg.rxSize - |e.rx|
  }

  /** drain_rx moves whole messages, in order, until the next one is missing or does not
      fit; it fails only on a message longer than the MTU. */
  lemma {:induction false} DrainRxMaximal(cfg: Config, e: End, inn: Wire)
    requires inn.received <= |inn.sent|
    ensures var (e', inn') := DrainRx(cfg, e, inn);
      && RxDone(cfg, e', inn')
      && inn.received <= inn'.received <= |inn.sent|
      && e'.rx == e.rx + Flatten(inn.sent[inn.received..inn'.received])
      && (e.fatal == OK && e'.fatal != OK ==> e'.fatal == ERR_IO && inn'.Ready() && |inn.sent[inn'.received]| > cfg.mtu)
    decreases |inn.sent| - inn.received
  {
    if e.fatal == OK && inn.Ready() && |inn.sent[inn.received]| <= cfg.rxSize - |e.rx|
       && |inn.sent[inn.received]| <= cfg.mtu {
      var message := inn.sent[inn.received];
      var next := inn.(received := inn.received + 1);
      DrainRxMaximal(cfg, e.(rx := e.rx + message), next);
      var k := DrainRx(cfg, e, inn).1.received;
      var rest := inn.sent[inn.received + 1..k];
      assert inn.sent[inn.received..k] == [message] + rest;
      FlattenFirst(message, rest);
      assert (e.rx + message) + Flatten(rest) == e.rx + (message + Flatten(rest));
    } else {
      assert inn.sent[inn.received..inn.received] == [] && e.rx + [] == e.rx;
    }
  }

  lemma FlattenFirst(message: seq<byte>, rest: seq<seq<byte>>)
    ensures Flatten([message] + rest) == message + Flatten(rest)
  {
    assert ([message] + rest)[1..] == rest;
  }

  // ---- datagrams ----

  /** The datagrams in front of the first bad one. */
  function Good(frames: seq<Frame>): (k: nat)
    ensures k <= |frames|
    ensures k < |frames| ==> frames[k].Garbage?
    ensures forall i :: 0 <= i < k ==> frames[i].Frame?
  {
    if frames == [] || frames[0].Garbage? then 0 else 1 + Good(frames[1..])
  }

  /** The messages these datagrams acknowledge, and those they carry. */
  function AcksOf(frames: seq<Frame>): set<nat> {
    set i, m | 0 <= i < |frames| && frames[i].Frame? && m in frames[i].acks :: m
  }

  function DataOf(frames: seq<Frame>): set<nat> {
    set i, m | 0 <= i < |frames| && frames[i].Frame? && m in frames[i].data :: m
  }

  lemma AcksFirst(first: Frame, rest: seq<Frame>)
    requires first.Frame?
    ensures AcksOf([first] + rest) == first.acks + AcksOf(rest)
  {
    var all := [first] + rest;
    assert all[0] == first && forall i :: 0 <= i < |rest| ==> all[i + 1] == rest[i];
    forall m | m in AcksOf(rest) ensures m in AcksOf(all) {
      var i :| 0 <= i < |rest| && rest[i].Frame? && m in rest[i].acks;
      assert all[i + 1] == rest[i];
    }
  }

  lemma DataFirst(first: Frame, rest: seq<Frame>)
    requires first.Frame?
    ensures DataOf([first] + rest) == first.data + DataOf(rest)
  {
    var all := [first] + rest;
    assert all[0] == first && forall i :: 0 <= i < |rest| ==> all[i + 1] == rest[i];
    forall m | m in DataOf(rest) ensures m in DataOf(all) {
      var i :| 0 <= i < |rest| && rest[i].Frame? && m in rest[i].data;
      assert all[i + 1] == rest[i];
    }
  }

  /** drain_input feeds everything up to the first bad datagram, which stays queued and
      ends the stream; KCP then knows exactly what those datagrams said. */
  lemma {:induction false} DrainInputMaximal(e: End, out: Wire, inn: Wire)
    requires e.fatal == OK
    ensures var (e', out', inn') := DrainInput(e, out, inn); var k := Good(e.input);
      && e'.input == e.input[k..]
      && e'.fatal == (if k == |e.input| then OK else ERR_IO)
      && out'.acked == out.acked + AcksOf(e.input[..k])
      && inn'.arrived == inn.arrived + DataOf(e.input[..k])
    decreases |e.input|
  {
    hide AcksOf, DataOf, DrainInput, Good;
    var k := Good(e.input);
    FeedOnce(e, out, inn);
    GoodOnce(e.input);
    if e.input == [] || e.input[0].Garbage? {
      NothingSaid();
    } else {
      var frame, rest := e.input[0], e.input[1..];
      DrainInputMaximal(e.(input := rest), out.(acked := out.acked + frame.acks), inn.(arrived := inn.arrived + frame.data));
      AcksFirst(frame, rest[..k - 1]);
      DataFirst(frame, rest[..k - 1]);
    }
  }

  /** The datagrams that are fed, one at a time. */
  lemma GoodOnce(frames: seq<Frame>)
    ensures frames == [] || frames[0].Garbage? ==> Good(frames) == 0 && frames[..0] == [] && frames[0..] == frames
    ensures frames != [] && frames[0].Frame? ==>
      var k, rest := Good(frames), frames[1..];
      k == 1 + Good(rest) && frames[..k] == [frames[0]] + rest[..k - 1] && rest[k - 1..] == frames[k..]
  {
    if frames != [] && frames[0].Frame? { FrontOf(frames, Good(frames)); }
  }

  lemma FrontOf(frames: seq<Frame>, k: nat)
    requires 1 <= k <= |frames|
    ensures frames[..k] == [frames[0]] + frames[1..][..k - 1] && frames[1..][k - 1..] == frames[k..]
  {
  }

  lemma FeedOnce(e: End, out: Wire, inn: Wire)
    requires e.fatal == OK
    ensures DrainInput(e, out, inn) ==
      if e.input == [] then (e, out, inn)
      else if e.input[0].Garbage? then (e.(fatal := ERR_IO), out, inn)
      else DrainInput(e.(input := e.input[1..]), out.(acked := out.acked + e.input[0].acks), inn.(arrived := inn.arrived + e.input[0].data))
  {
  }

  lemma NothingSaid()
    ensures AcksOf([]) == {} && DataOf([]) == {}
  {
  }

  // ---- sending ----

  /** Nothing is left in the ring that the send window has room for. */
  predicate TxDone(cfg: Config, e: End, out: Wire) {
    e.fatal != OK || e.tx == [] || out.Outstanding() >= cfg.sendWindow
  }

  predicate Sized(cfg: Config, message: seq<byte>) { 1 <= |message| <= cfg.mtu - OVERHEAD }

  ghost predicate AllSized(cfg: Config, sent: seq<seq<byte>>) { forall i :: 0 <= i < |sent| ==> Sized(cfg, sent[i]) }

  /** One message goes to KCP, or is lost when KCP refuses it. */
  lemma FillOnce(cfg: Config, e: End, out: Wire, budget: nat, n: nat, left: End)
    requires Admitted(cfg) && e.tx != [] && out.Outstanding() < cfg.sendWindow
    requires n == (if |e.tx| < cfg.mtu - OVERHEAD then |e.tx| else cfg.mtu - OVERHEAD) && left == e.(tx := e.tx[n..])
    ensures DrainTx(cfg, e, out, budget) ==
      if budget == 0 then (left.(fatal := ERR_IO, waitsnd := out.Outstanding()), out, true)
      else DrainTx(cfg, left, out.(sent := out.sent + [e.tx[..n]]), budget - 1)
  {
  }

  lemma FillDone(cfg: Config, e: End, out: Wire, budget: nat)
    requires Admitted(cfg) && (e.tx == [] || out.Outstanding() >= cfg.sendWindow)
    ensures DrainTx(cfg, e, out, budget) == (e.(waitsnd := out.Outstanding()), out, false)
  {
  }

  /** drain_tx hands over messages of at most the segment size until the ring is empty or
      the window full; a byte is lost only when KCP refuses a message. */
  lemma {:induction false} DrainTxMaximal(cfg: Config, e: End, out: Wire, budget: nat)
    requires Admitted(cfg)
    ensures var (e', out', lost) := DrainTx(cfg, e, out, budget);
      && (lost || e'.tx == [] || out'.Outstanding() >= cfg.sendWindow)
      && (AllSized(cfg, out.sent) ==> AllSized(cfg, out'.sent))
      && |out.sent| <= |out'.sent| && (lost ==> |out'.sent| == |out.sent| + budget)
    decreases |e.tx|
  {
    hide AllSized, DrainTx;
    if e.tx == [] || out.Outstanding() >= cfg.sendWindow {
      FillDone(cfg, e, out, budget);
    } else {
      var n := if |e.tx| < cfg.mtu - OVERHEAD then |e.tx| else cfg.mtu - OVERHEAD;
      var left, message := e.(tx := e.tx[n..]), e.tx[..n];
      FillOnce(cfg, e, out, budget, n, left);
      if budget > 0 {
        if AllSized(cfg, out.sent) { SizedSnoc(cfg, out.sent, message); }
        DrainTxMaximal(cfg, left, out.(sent := out.sent + [message]), budget - 1);
      }
    }
  }

  lemma SizedSnoc(cfg: Config, sent: seq<seq<byte>>, message: seq<byte>)
    requires AllSized(cfg, sent) && Sized(cfg, message)
    ensures AllSized(cfg, sent + [message])
  {
  }

  // ---- turns of a run ----

  lemma PollMaximal(cfg: Config, e: End, out: Wire, inn: Wire, budget: nat)
    requires Admitted(cfg) && e.fatal == OK && !e.closing
    ensures var (e', out', inn', _) := Poll(cfg, e, out, inn, budget);
      && e'.phase == Updating && TxDone(cfg, e', out')
      && (e'.fatal == OK ==>
            e'.input == [] && out'.acked == out.acked + AcksOf(e.input) && inn'.arrived == inn.arrived + DataOf(e.input))
  {
    hide DrainInput, DrainTx, AcksOf, DataOf;
    DrainInputMaximal(e, out, inn);
    var (e1, out1, inn1) := DrainInput(e, out, inn);
    DrainTxMaximal(cfg, e1, out1, budget);
    assert e.input[..|e.input|] == e.input;
  }

  /** After every first half of a turn of an open end no datagram waits, all that they said
      is known, and nothing is held back that could be sent, unless the end has failed. */
  lemma PollLeavesNothing(ca: Config, cb: Config, steps: seq<Step>, budget: nat)
    requires Admitted(ca) && Admitted(cb)
    requires var e := Run(ca, cb, steps).a.e; e.phase == Polling && !e.closing
    ensures var s := Run(ca, cb, steps); var t := Run(ca, cb, steps + [Step(true, PollTurn(budget))]);
      && t.a.e.phase == Updating && TxDone(ca, t.a.e, t.ab)
      && (t.a.e.fatal == OK ==>
            && t.a.e.input == []
            && t.ab.acked == s.ab.acked + AcksOf(s.a.e.input) && t.ba.arrived == s.ba.arrived + DataOf(s.a.e.input))
  {
    hide Poll, AcksOf, DataOf, Flatten;
    RunKeeps(ca, cb, steps);
    assert (steps + [Step(true, PollTurn(budget))])[..|steps|] == steps;
    var s := Run(ca, cb, steps);
    PollMaximal(ca, s.a.e, s.ab, s.ba, budget);
  }

  /** After every second half of a turn of an end that stays healthy, the next message has
      not arrived or is longer than the free ring. */
  lemma CollectLeavesNothing(ca: Config, cb: Config, steps: seq<Step>)
    requires Admitted(ca) && Admitted(cb) && Run(ca, cb, steps).b.e.phase == Updating
    ensures var s := Run(ca, cb, steps); var t := Run(ca, cb, steps + [Step(false, CollectTurn)]);
      && RxDone(cb, t.b.e, t.ab)
      && (t.b.e.fatal == OK ==> t.b.e.phase == Polling)
      && t.ab.received <= |t.ab.sent| && t.b.past.read + t.b.e.rx == Flatten(t.ab.sent[..t.ab.received])
      && t.ab.sent == s.ab.sent && t.ab.arrived == s.ab.arrived
  {
    hide DrainRx, Flatten;
    RunKeeps(ca, cb, steps);
    RunKeeps(ca, cb, steps + [Step(false, CollectTurn)]);
    assert (steps + [Step(false, CollectTurn)])[..|steps|] == steps;
    var s := Run(ca, cb, steps);
    DrainRxMaximal(cb, s.b.e, s.ab);
  }

  // ---- everything that has arrived is read ----

  lemma ActSized(cfg: Config, me: Side, out: Wire, inn: Wire, action: Action)
    requires Admitted(cfg) && AllSized(cfg, out.sent)
    ensures var (_, out', inn') := Act(cfg, me, out, inn, action); AllSized(cfg, out'.sent) && inn'.sent == inn.sent
  {
    hide DrainInput, DrainTx, DrainRx;
    if action.PollTurn? && me.e.phase == Polling && !me.e.closing {
      var (e1, out1, inn1) := DrainInput(me.e, out, inn);
      DrainTxMaximal(cfg, e1, out1, action.budget);
    }
  }

  lemma {:induction false} RunSized(ca: Config, cb: Config, steps: seq<Step>)
    requires Admitted(ca) && Admitted(cb)
    ensures var s := Run(ca, cb, steps); AllSized(ca, s.ab.sent) && AllSized(cb, s.ba.sent)
  {
    hide Act, AllSized;
    if steps == [] {
      assert AllSized(ca, []) && AllSized(cb, []) by { NoneSized(ca); NoneSized(cb); }
    } else {
      var before, step := steps[..|steps| - 1], steps[|steps| - 1];
      RunSized(ca, cb, before);
      var s := Run(ca, cb, before);
      if step.left {
        ActSized(ca, s.a, s.ab, s.ba, step.action);
      } else {
        ActSized(cb, s.b, s.ba, s.ab, step.action);
      }
    }
  }

  lemma NoneSized(cfg: Config)
    ensures AllSized(cfg, [])
  {
  }

  /** All messages of one direction have arrived. */
  ghost predicate AllArrived(w: Wire) { forall i :: 0 <= i < |w.sent| ==> i in w.arrived }

  /** The bytes not yet received fit the ring, so none of them stays behind. */
  lemma RestFits(cfg: Config, e: End, inn: Wire)
    requires inn.received <= |inn.sent| && AllArrived(inn) && RxDone(cfg, e, inn) && e.fatal == OK
    requires |e.rx| + |Flatten(inn.sent[inn.received..])| <= cfg.rxSize
    ensures inn.received == |inn.sent|
  {
    FirstFits(inn.sent[inn.received..]);
  }

  lemma FirstFits(messages: seq<seq<byte>>)
    ensures messages != [] ==> |messages[0]| <= |Flatten(messages)|
  {
  }

  /** A reader whose ring has room for what is on its way reads everything that was written
      as soon as it has all arrived: one half turn and one read. */
  lemma ArrivedIsRead(ca: Config, cb: Config, steps: seq<Step>, size: nat)
    requires Admitted(ca) && Admitted(cb) && ca.mtu - OVERHEAD <= cb.mtu
    requires var s := Run(ca, cb, steps);
      && s.a.e.fatal == OK && s.a.e.tx == [] && AllArrived(s.ab)
      && s.b.e.phase == Updating && s.b.e.fatal == OK
      && |s.a.past.written| - |s.b.past.read| <= cb.rxSize <= size
    ensures Run(ca, cb, steps + [Step(false, CollectTurn)] + [Step(false, ReadBytes(size))]).b.past.read
      == Run(ca, cb, steps).a.past.written
  {
    hide Flatten, Run, Act, AllArrived;
    var mid := steps + [Step(false, CollectTurn)];
    assert (mid + [Step(false, ReadBytes(size))])[..|mid|] == mid;
    AllCollected(ca, cb, steps);
    LastRead(ca, cb, mid, size);
  }

  /** One half turn brings everything that has arrived into the ring. */
  lemma AllCollected(ca: Config, cb: Config, steps: seq<Step>)
    requires Admitted(ca) && Admitted(cb) && ca.mtu - OVERHEAD <= cb.mtu
    requires var s := Run(ca, cb, steps);
      && s.a.e.fatal == OK && s.a.e.tx == [] && AllArrived(s.ab)
      && s.b.e.phase == Updating && s.b.e.fatal == OK && |s.a.past.written| - |s.b.past.read| <= cb.rxSize
    ensures var s, t := Run(ca, cb, steps), Run(ca, cb, steps + [Step(false, CollectTurn)]);
      t.b.past.read + t.b.e.rx == s.a.past.written && |t.b.e.rx| <= cb.rxSize
  {
    hide Flatten, DrainRx, Act;
    var s, t := Run(ca, cb, steps), Run(ca, cb, steps + [Step(false, CollectTurn)]);
    RunKeeps(ca, cb, steps);
    RunKeeps(ca, cb, steps + [Step(false, CollectTurn)]);
    RunSized(ca, cb, steps);
    CollectLeavesNothing(ca, cb, steps);
    CollectHealthy(ca, cb, steps);
    assert Flatten(s.ab.sent) + [] == Flatten(s.ab.sent);
    var k := t.ab.received;
    RestOfFlatten(s.ab.sent, k);
    RestFits(cb, t.b.e, t.ab);
    assert t.ab.sent[..k] == t.ab.sent;
  }

  /** Messages of the peer's segment size never fail an end that takes them. */
  lemma CollectHealthy(ca: Config, cb: Config, steps: seq<Step>)
    requires Admitted(ca) && Admitted(cb) && ca.mtu - OVERHEAD <= cb.mtu
    requires var s := Run(ca, cb, steps); s.b.e.phase == Updating && s.b.e.fatal == OK
    ensures var s, t := Run(ca, cb, steps), Run(ca, cb, steps + [Step(false, CollectTurn)]);
      t.b.e.fatal == OK && t.b.past == s.b.past
  {
    hide Flatten, DrainRx;
    var s := Run(ca, cb, steps);
    assert (steps + [Step(false, CollectTurn)])[..|steps|] == steps;
    RunKeeps(ca, cb, steps);
    RunSized(ca, cb, steps);
    DrainRxMaximal(cb, s.b.e, s.ab);
    assert forall i :: 0 <= i < |s.ab.sent| ==> Sized(ca, s.ab.sent[i]);
  }

  /** A read of at least the ring's size empties the ring. */
  lemma LastRead(ca: Config, cb: Config, steps: seq<Step>, size: nat)
    requires Admitted(ca) && Admitted(cb) && |Run(ca, cb, steps).b.e.rx| <= cb.rxSize <= size
    ensures var s, t := Run(ca, cb, steps), Run(ca, cb, steps + [Step(false, ReadBytes(size))]);
      t.b.past.read == s.b.past.read + s.b.e.rx
  {
    var e := Run(ca, cb, steps).b.e;
    assert (steps + [Step(false, ReadBytes(size))])[..|steps|] == steps;
    assert e.rx[..|e.rx|] == e.rx;
  }

  lemma RestOfFlatten(sent: seq<seq<byte>>, k: nat)
    requires k <= |sent|
    ensures Flatten(sent) == Flatten(sent[..k]) + Flatten(sent[k..])
  {
    assert sent == sent[..k] + sent[k..];
    FlattenConcat(sent[..k], sent[k..]);
  }
}
