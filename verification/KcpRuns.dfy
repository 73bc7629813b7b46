/** Two stream ends joined by KCP, under every interleaving of writers, readers, the two
    workers, disconnects and a network that loses, repeats and reorders datagrams. */
module KcpRuns {
  import opened Bytes
  import opened KcpStream

  /** Everything accepted by write and returned by read so far, and whether a message
      was taken off the ring and then refused by KCP. */
  datatype Past = Past(written: seq<byte>, read: seq<byte>, lost: bool)

  datatype Side = Side(e: End, past: Past)

  datatype System = System(a: Side, b: Side, ab: Wire, ba: Wire)

  const START := System(Side(FRESH, Past([], [], false)), Side(FRESH, Past([], [], false)), QUIET, QUIET)

  datatype Action =
    | WriteBytes(data: seq<byte>) | ReadBytes(size: nat) | Deliver(frame: Frame)
    | PollTurn(budget: nat) | OutputFails(code: int) | CollectTurn | Closed(status: int)

  /** The set of messages a peer can have sent, or acknowledged, by now. */
  predicate Plausible(frame: Frame, out: Wire, inn: Wire) {
    frame.Frame? ==> frame.acks <= out.arrived && (forall i :: i in frame.data ==> i < |inn.sent|)
  }

  function Act(cfg: Config, me: Side, out: Wire, inn: Wire, action: Action): (Side, Wire, Wire)
    requires Admitted(cfg)
  {
    match action
    case WriteBytes(data) =>
      var (e, outcome) := Write(cfg, me.e, data);
      (Side(e, if outcome == Returned(OK) then me.past.(written := me.past.written + data) else me.past), out, inn)
    case ReadBytes(size) =>
      var (e, data, _) := Read(me.e, size);
      (Side(e, me.past.(read := me.past.read + data)), out, inn)
    case Deliver(frame) =>
      if Plausible(frame, out, inn) then (me.(e := Receive(cfg, me.e, frame)), out, inn) else (me, out, inn)
    case PollTurn(budget) =>
      if me.e.phase != Polling then (me, out, inn) else
      var (e, out', inn', lost) := Poll(cfg, me.e, out, inn, budget);
      (Side(e, me.past.(lost := me.past.lost || lost)), out', inn')
    case OutputFails(code) =>
      if me.e.phase == Updating && code != OK then (me.(e := me.e.(fatal := code)), out, inn) else (me, out, inn)
    case CollectTurn =>
      if me.e.phase != Updating then (me, out, inn) else
      var (e, inn') := Collect(cfg, me.e, out, inn);
      (me.(e := e), out, inn')
    case Closed(status) => (me.(e := MarkClosed(me.e, status)), out, inn)
  }

  datatype Step = Step(left: bool, action: Action)

  function Next(ca: Config, cb: Config, s: System, step: Step): System
    requires Admitted(ca) && Admitted(cb)
  {
    if step.left then
      var (a, ab, ba) := Act(ca, s.a, s.ab, s.ba, step.action);
      System(a, s.b, ab, ba)
    else
      var (b, ba, ab) := Act(cb, s.b, s.ba, s.ab, step.action);
      System(s.a, b, ab, ba)
  }

  function Run(ca: Config, cb: Config, steps: seq<Step>): System
    requires Admitted(ca) && Admitted(cb)
  {
    if steps == [] then START else Next(ca, cb, Run(ca, cb, steps[..|steps| - 1]), steps[|steps| - 1])
  }

  // ---- what holds of one direction ----

  /** What the sending side keeps. */
  predicate SendOk(cfg: Config, src: Side, w: Wire) {
    && Flatten(w.sent) <= src.past.written
    && (!src.past.lost ==> src.past.written == Flatten(w.sent) + src.e.tx)
    && (src.past.lost ==> src.e.fatal != OK && src.e.phase != Polling)
    && src.e.waitsnd == w.Outstanding() <= cfg.sendWindow
    && |src.e.tx| <= cfg.txSize
    && (src.e.phase == Polling && src.e.fatal != OK ==> src.e.closing)
  }

  predicate ReceiveOk(cfg: Config, w: Wire, dst: Side) {
    && w.received <= |w.sent|
    && dst.past.read + dst.e.rx == Flatten(w.sent[..w.received])
    && |dst.e.rx| <= cfg.rxSize
  }

  predicate WireOk(w: Wire) {
    w.acked <= w.arrived && (forall i :: i in w.arrived ==> i < |w.sent|)
  }

  ghost predicate Acknowledges(frames: seq<Frame>, w: Wire) {
    forall i :: 0 <= i < |frames| && frames[i].Frame? ==> frames[i].acks <= w.arrived
  }

  ghost predicate Carries(frames: seq<Frame>, w: Wire) {
    forall i, m :: 0 <= i < |frames| && frames[i].Frame? && m in frames[i].data ==> m < |w.sent|
  }

  ghost predicate Direction(cs: Config, src: Side, w: Wire, cd: Config, dst: Side) {
    && SendOk(cs, src, w) && ReceiveOk(cd, w, dst) && WireOk(w)
    && Acknowledges(src.e.input, w) && Carries(dst.e.input, w)
  }

  // ---- the three drain loops ----

  lemma {:induction false} DrainInputKeeps(e: End, out: Wire, inn: Wire)
    requires WireOk(out) && WireOk(inn) && Acknowledges(e.input, out) && Carries(e.input, inn)
    ensures var (e', out', inn') := DrainInput(e, out, inn);
      && WireOk(out') && WireOk(inn') && Acknowledges(e'.input, out') && Carries(e'.input, inn')
      && out.acked <= out'.acked && inn.arrived <= inn'.arrived
    decreases |e.input|
  {
    if e.input != [] && e.fatal == OK && e.input[0].Frame? {
      var (data, acks) := (e.input[0].data, e.input[0].acks);
      var rest := e.(input := e.input[1..]);
      forall i | 0 <= i < |rest.input| ensures rest.input[i] == e.input[i + 1] {}
      DrainInputKeeps(rest, out.(acked := out.acked + acks), inn.(arrived := inn.arrived + data));
    }
  }

  lemma CutAgain(a: seq<byte>, b: seq<byte>, n: nat)
    requires n <= |b|
    ensures a + b == (a + b[..n]) + b[n..]
  {
  }

  lemma {:induction false} DrainTxKeeps(cfg: Config, e: End, out: Wire, budget: nat, written: seq<byte>)
    requires Admitted(cfg) && written == Flatten(out.sent) + e.tx && out.Outstanding() <= cfg.sendWindow
    ensures var (e', out', lost) := DrainTx(cfg, e, out, budget);
      && Flatten(out'.sent) <= written
      && (!lost ==> written == Flatten(out'.sent) + e'.tx)
      && out'.Outstanding() <= cfg.sendWindow
      && |e'.tx| <= |e.tx| && |out.sent| <= |out'.sent|
    decreases |e.tx|
  {
    hide Flatten;
    if e.tx != [] && out.Outstanding() < cfg.sendWindow && budget > 0 {
      var n := if |e.tx| < cfg.mtu - OVERHEAD then |e.tx| else cfg.mtu - OVERHEAD;
      var out' := out.(sent := out.sent + [e.tx[..n]]);
      FlattenSnoc(out.sent, e.tx[..n]);
      CutAgain(Flatten(out.sent), e.tx, n);
      DrainTxKeeps(cfg, e.(tx := e.tx[n..]), out', budget - 1, written);
    }
  }

  lemma {:induction false} DrainRxKeeps(cfg: Config, e: End, inn: Wire, read: seq<byte>)
    requires inn.received <= |inn.sent| && |e.rx| <= cfg.rxSize
    requires read + e.rx == Flatten(inn.sent[..inn.received])
    ensures var (e', inn') := DrainRx(cfg, e, inn);
      && inn'.received <= |inn.sent| && |e'.rx| <= cfg.rxSize
      && read + e'.rx == Flatten(inn.sent[..inn'.received])
    decreases |inn.sent| - inn.received
  {
    if e.fatal == OK && inn.Ready() && |inn.sent[inn.received]| <= cfg.rxSize - |e.rx| {
      var message := inn.sent[inn.received];
      if |message| <= cfg.mtu {
        FlattenSnoc(inn.sent[..inn.received], message);
        assert inn.sent[..inn.received] + [message] == inn.sent[..inn.received + 1];
        assert read + (e.rx + message) == read + e.rx + message;
        DrainRxKeeps(cfg, e.(rx := e.rx + message), inn.(received := inn.received + 1), read);
      }
    }
  }

  // ---- sizes of acknowledgement sets ----

  lemma {:induction false} SubsetSize(a: set<nat>, b: set<nat>)
    requires a <= b
    ensures |a| <= |b|
    decreases |a|
  {
    if a != {} {
      var x :| x in a;
      SubsetSize(a - {x}, b - {x});
    }
  }

  function Below(n: nat): (r: set<nat>)
    ensures forall i: nat :: i in r <==> i < n
  {
    if n == 0 then {} else Below(n - 1) + {n - 1}
  }

  lemma {:induction false} BelowSize(n: nat)
    ensures |Below(n)| == n
  {
    if n > 0 {
      BelowSize(n - 1);
      Grown(Below(n - 1), n - 1);
    }
  }

  lemma Grown(s: set<nat>, x: nat)
    requires x !in s
    ensures |s + {x}| == |s| + 1
  {
  }

  /** All messages are acknowledged as soon as as many are. */
  lemma AllAcknowledged(w: Wire)
    requires WireOk(w)
    ensures w.Outstanding() >= 0
    ensures w.Outstanding() == 0 ==> w.acked == Below(|w.sent|)
  {
    BelowSize(|w.sent|);
    assert w.acked <= Below(|w.sent|);
    SubsetSize(w.acked, Below(|w.sent|));
    if w.Outstanding() == 0 && w.acked != Below(|w.sent|) {
      var missing :| missing in Below(|w.sent|) && missing !in w.acked;
      SubsetSize(w.acked, Below(|w.sent|) - {missing});
      assert false;
    }
  }

  // ---- every action keeps both directions ----

  lemma PollSends(cfg: Config, me: Side, out: Wire, inn: Wire, budget: nat, cp: Config, peer: Side)
    requires Admitted(cfg) && me.e.phase == Polling
    requires Direction(cfg, me, out, cp, peer) && WireOk(inn) && Carries(me.e.input, inn)
    ensures var (me', out', _) := Act(cfg, me, out, inn, PollTurn(budget)); Direction(cfg, me', out', cp, peer)
  {
    if !me.e.closing {
      hide DrainTx, DrainInput;
      DrainInputKeeps(me.e, out, inn);
      var (e1, out1, _) := DrainInput(me.e, out, inn);
      SubsetSize(out.acked, out1.acked);
      DrainTxKeeps(cfg, e1, out1, budget, me.past.written);
      var (e2, out2, lost) := DrainTx(cfg, e1, out1, budget);
      DrainTxExtends(cfg, e1, out1, budget);
      assert out2.sent[..out.received] == out.sent[..out.received];
    }
  }

  lemma {:induction false} DrainTxExtends(cfg: Config, e: End, out: Wire, budget: nat)
    requires Admitted(cfg)
    ensures out.sent <= DrainTx(cfg, e, out, budget).1.sent
    decreases |e.tx|
  {
    if e.tx != [] && out.Outstanding() < cfg.sendWindow && budget > 0 {
      var n := if |e.tx| < cfg.mtu - OVERHEAD then |e.tx| else cfg.mtu - OVERHEAD;
      DrainTxExtends(cfg, e.(tx := e.tx[n..]), out.(sent := out.sent + [e.tx[..n]]), budget - 1);
    }
  }

  lemma PollReceives(cfg: Config, me: Side, out: Wire, inn: Wire, budget: nat, cp: Config, peer: Side)
    requires Admitted(cfg) && me.e.phase == Polling
    requires Direction(cp, peer, inn, cfg, me) && WireOk(out) && Acknowledges(me.e.input, out)
    ensures var (me', _, inn') := Act(cfg, me, out, inn, PollTurn(budget)); Direction(cp, peer, inn', cfg, me')
  {
    if !me.e.closing {
      hide DrainTx, DrainInput;
      DrainInputKeeps(me.e, out, inn);
    }
  }

  lemma CollectKeeps(cfg: Config, me: Side, out: Wire, inn: Wire, cp: Config, peer: Side)
    requires Admitted(cfg) && me.e.phase == Updating
    requires Direction(cfg, me, out, cp, peer) && Direction(cp, peer, inn, cfg, me)
    ensures var (me', out', inn') := Act(cfg, me, out, inn, CollectTurn);
      Direction(cfg, me', out', cp, peer) && Direction(cp, peer, inn', cfg, me')
  {
    hide DrainRx, Flatten;
    DrainRxKeeps(cfg, me.e, inn, me.past.read);
  }

  lemma UserKeeps(cfg: Config, me: Side, out: Wire, inn: Wire, action: Action, cp: Config, peer: Side)
    requires Admitted(cfg) && !action.PollTurn? && !action.CollectTurn?
    requires Direction(cfg, me, out, cp, peer) && Direction(cp, peer, inn, cfg, me)
    ensures var (me', out', inn') := Act(cfg, me, out, inn, action);
      Direction(cfg, me', out', cp, peer) && Direction(cp, peer, inn', cfg, me')
  {
    hide Flatten;
    match action
    case WriteBytes(data) =>
      assert Flatten(out.sent) + (me.e.tx + data) == Flatten(out.sent) + me.e.tx + data;
    case ReadBytes(size) =>
      if size > 0 && me.e.rx != [] {
        var n := if |me.e.rx| < size then |me.e.rx| else size;
        assert me.past.read + me.e.rx[..n] + me.e.rx[n..] == me.past.read + me.e.rx;
      } else {
        assert me.past.read + [] == me.past.read;
      }
    case Deliver(frame) =>
    case _ =>
  }

  lemma ActKeeps(cfg: Config, me: Side, out: Wire, inn: Wire, action: Action, cp: Config, peer: Side)
    requires Admitted(cfg)
    requires Direction(cfg, me, out, cp, peer) && Direction(cp, peer, inn, cfg, me)
    ensures var (me', out', inn') := Act(cfg, me, out, inn, action);
      Direction(cfg, me', out', cp, peer) && Direction(cp, peer, inn', cfg, me')
  {
    if action.PollTurn? {
      if me.e.phase == Polling {
        PollSends(cfg, me, out, inn, action.budget, cp, peer);
        PollReceives(cfg, me, out, inn, action.budget, cp, peer);
      }
    } else if action.CollectTurn? {
      if me.e.phase == Updating { CollectKeeps(cfg, me, out, inn, cp, peer); }
    } else {
      UserKeeps(cfg, me, out, inn, action, cp, peer);
    }
  }

  ghost predicate SystemOk(ca: Config, cb: Config, s: System) {
    Direction(ca, s.a, s.ab, cb, s.b) && Direction(cb, s.b, s.ba, ca, s.a)
  }

  lemma {:induction false} RunKeeps(ca: Config, cb: Config, steps: seq<Step>)
    requires Admitted(ca) && Admitted(cb)
    ensures SystemOk(ca, cb, Run(ca, cb, steps))
  {
    if steps != [] {
      hide Act, Direction;
      var before := steps[..|steps| - 1];
      RunKeeps(ca, cb, before);
      var s, step := Run(ca, cb, before), steps[|steps| - 1];
      if step.left {
        ActKeeps(ca, s.a, s.ab, s.ba, step.action, cb, s.b);
      } else {
        ActKeeps(cb, s.b, s.ba, s.ab, step.action, ca, s.a);
      }
    }
  }

  /** In every run, for the side that writes and the side that reads: without a fatal
      status, what write accepted is what KCP was given followed by the ring; the send
      window bounds the outstanding messages; and what was read is a prefix of what was
      written. */
  lemma StreamDelivers(ca: Config, cb: Config, steps: seq<Step>)
    requires Admitted(ca) && Admitted(cb)
    ensures var s := Run(ca, cb, steps);
      && (s.a.e.fatal == OK ==> s.a.past.written == Flatten(s.ab.sent) + s.a.e.tx)
      && 0 <= s.ab.Outstanding() <= ca.sendWindow
      && s.b.past.read <= s.a.past.written
      && (s.b.e.fatal == OK ==> s.b.past.written == Flatten(s.ba.sent) + s.b.e.tx)
      && 0 <= s.ba.Outstanding() <= cb.sendWindow
      && s.a.past.read <= s.b.past.written
  {
    var s := Run(ca, cb, steps);
    RunKeeps(ca, cb, steps);
    AllAcknowledged(s.ab);
    AllAcknowledged(s.ba);
    FlattenPrefix(s.ab.sent, s.ab.received);
    FlattenPrefix(s.ba.sent, s.ba.received);
    PrefixOfPrefix(s.b.past.read, s.b.e.rx, Flatten(s.ab.sent), s.a.past.written);
    PrefixOfPrefix(s.a.past.read, s.a.e.rx, Flatten(s.ba.sent), s.b.past.written);
  }

  lemma PrefixOfPrefix(a: seq<byte>, more: seq<byte>, b: seq<byte>, c: seq<byte>)
    requires a + more <= b <= c
    ensures a <= c
  {
    assert (a + more)[..|a|] == a;
  }

  /** A flush that returns OK: every byte write ever accepted has been handed over,
      has arrived at the peer and was acknowledged. */
  lemma FlushMeansAcknowledged(ca: Config, cb: Config, steps: seq<Step>)
    requires Admitted(ca) && Admitted(cb) && Flush(Run(ca, cb, steps).a.e) == Returned(OK)
    ensures var s := Run(ca, cb, steps);
      && s.a.past.written == Flatten(s.ab.sent)
      && (forall i :: 0 <= i < |s.ab.sent| ==> i in s.ab.acked && i in s.ab.arrived)
  {
    var s := Run(ca, cb, steps);
    RunKeeps(ca, cb, steps);
    AllAcknowledged(s.ab);
    assert Flatten(s.ab.sent) + [] == Flatten(s.ab.sent);
    forall i | 0 <= i < |s.ab.sent| ensures i in s.ab.acked {
      assert i in Below(|s.ab.sent|);
    }
  }

  /** Without a fatal status and with nothing left in the ring or outstanding, flush
      does return OK, closing or not. */
  lemma FlushReturnsWhenAcknowledged(ca: Config, cb: Config, steps: seq<Step>)
    requires Admitted(ca) && Admitted(cb)
    requires var s := Run(ca, cb, steps); s.a.e.fatal == OK && s.a.e.tx == [] && s.ab.acked == Below(|s.ab.sent|)
    ensures Flush(Run(ca, cb, steps).a.e) == Returned(OK)
  {
    RunKeeps(ca, cb, steps);
    BelowSize(|Run(ca, cb, steps).ab.sent|);
  }
}
