/** The drain protocol of one track with one producer: markers travel through the PCM
    queue in order, acknowledgements come back through a queue of one. */
module MixerDrain {
  datatype Item = Pcm(frame: nat) | Marker(sequence: nat)

  /** A drain that returned OK, with how many items were queued before its marker. */
  datatype Drained = Drained(before: nat)

  datatype Producer = Ready | Draining(sequence: nat, before: nat)

  /** `queued`: every item ever sent, of which the first `mixed` were taken by the mixer. */
  datatype State = State(
    queued: seq<Item>, mixed: nat, acks: seq<nat>, sequence: nat, producer: Producer, drained: seq<Drained>)

  const START := State([], 0, [], 0, Ready, [])

  datatype Step =
    | Write(frame: nat)
    | Drain
    | TakeAck
    | GiveUp
    | Mix(replace: bool)

  /** The items in the PCM queue. */
  function Waiting(st: State): seq<Item>
    requires st.mixed <= |st.queued|
  {
    st.queued[st.mixed..]
  }

  /** send_latest on a full queue of one: the platform replaces the item or refuses. */
  function SendLatest(acks: seq<nat>, ack: nat, replace: bool): seq<nat> {
    if acks == [] || replace then [ack] else acks
  }

  /** A full PCM queue makes a send time out; a closed one is indistinguishable here. */
  function Next(capacity: nat, st: State, step: Step): State {
    if st.mixed > |st.queued| then st else
    var full := |Waiting(st)| >= capacity;
    match step
    case Write(frame) => if st.producer.Ready? && !full then st.(queued := st.queued + [Pcm(frame)]) else st
    case Drain =>
      if !st.producer.Ready? then st
      else if full then st.(sequence := st.sequence + 1)
      else st.(sequence := st.sequence + 1, queued := st.queued + [Marker(st.sequence + 1)],
               producer := Draining(st.sequence + 1, |st.queued|))
    case TakeAck =>
      if !st.producer.Draining? || st.acks == [] then st
      else if st.acks[0] == st.producer.sequence then
        st.(acks := st.acks[1..], producer := Ready, drained := st.drained + [Drained(st.producer.before)])
      else st.(acks := st.acks[1..])
    case GiveUp => st.(producer := Ready)
    case Mix(replace) =>
      if Waiting(st) == [] then st else
      match st.queued[st.mixed]
      case Pcm(_) => st.(mixed := st.mixed + 1)
      case Marker(sequence) => st.(mixed := st.mixed + 1, acks := SendLatest(st.acks, sequence, replace))
  }

  function Run(capacity: nat, steps: seq<Step>): State {
    if steps == [] then START else Next(capacity, Run(capacity, steps[..|steps| - 1]), steps[|steps| - 1])
  }

  /** Markers carry their own, increasing numbers. */
  ghost predicate MarkersOk(queued: seq<Item>, sequence: nat) {
    && (forall i :: 0 <= i < |queued| && queued[i].Marker? ==> queued[i].sequence <= sequence)
    && (forall i, j :: 0 <= i < j < |queued| && queued[i].Marker? && queued[j].Marker? ==>
          queued[i].sequence < queued[j].sequence)
  }

  /** An acknowledgement in the queue is for a marker the mixer has taken. */
  ghost predicate AckOk(st: State, ack: nat) {
    exists i :: 0 <= i < st.mixed <= |st.queued| && st.queued[i] == Marker(ack)
  }

  predicate ProducerOk(st: State) {
    var p := st.producer;
    p.Draining? ==> p.before < |st.queued| && st.queued[p.before] == Marker(p.sequence)
  }

  ghost predicate Ok(st: State) {
    && st.mixed <= |st.queued| && MarkersOk(st.queued, st.sequence)
    && (forall k :: 0 <= k < |st.acks| ==> AckOk(st, st.acks[k]))
    && ProducerOk(st)
    && (forall k :: 0 <= k < |st.drained| ==> st.drained[k].before < st.mixed)
  }

  lemma AckStays(a: State, b: State, ack: nat)
    requires AckOk(a, ack) && a.queued <= b.queued && a.mixed <= b.mixed <= |b.queued|
    ensures AckOk(b, ack)
  {
    var i :| 0 <= i < a.mixed <= |a.queued| && a.queued[i] == Marker(ack);
    assert b.queued[i] == Marker(ack);
  }

  lemma MixKeeps(st: State, capacity: nat, replace: bool)
    requires Ok(st)
    ensures Ok(Next(capacity, st, Mix(replace)))
  {
    var next := Next(capacity, st, Mix(replace));
    forall k | 0 <= k < |next.acks| ensures AckOk(next, next.acks[k]) {
      if k < |st.acks| && next.acks[k] == st.acks[k] {
        AckStays(st, next, st.acks[k]);
      } else {
        assert next.queued[st.mixed] == Marker(next.acks[k]);
      }
    }
  }

  lemma TakeAckKeeps(st: State, capacity: nat)
    requires Ok(st)
    ensures Ok(Next(capacity, st, TakeAck))
  {
    var next := Next(capacity, st, TakeAck);
    if st.producer.Draining? && st.acks != [] {
      var ack := st.acks[0];
      assert AckOk(st, ack);
      if ack == st.producer.sequence {
        var i :| 0 <= i < st.mixed && st.queued[i] == Marker(ack);
        assert i == st.producer.before;
      }
      forall k | 0 <= k < |next.acks| ensures AckOk(next, next.acks[k]) { AckStays(st, next, st.acks[k + 1]); }
    }
  }

  lemma SendKeeps(st: State, capacity: nat, step: Step)
    requires Ok(st) && (step.Write? || step.Drain?)
    ensures Ok(Next(capacity, st, step))
  {
    var next := Next(capacity, st, step);
    forall k | 0 <= k < |next.acks| ensures AckOk(next, next.acks[k]) { AckStays(st, next, st.acks[k]); }
  }

  lemma {:induction false} RunKeeps(capacity: nat, steps: seq<Step>)
    ensures Ok(Run(capacity, steps))
  {
    if steps == [] {
      assert Run(capacity, steps) == START;
    } else {
      var before, step := steps[..|steps| - 1], steps[|steps| - 1];
      RunKeeps(capacity, before);
      var st := Run(capacity, before);
      match step
      case Write(_) => SendKeeps(st, capacity, step);
      case Drain => SendKeeps(st, capacity, step);
      case TakeAck => TakeAckKeeps(st, capacity);
      case GiveUp => assert forall k :: 0 <= k < |st.acks| ==> AckOk(st, st.acks[k]) ==> AckOk(st.(producer := Ready), st.acks[k]);
      case Mix(replace) => MixKeeps(st, capacity, replace);
    }
  }

  /** A drain is under way from after its `i`-th step up to the `j`-th. */
  ghost predicate DrainingFrom(capacity: nat, steps: seq<Step>, i: nat, j: nat)
    requires i < j <= |steps|
  {
    forall k :: i < k <= j ==> Run(capacity, steps[..k]).producer.Draining?
  }

  lemma DrainBegins(capacity: nat, st: State)
    requires st.producer.Ready? && Next(capacity, st, Drain).producer.Draining?
    ensures var next := Next(capacity, st, Drain);
      next.producer.before == |st.queued| && st.queued <= next.queued
  {
  }

  lemma DrainGoesOn(capacity: nat, st: State, step: Step)
    requires st.producer.Draining? && Next(capacity, st, step).producer.Draining?
    ensures var next := Next(capacity, st, step); next.producer == st.producer && st.queued <= next.queued
  {
  }

  lemma DrainReturns(capacity: nat, st: State)
    requires Ok(st) && st.producer.Draining? && Next(capacity, st, TakeAck).producer.Ready?
    ensures var next := Next(capacity, st, TakeAck);
      next.queued == st.queued && st.producer.before < next.mixed <= |next.queued|
  {
    TakeAckKeeps(st, capacity);
    var next := Next(capacity, st, TakeAck);
    assert next.drained[|st.drained|] == Drained(st.producer.before);
  }

  lemma {:induction false} DrainStaysPut(capacity: nat, steps: seq<Step>, i: nat, j: nat)
    requires i < j <= |steps| && steps[i] == Drain && Run(capacity, steps[..i]).producer.Ready?
    requires DrainingFrom(capacity, steps, i, j)
    ensures Run(capacity, steps[..j]).producer.Draining?
    ensures Run(capacity, steps[..j]).producer.before == |Run(capacity, steps[..i]).queued|
    ensures Run(capacity, steps[..i]).queued <= Run(capacity, steps[..j]).queued
    decreases j
  {
    hide Next;
    RunOnce(capacity, steps, j - 1);
    hide Run;
    var st := Run(capacity, steps[..j - 1]);
    assert Run(capacity, steps[..j]).producer.Draining?;
    if j == i + 1 {
      DrainBegins(capacity, st);
    } else {
      DrainStaysPut(capacity, steps, i, j - 1);
      DrainGoesOn(capacity, st, steps[j - 1]);
    }
  }

  lemma RunOnce(capacity: nat, steps: seq<Step>, j: nat)
    requires j < |steps|
    ensures Run(capacity, steps[..j + 1]) == Next(capacity, Run(capacity, steps[..j]), steps[j])
  {
    assert steps[..j + 1][..j] == steps[..j];
  }

  /** A drain that returns OK at step `j`: everything its producer had queued when it was
      called at step `i` has been taken by the mixer, whatever stale acknowledgements
      earlier drains left behind. */
  lemma DrainMeansMixed(capacity: nat, steps: seq<Step>, i: nat, j: nat)
    requires i < j < |steps| && steps[i] == Drain && Run(capacity, steps[..i]).producer.Ready?
    requires DrainingFrom(capacity, steps, i, j)
    requires steps[j] == TakeAck && Run(capacity, steps[..j + 1]).producer.Ready?
    ensures var called, done := Run(capacity, steps[..i]), Run(capacity, steps[..j + 1]);
      called.queued <= done.queued && |called.queued| < done.mixed <= |done.queued|
  {
    hide Next, Run, Ok;
    DrainStaysPut(capacity, steps, i, j);
    RunOnce(capacity, steps, j);
    RunKeeps(capacity, steps[..j]);
    DrainReturns(capacity, Run(capacity, steps[..j]));
  }

  // ---- a drain the mixer keeps up with returns ----

  /** While a drain is under way its marker is the last item queued. */
  predicate MarkerLast(st: State) { st.producer.Draining? ==> st.producer.before + 1 == |st.queued| }

  lemma {:induction false} RunKeepsLast(capacity: nat, steps: seq<Step>)
    ensures MarkerLast(Run(capacity, steps))
  {
    if steps != [] { RunKeepsLast(capacity, steps[..|steps| - 1]); }
  }

  lemma RunOn(capacity: nat, before: seq<Step>, step: Step)
    ensures Run(capacity, before + [step]) == Next(capacity, Run(capacity, before), step)
  {
    hide Next;
    assert (before + [step])[..|before|] == before;
  }

  function Mixes(n: nat): (steps: seq<Step>)
    ensures |steps| == n && forall i :: 0 <= i < n ==> steps[i] == Mix(true)
  {
    seq(n, _ => Mix(true))
  }

  /** Mixing takes the waiting items one by one in order; the last marker among them is the
      acknowledgement that is left. */
  lemma {:induction false} MixesTake(capacity: nat, steps: seq<Step>, n: nat)
    requires n <= |Run(capacity, steps).queued| - Run(capacity, steps).mixed
    ensures var st, end := Run(capacity, steps), Run(capacity, steps + Mixes(n));
      && end == st.(mixed := st.mixed + n, acks := end.acks)
      && (n > 0 && end.queued[end.mixed - 1].Marker? ==> end.acks == [end.queued[end.mixed - 1].sequence])
  {
    hide Next, Run;
    if n == 0 {
      assert steps + Mixes(0) == steps;
    } else {
      MixesTake(capacity, steps, n - 1);
      assert steps + Mixes(n) == steps + Mixes(n - 1) + [Mix(true)];
      RunOn(capacity, steps + Mixes(n - 1), Mix(true));
      MixTakes(capacity, Run(capacity, steps + Mixes(n - 1)));
    }
  }

  lemma MixTakes(capacity: nat, st: State)
    requires st.mixed < |st.queued|
    ensures var next, item := Next(capacity, st, Mix(true)), st.queued[st.mixed];
      next == st.(mixed := st.mixed + 1, acks := if item.Marker? then [item.sequence] else st.acks)
  {
    assert Waiting(st)[0] == st.queued[st.mixed];
  }

  /** Once the mixer has taken everything up to its marker, the drain returns OK. */
  lemma DrainCompletes(capacity: nat, steps: seq<Step>)
    requires var st := Run(capacity, steps); st.producer.Draining? && st.mixed <= st.producer.before
    ensures var st := Run(capacity, steps);
      var n := st.producer.before + 1 - st.mixed;
      var end := Run(capacity, steps + Mixes(n) + [TakeAck]);
      end.producer.Ready? && end.drained == st.drained + [Drained(st.producer.before)] && end.acks == []
  {
    hide Next, Run, MarkersOk, AckOk;
    var st := Run(capacity, steps);
    var n := st.producer.before + 1 - st.mixed;
    RunKeeps(capacity, steps);
    RunKeepsLast(capacity, steps);
    MixesTake(capacity, steps, n);
    RunOn(capacity, steps + Mixes(n), TakeAck);
    OwnAckTaken(capacity, Run(capacity, steps + Mixes(n)));
  }

  lemma OwnAckTaken(capacity: nat, st: State)
    requires st.producer.Draining? && st.acks == [st.producer.sequence] && st.mixed <= |st.queued|
    ensures Next(capacity, st, TakeAck)
      == st.(acks := [], producer := Ready, drained := st.drained + [Drained(st.producer.before)])
  {
    assert st.acks[1..] == [];
  }
}
