/** The BLE-KCP server: Host callbacks, the dispatch task that runs one session after
    another, and close, interleaved wherever the server mutex is free. The model starts
    when open has succeeded. */
module KcpServer {
  import opened Optional

  const INVALID: nat := 0xffff
  /** H2_BLEIKCP_MIN_ATT_MTU. */
  const MIN_MTU: nat := 53

  datatype Server = Server(
    conn: nat, mtu: nat, subscribed: bool, pending: bool, connectedEvent: bool, protocolError: bool,
    handling: bool, closing: bool, disconnected: bool, active: Option<nat>)

  const OPENED := Server(INVALID, 0, false, false, false, false, false, false, false, None)

  // ---- critical sections ----

  function SignalIfReady(s: Server): Server {
    if !s.closing && !s.handling && !s.pending && s.conn != INVALID && s.mtu >= MIN_MTU && s.subscribed
    then s.(pending := true) else s
  }

  function OnConnected(s: Server, peripheral: bool, handle: nat, mtu: nat): Server {
    if !peripheral || s.conn != INVALID then s else
    SignalIfReady(s.(conn := handle, mtu := mtu, subscribed := false, disconnected := false, connectedEvent := true))
  }

  function OnMtuChanged(s: Server, handle: nat, mtu: nat): Server {
    if handle != s.conn then s else SignalIfReady(s.(mtu := mtu))
  }

  /** A change of the tx characteristic's subscription; `notify`: enabled, and by notification. */
  function OnSubscription(s: Server, handle: nat, notify: bool): Server {
    if handle != s.conn then s
    else if !notify then SignalIfReady(s.(subscribed := false, pending := false))
    else SignalIfReady(s.(subscribed := true, protocolError := s.protocolError || s.mtu < MIN_MTU))
  }

  function OnDisconnected(s: Server, handle: nat): Server {
    if handle != s.conn then s else
    var t := s.(disconnected := true, pending := false, connectedEvent := false, protocolError := false, subscribed := false);
    if s.active.None? && !s.handling then t.(conn := INVALID, mtu := 0) else t
  }

  /** The head of the dispatch loop; true when a session starts. */
  function Take(s: Server): (Server, bool) {
    if s.closing then (s, false)
    else if s.connectedEvent || s.protocolError then (s.(connectedEvent := false, protocolError := false), false)
    else if s.pending then (s.(pending := false, handling := true), true)
    else (s, false)
  }

  /** The stream becomes reachable for callbacks; true when the handler is to run. */
  function Publish(s: Server, stream: nat, conn: nat): (Server, bool) {
    (s.(active := Some(stream)), !s.closing && s.conn == conn && !s.disconnected)
  }

  /** The end of a session, by whether its stream could be joined. */
  function Settle(s: Server, joined: bool): Server {
    if !joined then s.(closing := true, handling := false)
    else s.(active := None, handling := false, conn := INVALID, mtu := 0, subscribed := false, disconnected := false)
  }

  function Close(s: Server): Server { s.(closing := true, pending := false) }

  // ---- all threads together ----

  /** Where the dispatch task is. */
  datatype Dispatch =
    | Waiting
    | Creating(conn: nat)
    | Created(conn: nat, stream: nat)
    | Handling(conn: nat, stream: nat)
    | Joining(conn: nat, made: Option<nat>)
    | Destroying(stream: nat)
    | Exited

  datatype Closer = Open | Asked | Removing(stream: nat)

  datatype State = State(s: Server, dispatch: Dispatch, closer: Closer, alive: set<nat>, made: nat)

  const START := State(OPENED, Waiting, Open, {}, 0)

  datatype Created = NoStream | NotStarted | Started

  datatype Step =
    | Connected(peripheral: bool, handle: nat, mtu: nat)
    | MtuChanged(handle: nat, mtu: nat)
    | Subscription(handle: nat, notify: bool)
    | Disconnected(handle: nat)
    | RxWrite(handle: nat)
    | Loop | Create(outcome: Created) | PublishStream | HandlerReturns | JoinStream(ok: bool) | DestroyStream
    | CloseServer | CloseJoins(ok: bool) | CloseDestroys

  /** The stream a callback, or close, calls into under the server mutex. */
  function Reaches(st: State, step: Step): Option<nat> {
    match step
    case Subscription(handle, notify) => if handle == st.s.conn && !notify then st.s.active else None
    case Disconnected(handle) => if handle == st.s.conn then st.s.active else None
    case RxWrite(handle) => if handle == st.s.conn then st.s.active else None
    case CloseServer => st.s.active
    case _ => None
  }

  function DispatchStep(st: State, step: Step): State {
    match (st.dispatch, step)
    case (Waiting, Loop) =>
      var (s, go) := Take(st.s);
      if st.s.closing then st.(dispatch := Exited)
      else if go then st.(s := s, dispatch := Creating(st.s.conn))
      else st.(s := s)
    case (Creating(conn), Create(outcome)) =>
      if outcome.NoStream? then st.(dispatch := Joining(conn, None)) else
      var id := st.made;
      st.(alive := st.alive + {id}, made := id + 1,
          dispatch := if outcome.Started? then Dispatch.Created(conn, id) else Joining(conn, Some(id)))
    case (Created(conn, stream), PublishStream) =>
      var (s, run) := Publish(st.s, stream, conn);
      st.(s := s, dispatch := if run then Handling(conn, stream) else Joining(conn, Some(stream)))
    case (Handling(conn, stream), HandlerReturns) => st.(dispatch := Joining(conn, Some(stream)))
    case (Joining(conn, made), JoinStream(ok)) =>
      // a stream whose worker never started always joins
      var joined := ok || st.s.active.None?;
      st.(s := Settle(st.s, joined),
          dispatch := if !joined then Exited else if made.Some? then Destroying(made.value) else Waiting)
    case (Destroying(stream), DestroyStream) => st.(alive := st.alive - {stream}, dispatch := Waiting)
    case _ => st
  }

  function CloseStep(st: State, step: Step): State {
    match (st.closer, step)
    case (Open, CloseServer) => st.(s := Close(st.s), closer := Asked)
    case (Asked, CloseServer) => st.(s := Close(st.s))
    case (Asked, CloseJoins(ok)) =>
      if !st.dispatch.Exited? || !ok || st.s.active.None? then st
      else st.(s := st.s.(active := None), closer := Removing(st.s.active.value))
    case (Removing(stream), CloseDestroys) => st.(alive := st.alive - {stream}, closer := Asked)
    case _ => st
  }

  function Next(st: State, step: Step): State {
    match step
    case Connected(peripheral, handle, mtu) => st.(s := OnConnected(st.s, peripheral, handle, mtu))
    case MtuChanged(handle, mtu) => st.(s := OnMtuChanged(st.s, handle, mtu))
    case Subscription(handle, notify) => st.(s := OnSubscription(st.s, handle, notify))
    case Disconnected(handle) => st.(s := OnDisconnected(st.s, handle))
    case RxWrite(_) => st
    case CloseServer => CloseStep(st, step)
    case CloseJoins(_) => CloseStep(st, step)
    case CloseDestroys => CloseStep(st, step)
    case _ => DispatchStep(st, step)
  }

  function Run(steps: seq<Step>): State {
    if steps == [] then START else Next(Run(steps[..|steps| - 1]), steps[|steps| - 1])
  }

  // ---- the invariant ----

  predicate PendingOk(s: Server) {
    s.pending ==> s.conn != INVALID && s.subscribed && !s.handling && !s.closing
  }

  /** Everything a session needs is there. */
  predicate Ready(s: Server) {
    !s.closing && !s.handling && s.conn != INVALID && s.mtu >= MIN_MTU && s.subscribed
  }

  predicate SessionOk(st: State) {
    match st.dispatch
    case Waiting => !st.s.handling && st.s.active.None? && st.alive == {}
    case Creating(conn) => st.s.handling && st.s.conn == conn != INVALID && st.s.active.None? && st.alive == {}
    case Created(conn, id) => st.s.handling && st.s.conn == conn != INVALID && st.s.active.None? && st.alive == {id}
    case Handling(conn, id) => st.s.handling && st.s.conn == conn != INVALID && st.s.active == Some(id) && st.alive == {id}
    case Joining(conn, made) =>
      && st.s.handling && st.s.conn == conn != INVALID
      && (st.s.active.Some? ==> st.s.active == made)
      && st.alive == (if made.Some? then {made.value} else {})
    case Destroying(id) => !st.s.handling && st.s.active.None? && st.alive == {id}
    case Exited =>
      && !st.s.handling && st.s.closing
      && (match st.closer
          case Removing(id) => st.s.active.None? && st.alive == {id}
          case _ => st.alive == if st.s.active.Some? then {st.s.active.value} else {})
  }

  predicate Ok(st: State) {
    && PendingOk(st.s) && (Ready(st.s) ==> st.s.pending)
    && (!st.s.handling && !st.s.closing && st.s.conn != INVALID ==> !st.s.disconnected)
    && SessionOk(st) && (st.closer.Removing? ==> st.dispatch.Exited?)
  }

  lemma CallbackKeeps(st: State, step: Step)
    requires Ok(st) && (step.Connected? || step.MtuChanged? || step.Subscription? || step.Disconnected?)
    ensures Ok(Next(st, step))
  {
  }

  lemma DispatchKeeps(st: State, step: Step)
    requires Ok(st)
    ensures Ok(DispatchStep(st, step))
  {
  }

  lemma CloseKeeps(st: State, step: Step)
    requires Ok(st)
    ensures Ok(CloseStep(st, step))
  {
  }

  lemma {:induction false} RunKeeps(steps: seq<Step>)
    ensures Ok(Run(steps))
  {
    if steps == [] {
      assert Run(steps) == START;
    } else {
      hide Ok, DispatchStep, CloseStep;
      var before, step := steps[..|steps| - 1], steps[|steps| - 1];
      RunKeeps(before);
      var st := Run(before);
      if step.Connected? || step.MtuChanged? || step.Subscription? || step.Disconnected? {
        CallbackKeeps(st, step);
      }
      DispatchKeeps(st, step);
      CloseKeeps(st, step);
    }
  }

  /** In every reachable state at most one session stream exists; a pending dispatch means
      a connected, subscribed, idle, open server, and one with a large enough MTU has its
      dispatch pending; whatever a callback or close calls into is a stream that still
      exists. */
  lemma {:induction false} OneSession(steps: seq<Step>, step: Step)
    ensures var st := Run(steps);
      && |st.alive| <= 1
      && (st.s.pending ==> st.s.conn != INVALID && st.s.subscribed && !st.s.handling && !st.s.closing)
      && (Ready(st.s) ==> st.s.pending)
      && (Reaches(st, step).Some? ==> Reaches(st, step).value in st.alive)
  {
    RunKeeps(steps);
    var st := Run(steps);
    assert st.alive == {} || exists id :: st.alive == {id};
  }

  /** While a handler runs, its peer's datagrams, its leaving or unsubscribing, and close,
      all reach the stream it runs on; another peer reaches nothing. */
  lemma SessionIsReached(steps: seq<Step>, handle: nat)
    requires Run(steps).dispatch.Handling?
    ensures var st := Run(steps); var id := st.dispatch.stream;
      && Reaches(st, CloseServer) == Some(id)
      && Reaches(st, RxWrite(handle)) == Reaches(st, Disconnected(handle)) == Reaches(st, Subscription(handle, false))
           == if handle == st.dispatch.conn then Some(id) else None
  {
    hide Run;
    RunKeeps(steps);
  }

  // ---- a ready peer gets its session ----

  lemma RunOn(before: seq<Step>, step: Step)
    ensures Run(before + [step]) == Next(Run(before), step)
  {
    hide Next;
    assert (before + [step])[..|before|] == before;
  }

  /** The dispatch task, with at most one turn spent on events, takes up a waiting session. */
  lemma ReadyIsTaken(steps: seq<Step>)
    requires var st := Run(steps); st.dispatch.Waiting? && Ready(st.s)
    ensures var st, end := Run(steps), Run(steps + [Loop] + [Loop]);
      && end.dispatch == Creating(st.s.conn) && end.s.handling && !end.s.pending
      && end.s.conn == st.s.conn && end.s.disconnected == st.s.disconnected && !end.s.closing && end.made == st.made
  {
    RunKeeps(steps);
    RunOn(steps, Loop);
    RunOn(steps + [Loop], Loop);
  }

  /** And if the stream comes up while the peer is there, the handler runs on it. */
  lemma ReadyIsServed(steps: seq<Step>)
    requires var st := Run(steps); st.dispatch.Waiting? && Ready(st.s)
    ensures var st, end := Run(steps), Run(steps + [Loop] + [Loop] + [Create(Started)] + [PublishStream]);
      end.dispatch == Handling(st.s.conn, st.made) && end.s.active == Some(st.made) && st.made in end.alive
  {
    RunKeeps(steps);
    ReadyIsTaken(steps);
    hide Run;
    var taken := steps + [Loop] + [Loop];
    RunOn(taken, Create(Started));
    RunOn(taken + [Create(Started)], PublishStream);
    assert Run(taken).dispatch == Creating(Run(steps).s.conn);
  }

  /** A session that ends and joins leaves the server waiting for any central. */
  lemma SessionEnds(steps: seq<Step>)
    requires Run(steps).dispatch.Handling?
    ensures var end := Run(steps + [HandlerReturns] + [JoinStream(true)] + [DestroyStream]);
      end.dispatch.Waiting? && end.s.conn == INVALID && !end.s.handling && end.s.active.None? && end.alive == {}
  {
    RunKeeps(steps);
    hide Run;
    RunOn(steps, HandlerReturns);
    RunOn(steps + [HandlerReturns], JoinStream(true));
    RunOn(steps + [HandlerReturns] + [JoinStream(true)], DestroyStream);
  }

  /** The states of a run from its `i`-th to its `j`-th step are all inside a session. */
  ghost predicate HandlingThroughout(steps: seq<Step>, i: nat, j: nat)
    requires i <= j <= |steps|
  {
    forall k :: i <= k <= j ==> Run(steps[..k]).s.handling
  }

  lemma StepFreezesHandled(st: State, step: Step)
    requires Ok(st) && st.s.handling && Next(st, step).s.handling
    ensures Next(st, step).s.conn == st.s.conn != INVALID
  {
    hide DispatchStep, CloseStep, SignalIfReady;
    HandledIsConnected(st);
    DispatchFreezes(st, step);
    CloseFreezes(st, step);
    SignalFreezes(st.s);
    match step
    case MtuChanged(_, mtu) => SignalFreezes(st.s.(mtu := mtu));
    case Subscription(_, notify) =>
      SignalFreezes(st.s.(subscribed := false, pending := false));
      SignalFreezes(st.s.(subscribed := true, protocolError := st.s.protocolError || st.s.mtu < MIN_MTU));
    case _ =>
  }

  lemma SignalFreezes(s: Server)
    ensures SignalIfReady(s).conn == s.conn
  {
  }

  lemma DispatchFreezes(st: State, step: Step)
    requires Ok(st) && st.s.handling
    ensures DispatchStep(st, step).s.handling ==> DispatchStep(st, step).s.conn == st.s.conn
  {
  }

  lemma CloseFreezes(st: State, step: Step)
    ensures CloseStep(st, step).s.conn == st.s.conn
  {
    match st.closer
    case Open => if !step.CloseServer? { assert CloseStep(st, step) == st; }
    case Asked => if !step.CloseServer? && !step.CloseJoins? { assert CloseStep(st, step) == st; }
    case Removing(_) => if !step.CloseDestroys? { assert CloseStep(st, step) == st; }
  }

  /** A session keeps its connection handle, however many steps interleave with it. */
  lemma {:induction false} HandledConnectionIsFrozen(steps: seq<Step>, i: nat, j: nat)
    requires i <= j <= |steps| && HandlingThroughout(steps, i, j)
    ensures Run(steps[..j]).s.conn == Run(steps[..i]).s.conn != INVALID
    decreases j
  {
    hide Next, Ok;
    RunKeeps(steps[..j]);
    assert Run(steps[..j]).s.handling;
    if i < j {
      HandledConnectionIsFrozen(steps, i, j - 1);
      assert steps[..j][..j - 1] == steps[..j - 1];
      RunKeeps(steps[..j - 1]);
      assert Run(steps[..j - 1]).s.handling;
      StepFreezesHandled(Run(steps[..j - 1]), steps[j - 1]);
    } else {
      HandledIsConnected(Run(steps[..j]));
    }
  }

  lemma HandledIsConnected(st: State)
    requires Ok(st) && st.s.handling
    ensures st.s.conn != INVALID
  {
  }

  // ---- the object ----

  class ServerObject {
    var conn: nat
    var mtu: nat
    var subscribed: bool
    var pending: bool
    var connectedEvent: bool
    var protocolError: bool
    var handling: bool
    var closing: bool
    var disconnected: bool
    var active: Option<nat>

    ghost function View(): Server
      reads this
    {
      Server(conn, mtu, subscribed, pending, connectedEvent, protocolError, handling, closing, disconnected, active)
    }

    /** A session only waits to start on a connected, subscribed, idle, open server, and
        does wait on one whose MTU is large enough. */
    ghost predicate Valid()
      reads this
    {
      PendingOk(View()) && (Ready(View()) ==> pending)
    }

    constructor ()
      ensures Valid() && View() == OPENED
    {
      conn, mtu, subscribed, pending, connectedEvent, protocolError := INVALID, 0, false, false, false, false;
      handling, closing, disconnected, active := false, false, false, None;
    }

    method Signal()
      modifies `pending
      ensures View() == SignalIfReady(old(View()))
      ensures old(PendingOk(View())) ==> Valid()
    {
      if !closing && !handling && !pending && conn != INVALID && mtu >= MIN_MTU && subscribed { pending := true; }
    }

    /** A second central cannot take over the connection, and a first one starts no
        session before it has subscribed. */
    method ReceiveConnected(peripheral: bool, handle: nat, newMtu: nat)
      requires Valid()
      modifies this
      ensures Valid() && View() == OnConnected(old(View()), peripheral, handle, newMtu)
      ensures old(conn) != INVALID ==> View() == old(View())
      ensures pending == old(pending) && handling == old(handling) && active == old(active)
    {
      if peripheral && conn == INVALID {
        conn, mtu, subscribed, disconnected, connectedEvent := handle, newMtu, false, false, true;
        Signal();
      }
    }

    /** Another peer's MTU changes nothing; this peer's can start a session only once it
        has subscribed and the MTU is large enough, and never calls a waiting one off. */
    method ReceiveMtu(handle: nat, newMtu: nat)
      requires Valid()
      modifies this
      ensures Valid() && View() == OnMtuChanged(old(View()), handle, newMtu)
      ensures handle != conn ==> View() == old(View())
      ensures pending && !old(pending) ==> subscribed && handle == conn != INVALID && newMtu >= MIN_MTU && !handling
      ensures handle == conn != INVALID && newMtu >= MIN_MTU && subscribed && !handling && !closing ==> pending
      ensures old(pending) ==> pending
      ensures conn == old(conn) && handling == old(handling) && active == old(active)
    {
      if handle == conn {
        mtu := newMtu;
        Signal();
      }
    }

    /** Subscribing can start a session only for this connection with a large enough MTU;
        unsubscribing calls off a waiting one. Returns the stream to mark closed. */
    method ReceiveSubscription(handle: nat, notify: bool) returns (closed: Option<nat>)
      requires Valid()
      modifies this
      ensures Valid() && View() == OnSubscription(old(View()), handle, notify)
      ensures closed == if handle == old(conn) && !notify then old(active) else None
      ensures pending && !old(pending) ==> notify && handle == conn != INVALID && mtu >= MIN_MTU && !handling
      ensures notify && handle == conn != INVALID && mtu >= MIN_MTU && !handling && !closing ==> pending
      ensures handle == conn && !notify ==> !pending && !subscribed
      ensures conn == old(conn) && handling == old(handling) && active == old(active)
    {
      closed := None;
      if handle == conn {
        if !notify {
          subscribed, pending, closed := false, false, active;
        } else {
          subscribed := true;
        }
        if subscribed && mtu < MIN_MTU { protocolError := true; }
        Signal();
      }
    }

    /** A lost connection starts no session, and its handle is given up at once exactly
        when no session holds it. Returns the stream to mark closed. */
    method ReceiveDisconnected(handle: nat) returns (closed: Option<nat>)
      requires Valid()
      modifies this
      ensures Valid() && View() == OnDisconnected(old(View()), handle)
      ensures closed == if handle == old(conn) then old(active) else None
      ensures handle == old(conn) ==> !pending
      ensures handle == old(conn) != INVALID ==> (conn == old(conn) <==> handling || active.Some?)
      ensures handling == old(handling) && active == old(active)
    {
      closed := None;
      if handle == conn {
        disconnected, pending, connectedEvent, protocolError, subscribed := true, false, false, false, false;
        if active.Some? {
          closed := active;
        } else if !handling {
          conn, mtu := INVALID, 0;
        }
      }
    }

    /** A session starts only from a waiting one, with its connection there and subscribed,
        and is then the only one. */
    method TakeSession() returns (go: bool)
      requires Valid()
      modifies this
      ensures Valid() && (View(), go) == Take(old(View()))
      ensures go ==> old(pending) && !old(handling) && handling && !pending && conn == old(conn) != INVALID && subscribed
      ensures go <==> old(pending) && !closing && !old(connectedEvent) && !old(protocolError)
      ensures !go ==> handling == old(handling) && pending == old(pending)
      ensures !closing ==> !connectedEvent && !protocolError
    {
      if closing { return false; }
      if connectedEvent || protocolError {
        connectedEvent, protocolError := false, false;
        return false;
      }
      if !pending { return false; }
      pending, handling := false, true;
      return true;
    }

    /** The handler runs exactly while the session's connection is still the one it was
        made for; either way callbacks now find the stream. */
    method PublishStream(stream: nat, session: nat) returns (run: bool)
      requires Valid()
      modifies `active
      ensures Valid() && (View(), run) == Publish(old(View()), stream, session)
      ensures active == Some(stream)
      ensures run <==> conn == session && !disconnected && !closing
    {
      active := Some(stream);
      run := !closing && conn == session && !disconnected;
    }

    /** After a session whose stream was joined the server is as when it opened, but for
        closing and the events still to be reported; otherwise the stream stays reachable
        and no further session starts. */
    method SettleSession(joined: bool)
      requires Valid()
      modifies this
      ensures View() == Settle(old(View()), joined)
      ensures old(handling) ==> Valid() && !pending
      ensures old(handling) && joined ==>
        View() == OPENED.(closing := old(closing), connectedEvent := old(connectedEvent), protocolError := old(protocolError))
      ensures !joined ==> active == old(active) && Take(View()) == (View(), false)
    {
      if !joined {
        closing, handling := true, false;
        return;
      }
      active, handling, conn, mtu, subscribed, disconnected := None, false, INVALID, 0, false, false;
    }
  }
}
