/** One end of a BLE-KCP stream and what each of its critical sections does. KCP itself
    is a reliable ordered message channel: messages are sent, arrive and are acknowledged
    in any order, and are received in the order they were sent. */
module KcpStream {
  import opened Bytes

  const OK: int := 0
  const ERR_IO: int := -4
  const ERR_CLOSED: int := -10
  const ERR_NO_SPACE: int := -13
  /** H2_BLEIKCP_KCP_OVERHEAD. */
  const OVERHEAD: nat := 24

  datatype Config = Config(mtu: nat, sendWindow: nat, txSize: nat, rxSize: nat, inputSize: nat)

  /** resolve_config and stream_create admit no other. */
  predicate Admitted(cfg: Config) {
    cfg.mtu >= 50 && cfg.sendWindow > 0 && cfg.txSize > 0 && cfg.rxSize > 0 && cfg.inputSize > 0
  }

  /** One direction of the channel: the messages handed to it, which of them have
      arrived, which are known to have arrived, and how many were received. */
  datatype Wire = Wire(sent: seq<seq<byte>>, arrived: set<nat>, acked: set<nat>, received: nat) {
    /** ikcp_waitsnd. */
    function Outstanding(): int { |sent| - |acked| }
    /** ikcp_peeksize finds a message. */
    predicate Ready() { received < |sent| && received in arrived }
  }

  /** A datagram: the messages it carries and the ones it acknowledges, or garbage. */
  datatype Frame = Garbage | Frame(data: set<nat>, acks: set<nat>)

  datatype Phase = Polling | Updating | Stopped

  datatype End = End(
    tx: seq<byte>, rx: seq<byte>, input: seq<Frame>,
    closing: bool, fatal: int, waitsnd: int, phase: Phase)

  const FRESH := End([], [], [], false, OK, 0, Polling)
  const QUIET := Wire([], {}, {}, 0)

  /** drain_input: feed queued datagrams to KCP until the queue is empty or one is bad. */
  function DrainInput(e: End, out: Wire, inn: Wire): (r: (End, Wire, Wire))
    ensures r.0 == e.(input := r.0.input, fatal := r.0.fatal)
    ensures r.1.sent == out.sent && r.1.received == out.received && r.1.arrived == out.arrived
    ensures r.2.sent == inn.sent && r.2.received == inn.received && r.2.acked == inn.acked
    decreases |e.input|
  {
    if e.input == [] || e.fatal != OK then (e, out, inn)
    else
      match e.input[0]
      case Garbage => (e.(fatal := ERR_IO), out, inn)
      case Frame(data, acks) =>
        DrainInput(e.(input := e.input[1..]), out.(acked := out.acked + acks), inn.(arrived := inn.arrived + data))
  }

  /** drain_tx: hand messages to KCP while the send window has room; the first `budget`
      calls of ikcp_send succeed. */
  function DrainTx(cfg: Config, e: End, out: Wire, budget: nat): (r: (End, Wire, bool))
    requires cfg.mtu > OVERHEAD
    ensures r.0 == e.(tx := r.0.tx, fatal := r.0.fatal, waitsnd := r.1.Outstanding())
    ensures r.1 == out.(sent := r.1.sent)
    ensures r.2 ==> r.0.fatal == ERR_IO
    ensures !r.2 ==> r.0.fatal == e.fatal
    decreases |e.tx|
  {
    if e.tx == [] || out.Outstanding() >= cfg.sendWindow then (e.(waitsnd := out.Outstanding()), out, false)
    else
      var n := if |e.tx| < cfg.mtu - OVERHEAD then |e.tx| else cfg.mtu - OVERHEAD;
      var left := e.(tx := e.tx[n..]);
      if budget == 0 then (left.(fatal := ERR_IO, waitsnd := out.Outstanding()), out, true)
      else DrainTx(cfg, left, out.(sent := out.sent + [e.tx[..n]]), budget - 1)
  }

  /** drain_rx: move whole messages into the receive ring while they fit. */
  function DrainRx(cfg: Config, e: End, inn: Wire): (r: (End, Wire))
    ensures r.0 == e.(rx := r.0.rx, fatal := r.0.fatal)
    ensures r.1 == inn.(received := r.1.received)
    ensures r.0.fatal == OK ==> e.fatal == OK
    decreases |inn.sent| - inn.received
  {
    if e.fatal != OK || !inn.Ready() || |inn.sent[inn.received]| > cfg.rxSize - |e.rx| then (e, inn)
    else
      var message := inn.sent[inn.received];
      if |message| > cfg.mtu then (e.(fatal := ERR_IO), inn)
      else DrainRx(cfg, e.(rx := e.rx + message), inn.(received := inn.received + 1))
  }

  /** The locked half of a worker turn before ikcp_update. */
  function Poll(cfg: Config, e: End, out: Wire, inn: Wire, budget: nat): (End, Wire, Wire, bool)
    requires cfg.mtu > OVERHEAD
  {
    if e.closing then (e.(phase := Stopped), out, inn, false) else
    var (e1, out1, inn1) := DrainInput(e, out, inn);
    var (e2, out2, lost) := DrainTx(cfg, e1, out1, budget);
    (e2.(phase := Updating), out2, inn1, lost)
  }

  /** The locked half of a worker turn after ikcp_update. */
  function Collect(cfg: Config, e: End, out: Wire, inn: Wire): (End, Wire) {
    var (e1, inn1) := DrainRx(cfg, e, inn);
    var e2 := e1.(waitsnd := out.Outstanding());
    if e2.fatal != OK then (e2.(closing := true, phase := Stopped), inn1) else (e2.(phase := Polling), inn1)
  }

  datatype Outcome = Returned(code: int) | Blocked

  /** stream_input. */
  function Receive(cfg: Config, e: End, frame: Frame): End {
    if e.closing || |e.input| == cfg.inputSize then e else e.(input := e.input + [frame])
  }

  /** One attempt of write under the lock. */
  function Write(cfg: Config, e: End, data: seq<byte>): (End, Outcome) {
    if data == [] then (e, Returned(OK))
    else if |data| > cfg.txSize then (e, Returned(ERR_NO_SPACE))
    else if e.closing then (e, Returned(if e.fatal != OK then e.fatal else ERR_CLOSED))
    else if cfg.txSize - |e.tx| < |data| then (e, Blocked)
    else (e.(tx := e.tx + data), Returned(OK))
  }

  /** One attempt of read under the lock. */
  function Read(e: End, size: nat): (End, seq<byte>, Outcome) {
    if size == 0 then (e, [], Returned(OK))
    else if e.rx == [] && !e.closing then (e, [], Blocked)
    else if e.rx == [] then (e, [], Returned(if e.fatal != OK then e.fatal else ERR_CLOSED))
    else
      var n := if |e.rx| < size then |e.rx| else size;
      (e.(rx := e.rx[n..]), e.rx[..n], Returned(OK))
  }

  /** One attempt of flush under the lock. */
  function Flush(e: End): Outcome {
    var pending := e.tx != [] || e.waitsnd > 0;
    if pending && !e.closing then Blocked
    else if e.fatal != OK then Returned(e.fatal)
    else if pending then Returned(ERR_CLOSED)
    else Returned(OK)
  }

  /** stream_mark_closed. */
  function MarkClosed(e: End, status: int): End {
    if e.closing then e
    else e.(closing := true, fatal := if status != ERR_CLOSED && status != OK then status else e.fatal)
  }
}
