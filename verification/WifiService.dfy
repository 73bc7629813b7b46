/** The state of the BLE Wi-Fi provisioning service and what each critical section of
    its mutex does to it. */
module WifiService {
  /** H2_PAL_BLE_INVALID_CONN_HANDLE. */
  const INVALID: nat := 0xffff
  /** H2_PAL_BLE_INVALID_ATTR_HANDLE. */
  const INVALID_ATTRIBUTE: nat := 0
  /** H2_PAL_ERR_INVALID_STATE. */
  const INVALID_STATE: int := -7
  const QUEUE_LENGTH: nat := 8

  datatype Peer = Peer(handle: nat, generation: nat)

  datatype Conn = Conn(handle: nat, generation: nat, mtu: nat, scanSubscribed: bool, provisionSubscribed: bool)

  datatype Transition =
    | Connected(peripheral: bool, handle: nat, mtu: nat)
    | MtuChanged(handle: nat, mtu: nat)
    | SubscriptionChanged(handle: nat, notify: bool, valueHandle: nat, enabled: bool)
    | Disconnected(handle: nat, reason: int)

  datatype Advertising = Advertising(
    connectable: bool, eventGeneration: nat, started: bool, active: bool,
    needsReset: bool, paused: bool, restartPending: bool, healthy: bool)

  datatype Requests = Requests(
    scanRequested: bool, scanRunning: bool, scanStop: bool, credentialsPending: bool,
    credentialsRunning: bool, rejectPending: bool, rejectPeer: Peer)

  datatype Deferred = Deferred(queue: seq<Transition>, overflow: bool)

  datatype Kind = PeerConnected | PeerDisconnected | MtuTooSmall | ProtocolError | AdvertisingFailed
  datatype Event = Event(kind: Kind, handle: nat, status: int)

  datatype Service = Service(
    conn: Conn, adv: Advertising, req: Requests, deferred: Deferred,
    sending: bool, events: seq<Event>, closing: bool)

  datatype Config = Config(scanValue: nat, provisionValue: nat, minMtu: nat, keepAdvertising: bool)

  const IDLE := Service(
    Conn(INVALID, 0, 0, false, false), Advertising(true, 0, false, false, false, false, false, true),
    Requests(false, false, false, false, false, false, Peer(INVALID, 0)), Deferred([], false), false, [], false)

  /** Posting to a full queue drops the oldest event. */
  function Post(events: seq<Event>, e: Event): seq<Event> {
    (if |events| == QUEUE_LENGTH then events[1..] else events) + [e]
  }

  function CheckMtu(cfg: Config, events: seq<Event>, mtu: nat, handle: nat): seq<Event> {
    if mtu != 0 && mtu < cfg.minMtu then Post(events, Event(MtuTooSmall, handle, mtu)) else events
  }

  // ---- connection transitions ----

  /** What one transition does to the connection alone. */
  function Follow(cfg: Config, c: Conn, t: Transition): Conn {
    match t
    case Connected(peripheral, handle, mtu) =>
      if peripheral && c.handle == INVALID then Conn(handle, c.generation + 1, mtu, false, false) else c
    case MtuChanged(handle, mtu) => if handle == c.handle then c.(mtu := mtu) else c
    case SubscriptionChanged(handle, notify, value, enabled) =>
      if handle != c.handle || !notify then c
      else if value == cfg.scanValue then c.(scanSubscribed := enabled)
      else if value == cfg.provisionValue then c.(provisionSubscribed := enabled)
      else c
    case Disconnected(handle, _) =>
      if handle == c.handle then Conn(INVALID, c.generation, 0, false, false) else c
  }

  function FollowAll(cfg: Config, c: Conn, ts: seq<Transition>): Conn
    decreases |ts|
  {
    if ts == [] then c else FollowAll(cfg, Follow(cfg, c, ts[0]), ts[1..])
  }

  /** The advertising state that transitions leave alone. */
  predicate SameWindow(a: Advertising, b: Advertising) {
    a.needsReset == b.needsReset && a.started == b.started && a.healthy == b.healthy
  }

  /** apply_transition_locked. */
  function Apply(cfg: Config, s: Service, t: Transition): (r: Service)
    ensures r.conn == Follow(cfg, s.conn, t)
    ensures r.deferred == s.deferred && r.sending == s.sending && r.closing == s.closing
    ensures SameWindow(r.adv, s.adv)
  {
    match t
    case Connected(peripheral, handle, mtu) =>
      if !peripheral || s.conn.handle != INVALID then s else
      s.(conn := Conn(handle, s.conn.generation + 1, mtu, false, false),
         adv := s.adv.(active := s.adv.active && !s.adv.connectable, restartPending := false),
         events := CheckMtu(cfg, Post(s.events, Event(PeerConnected, handle, 0)), mtu, handle))
    case MtuChanged(handle, mtu) =>
      if handle != s.conn.handle then s else
      s.(conn := s.conn.(mtu := mtu), events := CheckMtu(cfg, s.events, mtu, handle))
    case SubscriptionChanged(handle, notify, value, enabled) =>
      if handle != s.conn.handle || !notify then s
      else if value == cfg.scanValue then
        s.(conn := s.conn.(scanSubscribed := enabled),
           req := if enabled then s.req else s.req.(scanStop := true, scanRequested := false))
      else if value == cfg.provisionValue then s.(conn := s.conn.(provisionSubscribed := enabled))
      else s
    case Disconnected(handle, reason) =>
      if handle != s.conn.handle then s else
      s.(conn := Conn(INVALID, s.conn.generation, 0, false, false),
         req := s.req.(scanRequested := false, scanStop := true, credentialsPending := false, rejectPending := false),
         adv := s.adv.(restartPending := s.adv.started && !s.closing && s.adv.healthy),
         events := Post(s.events, Event(PeerDisconnected, handle, reason)))
  }

  function ApplyAll(cfg: Config, s: Service, ts: seq<Transition>): (r: Service)
    ensures r.conn == FollowAll(cfg, s.conn, ts)
    ensures r.deferred == s.deferred && r.sending == s.sending && r.closing == s.closing
    ensures SameWindow(r.adv, s.adv)
    decreases |ts|
  {
    if ts == [] then s else ApplyAll(cfg, Apply(cfg, s, ts[0]), ts[1..])
  }

  /** The transitions a drain applies: the deferred ones, or after an overflow the loss
      of the connection. */
  function Due(s: Service): seq<Transition> {
    if !s.deferred.overflow then s.deferred.queue
    else if s.conn.handle != INVALID then [Disconnected(s.conn.handle, 0)]
    else []
  }

  /** drain_transitions_locked. */
  function Drain(cfg: Config, s: Service): (r: Service)
    ensures SameWindow(r.adv, s.adv)
    ensures r.deferred == Deferred([], false) && r.sending == s.sending && r.closing == s.closing
    ensures s.deferred.overflow ==> r.conn.handle == INVALID
  {
    ApplyAll(cfg, s.(deferred := Deferred([], false)), Due(s))
  }

  /** defer_transition_locked. */
  function Defer(d: Deferred, t: Transition): Deferred {
    if |d.queue| == QUEUE_LENGTH then d.(overflow := true) else d.(queue := d.queue + [t])
  }

  function SystemEvent(cfg: Config, s: Service, t: Transition): Service {
    if s.sending then s.(deferred := Defer(s.deferred, t)) else Apply(cfg, Drain(cfg, s), t)
  }

  // ---- GATT writes ----

  datatype Command = Malformed(code: int) | ScanStart | ScanStop
  datatype Reply = Accepted | Refused | Busy

  function CommandWrite(s: Service, handle: nat, command: Command): (Service, Reply) {
    if command.Malformed? then
      (s.(events := Post(s.events, Event(ProtocolError, handle, command.code))), Refused)
    else if s.closing || handle != s.conn.handle then (s, Refused)
    else if command.ScanStop? then (s.(req := s.req.(scanRequested := false, scanStop := true)), Accepted)
    else if !s.conn.scanSubscribed then
      (s.(events := Post(s.events, Event(ProtocolError, handle, INVALID_STATE))), Refused)
    else if s.req.scanRequested || s.req.scanRunning then (s, Accepted)
    else (s.(req := s.req.(scanRequested := true)), Accepted)
  }

  function RejectWrite(s: Service, handle: nat, code: int): Service {
    s.(req := s.req.(rejectPending := true, rejectPeer := Peer(handle, s.conn.generation)),
       events := Post(s.events, Event(ProtocolError, handle, code)))
  }

  function CredentialsWrite(s: Service, handle: nat): (Service, Reply) {
    if s.closing || handle != s.conn.handle then (s, Refused)
    else if s.req.credentialsPending || s.req.credentialsRunning then (s, Busy)
    else (s.(req := s.req.(credentialsPending := true)), Accepted)
  }

  // ---- worker and notifications ----

  datatype Work = Nothing | RestoreAdvertising | Reject(peer: Peer) | Provision(peer: Peer) | Scan(peer: Peer)

  /** One turn of the worker loop, up to where it drops the mutex. */
  function WorkerTurn(s: Service): (Service, Work) {
    var peer := Peer(s.conn.handle, s.conn.generation);
    if s.closing then (s, Nothing)
    else if s.events != [] then (s.(events := s.events[1..]), Nothing)
    else if s.adv.restartPending then (s, RestoreAdvertising)
    else if s.req.rejectPending then (s.(req := s.req.(rejectPending := false)), Reject(s.req.rejectPeer))
    else if s.req.credentialsPending then
      (s.(req := s.req.(credentialsPending := false, credentialsRunning := true)), Provision(peer))
    else if s.req.scanRequested then
      (s.(req := s.req.(scanRequested := false, scanRunning := true, scanStop := false)), Scan(peer))
    else (s, Nothing)
  }

  function WorkDone(s: Service, work: Work): Service {
    match work
    case Provision(_) => s.(req := s.req.(credentialsRunning := false))
    case Scan(_) => s.(req := s.req.(scanRunning := false, scanStop := false))
    case _ => s
  }

  /** Whether a frame for `peer` may be handed to the Host. */
  predicate MaySend(cfg: Config, s: Service, scanChannel: bool, peer: Peer) {
    && peer.handle != INVALID
    && peer == Peer(s.conn.handle, s.conn.generation)
    && (if scanChannel then s.conn.scanSubscribed && cfg.scanValue != INVALID_ATTRIBUTE
        else s.conn.provisionSubscribed && cfg.provisionValue != INVALID_ATTRIBUTE)
  }

  function NotifyBegin(cfg: Config, s: Service, scanChannel: bool, peer: Peer): Service {
    if MaySend(cfg, s, scanChannel, peer) then s.(sending := true) else s
  }

  function NotifyEnd(cfg: Config, s: Service): Service { Drain(cfg, s.(sending := false)) }

  // ---- advertising ----

  predicate CanStart(s: Service) {
    && s.adv.started && !s.adv.paused && !s.closing && s.adv.healthy
    && !(s.conn.handle != INVALID && s.adv.connectable)
  }

  function AdvertisingEvent(s: Service, on: bool): Service {
    var a := s.adv.(eventGeneration := s.adv.eventGeneration + 1);
    if !on then s.(adv := a.(active := false))
    else if a.started && !a.paused && !s.closing && a.healthy && (!a.connectable || s.conn.handle == INVALID) then
      s.(adv := a.(active := true))
    else s.(adv := a)
  }

  function LatchFailure(s: Service, code: int): Service {
    s.(adv := s.adv.(healthy := false, restartPending := false),
       events := Post(s.events, Event(AdvertisingFailed, INVALID, code)))
  }

  function PublishStart(s: Service, generation: nat, eventGeneration: nat): Service {
    var active := if s.adv.eventGeneration != eventGeneration then s.adv.active
      else !s.adv.connectable || (generation == s.conn.generation && s.conn.handle == INVALID);
    s.(adv := s.adv.(needsReset := true, active := active))
  }

  function HostStopped(s: Service): Service { s.(adv := s.adv.(active := false, needsReset := false)) }

  function Revoke(s: Service): Service { s.(adv := s.adv.(started := false, restartPending := false)) }

  function OpenWindow(s: Service, connectable: bool): Service {
    s.(adv := s.adv.(connectable := connectable, started := true, paused := false, healthy := true))
  }

  /** restore_advertising up to its first Host call: whether to go on, whether to stop first. */
  function BeginRestore(s: Service): (Service, bool, bool) {
    (s.(adv := s.adv.(restartPending := false)), !s.adv.active && CanStart(s), s.adv.needsReset)
  }

  /** restore_advertising after its stop: whether to start. */
  function Recheck(s: Service): (Service, bool) {
    var t := HostStopped(s);
    (t, CanStart(t))
  }

  /** pause_advertising up to its Host call: whether to stop. */
  function BeginPause(cfg: Config, s: Service): (Service, bool) {
    var paused := !cfg.keepAdvertising && s.adv.started;
    (s.(adv := s.adv.(paused := paused)), paused && (s.adv.active || s.adv.needsReset))
  }

  predicate MayOpen(s: Service) { !s.closing && !s.adv.started && !s.adv.needsReset }

  /** start_advertising after the advertising data was set, or was refused: whether the
      window is open, and whether to start. */
  function TryOpen(s: Service, connectable: bool, dataOk: bool): (Service, bool, bool) {
    if !dataOk || s.closing then (s.(adv := s.adv.(healthy := false)), false, false)
    else
      var t := OpenWindow(s, connectable);
      (t, true, CanStart(t))
  }

  function FailStart(s: Service): Service {
    s.(adv := s.adv.(healthy := false, started := false, restartPending := false))
  }

  /** stop_advertising with adv_mutex held, up to its Host call: whether to stop. */
  function BeginStop(s: Service): (Service, bool) {
    (s.(adv := s.adv.(started := false, restartPending := false, paused := false)), s.adv.active || s.adv.needsReset)
  }

  function EndStop(s: Service, ok: bool): Service {
    if ok then HostStopped(s) else s.(adv := s.adv.(healthy := false))
  }

  function Close(s: Service): Service {
    s.(closing := true,
       req := s.req.(scanStop := true, scanRequested := false, credentialsPending := false, rejectPending := false),
       adv := s.adv.(started := false, restartPending := false))
  }

  // ---- facts about folds ----

  lemma {:induction false} FollowConcat(cfg: Config, c: Conn, a: seq<Transition>, b: seq<Transition>)
    ensures FollowAll(cfg, c, a + b) == FollowAll(cfg, FollowAll(cfg, c, a), b)
    decreases |a|
  {
    if a == [] {
      assert a + b == b;
    } else {
      assert (a + b)[1..] == a[1..] + b;
      FollowConcat(cfg, Follow(cfg, c, a[0]), a[1..], b);
    }
  }
}
