/** The service object: fields updated in place under the mutex, the two circular queues
    in arrays. The critical sections that use a queue do to `View()` what `WifiService`
    says; those that only set flags are there as functions. */
module WifiObject {
  import opened Rings
  import opened WifiService

  class Provisioner {
    const cfg: Config
    const events: Ring<Event>
    const transitions: Ring<Transition>
    var conn: Conn
    var adv: Advertising
    var req: Requests
    var overflow: bool
    var sending: bool
    var closing: bool

    ghost predicate Valid()
      reads this, events, transitions
    {
      && events.Valid() && events.data.Length == QUEUE_LENGTH
      && transitions.Valid() && transitions.data.Length == QUEUE_LENGTH
    }

    ghost function Repr(): set<object> { {this, events, events.data, transitions, transitions.data} }

    ghost function View(): Service
      reads this, events, events.data, transitions, transitions.data
      requires Valid()
    {
      Service(conn, adv, req, Deferred(transitions.Contents(), overflow), sending, events.Contents(), closing)
    }

    constructor (cfg: Config)
      ensures Valid() && View() == IDLE && fresh(Repr()) && this.cfg == cfg
    {
      this.cfg := cfg;
      events := new Ring<Event>(QUEUE_LENGTH);
      transitions := new Ring<Transition>(QUEUE_LENGTH);
      conn, adv, req := IDLE.conn, IDLE.adv, IDLE.req;
      overflow, sending, closing := false, false, false;
    }

    method PostEvent(kind: Kind, handle: nat, status: int)
      requires Valid()
      modifies events, events.data
      ensures Valid()
      ensures View() == old(View()).(events := Post(old(View()).events, Event(kind, handle, status)))
    {
      if events.count == QUEUE_LENGTH {
        var oldest := events.Pop();
      }
      events.Push(Event(kind, handle, status));
    }

    method CheckAttMtu(handle: nat)
      requires Valid()
      modifies events, events.data
      ensures Valid()
      ensures View() == old(View()).(events := CheckMtu(cfg, old(View()).events, conn.mtu, handle))
    {
      if conn.mtu != 0 && conn.mtu < cfg.minMtu { PostEvent(MtuTooSmall, handle, conn.mtu); }
    }

    method ApplyConnected(peripheral: bool, handle: nat, mtu: nat)
      requires Valid()
      modifies this, events, events.data
      ensures Valid() && View() == Apply(cfg, old(View()), Connected(peripheral, handle, mtu))
    {
      hide Post;
      if peripheral && conn.handle == INVALID {
        conn := Conn(handle, conn.generation + 1, mtu, false, false);
        if adv.connectable { adv := adv.(active := false); }
        adv := adv.(restartPending := false);
        PostEvent(PeerConnected, handle, 0);
        CheckAttMtu(handle);
      }
    }

    method ApplyMtu(handle: nat, mtu: nat)
      requires Valid()
      modifies `conn, events, events.data
      ensures Valid() && View() == Apply(cfg, old(View()), MtuChanged(handle, mtu))
    {
      hide Post;
      if handle == conn.handle {
        conn := conn.(mtu := mtu);
        CheckAttMtu(handle);
      }
    }

    method ApplySubscription(handle: nat, notify: bool, value: nat, enabled: bool)
      requires Valid()
      modifies `conn, `req
      ensures Valid() && View() == Apply(cfg, old(View()), SubscriptionChanged(handle, notify, value, enabled))
    {
      if handle == conn.handle && notify {
        if value == cfg.scanValue {
          conn := conn.(scanSubscribed := enabled);
          if !enabled { req := req.(scanStop := true, scanRequested := false); }
        } else if value == cfg.provisionValue {
          conn := conn.(provisionSubscribed := enabled);
        }
      }
    }

    method ApplyDisconnected(handle: nat, reason: int)
      requires Valid()
      modifies this, events, events.data
      ensures Valid() && View() == Apply(cfg, old(View()), Disconnected(handle, reason))
    {
      hide Post;
      if handle == conn.handle {
        conn := Conn(INVALID, conn.generation, 0, false, false);
        req := req.(scanRequested := false, scanStop := true, credentialsPending := false, rejectPending := false);
        adv := adv.(restartPending := adv.started && !closing && adv.healthy);
        PostEvent(PeerDisconnected, handle, reason);
      }
    }

    method ApplyTransition(t: Transition)
      requires Valid()
      modifies this, events, events.data
      ensures Valid() && View() == Apply(cfg, old(View()), t)
    {
      hide Apply;
      match t
      case Connected(peripheral, handle, mtu) => ApplyConnected(peripheral, handle, mtu);
      case MtuChanged(handle, mtu) => ApplyMtu(handle, mtu);
      case SubscriptionChanged(handle, notify, value, enabled) => ApplySubscription(handle, notify, value, enabled);
      case Disconnected(handle, reason) => ApplyDisconnected(handle, reason);
    }

    method DrainTransitions()
      requires Valid()
      modifies Repr()
      ensures Valid() && View() == Drain(cfg, old(View()))
    {
      hide Drain, Apply;
      ghost var goal := Drain(cfg, View());
      if overflow {
        DrainLost(cfg, View());
        transitions.Clear();
        overflow := false;
        if conn.handle != INVALID { ApplyTransition(Disconnected(conn.handle, 0)); }
        return;
      }
      while transitions.count > 0
        invariant Valid() && !overflow
        invariant goal == Drain(cfg, View())
        decreases transitions.count
      {
        ghost var before := View();
        var t := transitions.Pop();
        ghost var popped := View();
        assert before.deferred.queue == [t] + popped.deferred.queue;
        ApplyTransition(t);
        DrainOne(cfg, before, t, popped);
      }
      DrainNone(cfg, View());
    }

    method DeferTransition(t: Transition)
      requires Valid()
      modifies `overflow, transitions, transitions.data
      ensures Valid()
      ensures View() == old(View()).(deferred := Defer(old(View()).deferred, t))
    {
      if transitions.count == QUEUE_LENGTH {
        overflow := true;
        return;
      }
      transitions.Push(t);
    }

    method ReceiveEvent(t: Transition)
      requires Valid()
      modifies Repr()
      ensures Valid() && View() == SystemEvent(cfg, old(View()), t)
    {
      if sending {
        DeferTransition(t);
      } else {
        DrainTransitions();
        ApplyTransition(t);
      }
    }

    method WriteCommand(handle: nat, command: Command) returns (reply: Reply)
      requires Valid()
      modifies `req, events, events.data
      ensures Valid() && (View(), reply) == CommandWrite(old(View()), handle, command)
    {
      if command.Malformed? {
        PostEvent(ProtocolError, handle, command.code);
        return Refused;
      }
      if closing || handle != conn.handle { return Refused; }
      if command.ScanStop? {
        req := req.(scanRequested := false, scanStop := true);
        return Accepted;
      }
      if !conn.scanSubscribed {
        PostEvent(ProtocolError, handle, INVALID_STATE);
        return Refused;
      }
      if !req.scanRequested && !req.scanRunning { req := req.(scanRequested := true); }
      return Accepted;
    }

    method RejectProvisionWrite(handle: nat, code: int)
      requires Valid()
      modifies `req, events, events.data
      ensures Valid() && View() == RejectWrite(old(View()), handle, code)
    {
      req := req.(rejectPending := true, rejectPeer := Peer(handle, conn.generation));
      PostEvent(ProtocolError, handle, code);
    }

    method TakeWork() returns (work: Work)
      requires Valid()
      modifies `req, events
      ensures Valid() && (View(), work) == WorkerTurn(old(View()))
      // what is taken up was waiting and waits no longer; what is not taken up still waits
      ensures req.rejectPending == (old(req.rejectPending) && !work.Reject?)
      ensures req.credentialsPending == (old(req.credentialsPending) && !work.Provision?)
      ensures req.scanRequested == (old(req.scanRequested) && !work.Scan?)
      ensures work.Reject? ==> old(req.rejectPending) && work.peer == old(req.rejectPeer)
      ensures work.Provision? ==> old(req.credentialsPending) && work.peer == Peer(conn.handle, conn.generation)
      ensures work.Scan? ==> old(req.scanRequested) && work.peer == Peer(conn.handle, conn.generation)
      // an open service with nothing to report or restore takes up what waits
      ensures !closing && old(View()).events == [] && !adv.restartPending ==>
        (work.Nothing? <==> !old(req.rejectPending) && !old(req.credentialsPending) && !old(req.scanRequested))
    {
      if closing { return Nothing; }
      if events.count > 0 {
        var event := events.Pop();
        return Nothing;
      }
      if adv.restartPending { return RestoreAdvertising; }
      if req.rejectPending {
        req := req.(rejectPending := false);
        return Reject(req.rejectPeer);
      }
      if req.credentialsPending {
        req := req.(credentialsPending := false, credentialsRunning := true);
        return Provision(Peer(conn.handle, conn.generation));
      }
      if req.scanRequested {
        req := req.(scanRequested := false, scanRunning := true, scanStop := false);
        return Scan(Peer(conn.handle, conn.generation));
      }
      return Nothing;
    }

    /** The part of notify after the Host call; false when the peer was replaced meanwhile. */
    method EndNotify(peer: Peer) returns (stillCurrent: bool)
      requires Valid()
      modifies Repr()
      ensures Valid() && View() == NotifyEnd(cfg, old(View()))
      ensures stillCurrent <==> peer == Peer(View().conn.handle, View().conn.generation)
    {
      sending := false;
      DrainTransitions();
      stillCurrent := peer.handle == conn.handle && peer.generation == conn.generation;
    }

    /** A latched failure is the newest event, and nothing is left that could start
        advertising again. */
    method FailAdvertising(code: int)
      requires Valid()
      modifies `adv, events, events.data
      ensures Valid() && View() == LatchFailure(old(View()), code)
      ensures !CanStart(View()) && !BeginRestore(View()).1 && !adv.restartPending
      ensures var n := |View().events|; n > 0 && View().events[n - 1] == Event(AdvertisingFailed, INVALID, code)
    {
      adv := adv.(healthy := false, restartPending := false);
      PostEvent(AdvertisingFailed, INVALID, code);
    }
  }

  lemma DrainLost(cfg: Config, s: Service)
    requires s.deferred.overflow
    ensures var bare := s.(deferred := Deferred([], false));
      Drain(cfg, s) == if s.conn.handle == INVALID then bare else Apply(cfg, bare, Disconnected(s.conn.handle, 0))
  {
    if s.conn.handle != INVALID {
      var bare := s.(deferred := Deferred([], false));
      var lost := [Disconnected(s.conn.handle, 0)];
      assert Due(s) == lost && lost[1..] == [];
      assert ApplyAll(cfg, bare, lost) == ApplyAll(cfg, Apply(cfg, bare, lost[0]), lost[1..]);
    }
  }

  lemma DrainNone(cfg: Config, s: Service)
    requires s.deferred == Deferred([], false)
    ensures Drain(cfg, s) == s
  {
  }

  /** A drain applies its oldest transition first and then drains the rest. */
  lemma DrainOne(cfg: Config, s: Service, t: Transition, popped: Service)
    requires !s.deferred.overflow && s.deferred.queue == [t] + popped.deferred.queue
    requires popped == s.(deferred := Deferred(popped.deferred.queue, false))
    ensures Drain(cfg, s) == Drain(cfg, Apply(cfg, popped, t))
  {
    var rest := popped.deferred.queue;
    assert s.deferred.queue[1..] == rest;
    var bare := s.(deferred := Deferred([], false));
    assert Apply(cfg, bare, t) == Apply(cfg, popped, t).(deferred := Deferred([], false));
  }
}
