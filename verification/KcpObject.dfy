/** The stream object: byte rings and the datagram queue in arrays, drained by loops.
    Every critical section does to `View()` what `KcpStream` says. */
module KcpObject {
  import opened Bytes
  import opened Rings
  import opened KcpStream
  import opened KcpProgress

  class Stream {
    const cfg: Config
    const tx: Ring<byte>
    const rx: Ring<byte>
    const input: Ring<Frame>
    var closing: bool
    var fatal: int
    var waitsnd: int
    var phase: Phase

    ghost predicate Valid()
      reads this, tx, rx, input
    {
      && Admitted(cfg) && tx != rx && tx.data != rx.data
      && tx.Valid() && tx.data.Length == cfg.txSize
      && rx.Valid() && rx.data.Length == cfg.rxSize
      && input.Valid() && input.data.Length == cfg.inputSize
    }

    ghost function Repr(): set<object> { {this, tx, tx.data, rx, rx.data, input, input.data} }

    ghost function View(): End
      reads this, tx, tx.data, rx, rx.data, input, input.data
      requires Valid()
    {
      End(tx.Contents(), rx.Contents(), input.Contents(), closing, fatal, waitsnd, phase)
    }

    constructor (cfg: Config)
      requires Admitted(cfg)
      ensures Valid() && View() == FRESH && fresh(Repr()) && this.cfg == cfg
    {
      this.cfg := cfg;
      tx := new Ring<byte>(cfg.txSize);
      rx := new Ring<byte>(cfg.rxSize);
      input := new Ring<Frame>(cfg.inputSize);
      closing, fatal, waitsnd, phase := false, OK, 0, Polling;
    }

    /** stream_input; false when the stream is closing or the queue is full. */
    method Accept(frame: Frame) returns (ok: bool)
      requires Valid()
      modifies input, input.data
      ensures Valid() && View() == Receive(cfg, old(View()), frame)
      ensures ok <==> !closing && |old(View()).input| < cfg.inputSize
      ensures View().input == old(View()).input + if ok then [frame] else []
    {
      if closing || input.count == cfg.inputSize { return false; }
      input.Push(frame);
      return true;
    }

    /** Datagrams go to KCP until none is queued or one is bad. */
    method FeedKcp(out: Wire, inn: Wire) returns (out': Wire, inn': Wire)
      requires Valid()
      modifies `fatal, input
      ensures Valid() && (View(), out', inn') == DrainInput(old(View()), out, inn)
      ensures fatal == OK ==> View().input == []
    {
      out', inn' := out, inn;
      while input.count > 0 && fatal == OK
        invariant Valid()
        invariant DrainInput(View(), out', inn') == DrainInput(old(View()), out, inn)
        decreases input.count, fatal == OK
      {
        ghost var before := View();
        var frame := input.data[input.head];
        assert before.input[0] == frame;
        if frame.Garbage? {
          fatal := ERR_IO;
        } else {
          var taken := input.Pop();
          assert before.input[1..] == input.Contents();
          out' := out'.(acked := out'.acked + frame.acks);
          inn' := inn'.(arrived := inn'.arrived + frame.data);
        }
      }
    }

    /** Messages go to KCP until the ring is empty, the window full or one refused. */
    method FillKcp(out: Wire, budget: nat) returns (out': Wire, ghost lost: bool)
      requires Valid()
      modifies `fatal, `waitsnd, tx
      ensures Valid() && (View(), out', lost) == DrainTx(cfg, old(View()), out, budget)
      ensures lost || View().tx == [] || out'.Outstanding() >= cfg.sendWindow
    {
      hide DrainTx;
      var mss := cfg.mtu - OVERHEAD;
      var left := budget;
      out', lost := out, false;
      ghost var goal := DrainTx(cfg, View(), out, budget);
      while tx.count > 0 && out'.Outstanding() < cfg.sendWindow
        invariant Valid() && !lost
        invariant DrainTx(cfg, View(), out', left) == goal
        decreases tx.count
      {
        ghost var before := View();
        var n := if tx.count < mss then tx.count else mss;
        var message := tx.Read(n);
        assert before.tx[..n] == message && before.tx[n..] == tx.Contents();
        FillOnce(cfg, before, out', left, n, View());
        if left == 0 {
          fatal, lost := ERR_IO, true;
          waitsnd := out'.Outstanding();
          return;
        }
        out' := out'.(sent := out'.sent + [message]);
        left := left - 1;
      }
      FillDone(cfg, View(), out', left);
      waitsnd := out'.Outstanding();
    }

    /** Messages are taken until the next one is missing or does not fit. */
    method TakeFromKcp(inn: Wire) returns (inn': Wire)
      requires Valid()
      modifies `fatal, rx, rx.data
      ensures Valid() && (View(), inn') == DrainRx(cfg, old(View()), inn)
      ensures RxDone(cfg, View(), inn')
    {
      inn' := inn;
      while fatal == OK
        invariant Valid()
        invariant DrainRx(cfg, View(), inn') == DrainRx(cfg, old(View()), inn)
        decreases |inn.sent| - inn'.received, fatal == OK
        invariant inn'.sent == inn.sent
      {
        if !inn'.Ready() { return; }
        var message := inn'.sent[inn'.received];
        if |message| > cfg.rxSize - rx.count { return; }
        if |message| > cfg.mtu {
          fatal := ERR_IO;
          return;
        }
        rx.Write(message);
        inn' := inn'.(received := inn'.received + 1);
      }
    }

    method TurnBegin(out: Wire, inn: Wire, budget: nat) returns (out': Wire, inn': Wire, ghost lost: bool)
      requires Valid()
      modifies Repr()
      ensures Valid() && (View(), out', inn', lost) == Poll(cfg, old(View()), out, inn, budget)
      ensures !old(closing) && fatal == OK ==>
        View().input == [] && (View().tx == [] || out'.Outstanding() >= cfg.sendWindow) && waitsnd == out'.Outstanding()
      ensures phase == if old(closing) then Stopped else Updating
    {
      if closing {
        phase := Stopped;
        return out, inn, false;
      }
      out', inn' := FeedKcp(out, inn);
      out', lost := FillKcp(out', budget);
      phase := Updating;
    }

    method TurnEnd(out: Wire, inn: Wire) returns (inn': Wire)
      requires Valid()
      modifies Repr()
      ensures Valid() && (View(), inn') == Collect(cfg, old(View()), out, inn)
      ensures RxDone(cfg, View(), inn') && waitsnd == out.Outstanding()
      ensures if fatal == OK then phase == Polling && closing == old(closing) else phase == Stopped && closing
    {
      inn' := TakeFromKcp(inn);
      waitsnd := out.Outstanding();
      if fatal != OK {
        closing, phase := true, Stopped;
      } else {
        phase := Polling;
      }
    }

    /** Write takes all of its bytes exactly when an open stream has room for them, waits
        exactly when it could have, and otherwise changes nothing. */
    method TryWrite(data: seq<byte>) returns (outcome: Outcome)
      requires Valid()
      modifies tx, tx.data
      ensures Valid() && (View(), outcome) == Write(cfg, old(View()), data)
      ensures outcome == Returned(OK) <==> data == [] || (!closing && |old(View()).tx| + |data| <= cfg.txSize)
      ensures outcome.Blocked? <==> !closing && |data| <= cfg.txSize < |old(View()).tx| + |data| && data != []
      ensures View() == old(View()).(tx := old(View()).tx + if outcome == Returned(OK) then data else [])
    {
      if data == [] { return Returned(OK); }
      if |data| > cfg.txSize { return Returned(ERR_NO_SPACE); }
      if closing { return Returned(if fatal != OK then fatal else ERR_CLOSED); }
      if cfg.txSize - tx.count < |data| { return Blocked; }
      tx.Write(data);
      return Returned(OK);
    }

    /** Read takes the oldest bytes, as many as there are up to `size`; it waits exactly on
        an empty ring of an open stream. */
    method TryRead(size: nat) returns (data: seq<byte>, outcome: Outcome)
      requires Valid()
      modifies rx
      ensures Valid() && (View(), data, outcome) == Read(old(View()), size)
      ensures outcome == Returned(OK) <==> size == 0 || old(View()).rx != []
      ensures outcome.Blocked? <==> size > 0 && old(View()).rx == [] && !closing
      ensures data + View().rx == old(View()).rx && (|data| == size || (|data| < size && View().rx == []))
    {
      if size == 0 { return [], Returned(OK); }
      if rx.count == 0 {
        return [], if !closing then Blocked else Returned(if fatal != OK then fatal else ERR_CLOSED);
      }
      ghost var before := View();
      var n := if rx.count < size then rx.count else size;
      data := rx.Read(n);
      assert before.rx[..n] == data && before.rx[n..] == rx.Contents();
      outcome := Returned(OK);
    }

    /** Flush succeeds exactly on a healthy stream with nothing unsent or unacknowledged, and
        waits exactly while something is and the stream is open. */
    method TryFlush() returns (outcome: Outcome)
      requires Valid()
      ensures outcome == Flush(View())
      ensures outcome == Returned(OK) <==> fatal == OK && View().tx == [] && waitsnd <= 0
      ensures outcome.Blocked? <==> !closing && (View().tx != [] || waitsnd > 0)
    {
      var pending := tx.count > 0 || waitsnd > 0;
      if pending && !closing { return Blocked; }
      return Returned(if fatal != OK then fatal else if pending then ERR_CLOSED else OK);
    }

    /** The first reason to close is the one that stays, no byte is lost by closing, and
        nobody waits on a closed stream. */
    method Shut(status: int)
      requires Valid()
      modifies `closing, `fatal
      ensures Valid() && View() == MarkClosed(old(View()), status)
      ensures closing && (old(closing) ==> fatal == old(fatal))
      ensures View().tx == old(View().tx) && View().rx == old(View().rx)
      ensures Flush(View()).Returned?
    {
      if !closing {
        closing := true;
        if status != ERR_CLOSED && status != OK { fatal := status; }
      }
    }
  }
}
