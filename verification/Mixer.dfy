/** Track slots of the audio mixer and what each critical section of the track mutex
    does to one of them. */
module Mixer {
  import opened Optional

  /** One slot; `incarnation` counts how often create_track took it. */
  datatype Slot = Slot(
    active: bool, closing: bool, closeInProgress: bool, closed: bool,
    queue: bool, drain: bool, queueClosed: bool, drainClosed: bool,
    operations: nat, failed: bool, incarnation: nat)

  const UNUSED := Slot(false, false, false, false, false, false, false, false, 0, false, 0)

  /** create_track takes only such a slot. */
  predicate Available(s: Slot) { !s.active && !s.closing }

  /** operation_begin. */
  function Begin(s: Slot): Option<Slot> {
    if !s.active || s.closing || s.closed || !s.queue then None
    else Some(s.(operations := s.operations + 1))
  }

  /** operation_end; `woken`: the broadcast to a waiting closer, if needed, succeeds. */
  function End(s: Slot, woken: bool): Slot {
    if s.operations == 0 then s else
    var t := s.(operations := s.operations - 1);
    if t.closing && t.operations == 0 && !woken then t.(failed := true) else t
  }

  datatype Entry = AlreadyClosed | NotOpen | Contended | CloseFailed | Owns

  /** The first part of track_close, up to owning the close; `queueOk` and `drainOk`: the
      two queue closes succeed. */
  function Enter(s: Slot, queueOk: bool, drainOk: bool): (r: (Slot, Entry))
    ensures r.0.active == s.active && r.0.operations == s.operations && r.0.incarnation == s.incarnation
    ensures r.0.closeInProgress == (s.closeInProgress || r.1.Owns?) && !(s.closeInProgress && r.1.Owns?)
    ensures SlotOk(s) ==> SlotOk(r.0)
    ensures Available(s) ==> r.0 == s
    ensures r.1.AlreadyClosed? ==> Available(r.0)
  {
    if !s.active && s.closed && !s.closing && !s.queue && !s.drain then (s, AlreadyClosed)
    else if !s.active && !s.closing then (s, NotOpen)
    else if s.closeInProgress then (s, Contended)
    else
      var t := s.(closing := true,
                  queueClosed := s.queueClosed || (s.queue && queueOk),
                  drainClosed := s.drainClosed || (s.drain && drainOk));
      if (s.queue && !t.queueClosed) || (s.drain && !t.drainClosed) then (t, CloseFailed)
      else (t.(closeInProgress := true), Owns)
  }

  datatype Exit = Busy | WaitFailed | OperationFailed | WakeFailed | Closed

  /** The rest of track_close each time its owner holds the mutex; `waitOk`: waiting for
      operations does not fail, `woken`: the final broadcast succeeds. */
  function Finish(s: Slot, waitOk: bool, woken: bool): (r: (Slot, Exit))
    ensures r.0.operations == s.operations && r.0.incarnation == s.incarnation
    ensures r.0.active != s.active ==> s.operations == 0
    ensures r.0.closeInProgress == (s.closeInProgress && r.1.Busy?)
    ensures SlotOk(s) ==> SlotOk(r.0)
    ensures r.1.Closed? ==> Available(r.0)
  {
    if s.operations > 0 then
      if waitOk then (s, Busy) else (s.(closeInProgress := false), WaitFailed)
    else if s.failed then (s.(failed := false, closeInProgress := false), OperationFailed)
    else
      var t := s.(queue := false, drain := false, active := false, closeInProgress := false,
                  closed := true, queueClosed := false, drainClosed := false);
      if woken then (t.(closing := false), Closed) else (t, WakeFailed)
  }

  /** What the mixer's read does to a slot: mix_track_frame gives up a track without a queue. */
  function Mix(s: Slot): Slot {
    if s.active && !s.closing && !s.queue then s.(active := false) else s
  }

  /** create_track on an available slot. */
  function Create(s: Slot, made: bool): Slot {
    var t := UNUSED.(incarnation := s.incarnation + 1);
    if made then t.(active := true, queue := true, drain := true) else t
  }

  function FirstAvailable(slots: seq<Slot>): (i: nat)
    ensures i <= |slots|
    ensures i < |slots| ==> Available(slots[i])
    ensures forall j :: 0 <= j < i ==> !Available(slots[j])
  {
    if slots == [] || Available(slots[0]) then 0 else 1 + FirstAvailable(slots[1..])
  }

  /** What every slot satisfies whenever the mutex is free. */
  predicate SlotOk(s: Slot) {
    && (s.active ==> s.queue && s.drain && !s.closed)
    && (!s.active ==> !s.queue && !s.drain && s.operations == 0)
    && (!s.active && s.closing ==> s.closed)
    && (s.closeInProgress ==> s.closing)
  }

  // ---- the slot array ----

  class SlotTable {
    const slots: array<Slot>
    var closingAll: bool

    ghost predicate Valid()
      reads slots
    {
      forall i :: 0 <= i < slots.Length ==> SlotOk(slots[i])
    }

    constructor (count: nat)
      ensures fresh(slots) && slots.Length == count && !closingAll && Valid()
      ensures forall i :: 0 <= i < count ==> slots[i] == UNUSED
    {
      slots := new Slot[count](_ => UNUSED);
      closingAll := false;
    }

    /** An operation starts exactly on an open track, whose queues are then there. */
    method BeginOperation(i: nat) returns (ok: bool)
      requires i < slots.Length && Valid()
      modifies slots
      ensures Valid()
      ensures ok <==> Begin(old(slots[i])).Some?
      ensures slots[..] == if ok then old(slots[..])[i := Begin(old(slots[i])).value] else old(slots[..])
      ensures ok <==> old(slots[i].active && !slots[i].closing)
      ensures ok ==> slots[i].queue && slots[i].drain && slots[i].operations > 0
    {
      var s := slots[i];
      if !s.active || s.closing || s.closed || !s.queue { return false; }
      slots[i] := s.(operations := s.operations + 1);
      return true;
    }

    /** Ending an operation takes it back and nothing else, unless it was the last one of a
        closing track and its closer could not be woken. */
    method EndOperation(i: nat, woken: bool)
      requires i < slots.Length && Valid()
      modifies slots
      ensures Valid()
      ensures slots[..] == old(slots[..])[i := End(old(slots[i]), woken)]
      ensures old(slots[i].operations) > 0 && (woken || !old(slots[i].closing)) ==>
        slots[i].(operations := slots[i].operations + 1) == old(slots[i])
      ensures slots[i].failed && !old(slots[i].failed) ==> slots[i].closing && slots[i].operations == 0
    {
      var s := slots[i];
      if s.operations == 0 { return; }
      s := s.(operations := s.operations - 1);
      if s.closing && s.operations == 0 && !woken { s := s.(failed := true); }
      slots[i] := s;
    }

    /** Whatever comes of entering a close, the track keeps its queues and its operations;
        only one closer owns it, no new operation can start, and a failed entry can be
        tried again. */
    method EnterClose(i: nat, queueOk: bool, drainOk: bool) returns (entry: Entry)
      requires i < slots.Length && Valid()
      modifies slots
      ensures Valid()
      ensures slots[..] == old(slots[..])[i := Enter(old(slots[i]), queueOk, drainOk).0]
      ensures entry == Enter(old(slots[i]), queueOk, drainOk).1
      ensures slots[i].queue == old(slots[i].queue) && slots[i].drain == old(slots[i].drain)
      ensures slots[i].operations == old(slots[i].operations) && slots[i].incarnation == old(slots[i].incarnation)
      ensures entry.Owns? || entry.CloseFailed? ==> Begin(slots[i]).None? && !old(slots[i].closeInProgress)
      ensures entry.Owns? <==> slots[i].closeInProgress && !old(slots[i].closeInProgress)
      ensures entry.AlreadyClosed? || entry.NotOpen? <==> Available(old(slots[i]))
      ensures entry.AlreadyClosed? ==> old(slots[i].closed)
      ensures entry.Contended? <==> !Available(old(slots[i])) && old(slots[i].closeInProgress)
      ensures entry.CloseFailed? || entry.Owns? <==> !Available(old(slots[i])) && !old(slots[i].closeInProgress)
      ensures entry.CloseFailed? ==> !(queueOk && drainOk)
      ensures entry.Owns? ==> (slots[i].queue ==> slots[i].queueClosed) && (slots[i].drain ==> slots[i].drainClosed)
    {
      var s := slots[i];
      if !s.active && s.closed && !s.closing && !s.queue && !s.drain { return AlreadyClosed; }
      if !s.active && !s.closing { return NotOpen; }
      if s.closeInProgress { return Contended; }
      s := s.(closing := true, closeInProgress := true);
      var failed := false;
      if s.queue && !s.queueClosed {
        if queueOk { s := s.(queueClosed := true); } else { failed := true; }
      }
      if s.drain && !s.drainClosed {
        if drainOk { s := s.(drainClosed := true); } else { failed := true; }
      }
      if failed { s := s.(closeInProgress := false); }
      slots[i] := s;
      return if failed then CloseFailed else Owns;
    }

    /** The queues go only once no operation is in flight; a slot is free again exactly
        after a close that succeeded; every other way out leaves it to a later close. */
    method FinishClose(i: nat, waitOk: bool, woken: bool) returns (exit: Exit)
      requires i < slots.Length && Valid()
      modifies slots
      ensures Valid()
      ensures slots[..] == old(slots[..])[i := Finish(old(slots[i]), waitOk, woken).0]
      ensures exit == Finish(old(slots[i]), waitOk, woken).1
      ensures old(slots[i].queue) && !slots[i].queue ==> old(slots[i].operations) == 0
      ensures old(slots[i].closeInProgress) ==> (Available(slots[i]) <==> exit.Closed?)
      ensures old(slots[i].closeInProgress) && !exit.Closed? && !exit.Busy? ==>
        slots[i].closing && !slots[i].closeInProgress
      ensures exit.Busy? || exit.WaitFailed? || exit.OperationFailed? ==> slots[i].queue == old(slots[i].queue)
      ensures exit.Busy? || exit.WaitFailed? <==> old(slots[i].operations) > 0
      ensures exit.Closed? <==> old(slots[i].operations) == 0 && !old(slots[i].failed) && woken
      ensures exit.Closed? || exit.WakeFailed? ==> !slots[i].queue && !slots[i].drain && !slots[i].active
    {
      var s := slots[i];
      if s.operations > 0 {
        if waitOk { return Busy; }
        slots[i] := s.(closeInProgress := false);
        return WaitFailed;
      }
      if s.failed {
        slots[i] := s.(failed := false, closeInProgress := false);
        return OperationFailed;
      }
      s := s.(queue := false, drain := false);
      s := s.(active := false, closeInProgress := false, closed := true, queueClosed := false, drainClosed := false);
      if !woken {
        slots[i] := s;
        return WakeFailed;
      }
      slots[i] := s.(closing := false);
      return Closed;
    }

    /** One read of the mixer, which takes a frame from each open track up to the one that
        fails, or from all. It finds a queue in each and gives up none of them. */
    method MixTracks(failing: nat) returns (heard: seq<nat>)
      requires Valid()
      modifies slots
      ensures Valid() && slots[..] == old(slots[..])
      ensures forall k :: 0 <= k < |heard| ==>
        heard[k] < slots.Length && heard[k] <= failing && slots[heard[k]].queue && !slots[heard[k]].closing
      ensures forall i :: 0 <= i < slots.Length && i <= failing && slots[i].active && !slots[i].closing ==> i in heard
    {
      heard := [];
      var i := 0;
      while i < slots.Length && i <= failing
        invariant 0 <= i <= slots.Length
        invariant slots[..] == old(slots[..])
        invariant forall k :: 0 <= k < |heard| ==>
          heard[k] < i && heard[k] <= failing && slots[heard[k]].queue && !slots[heard[k]].closing
        invariant forall j :: 0 <= j < i && slots[j].active && !slots[j].closing ==> j in heard
      {
        if slots[i].active && !slots[i].closing {
          assert SlotOk(slots[i]);
          slots[i] := Mix(slots[i]);
          assert slots[..] == old(slots[..]);
          heard := heard + [i];
        }
        i := i + 1;
      }
      assert forall j :: 0 <= j < slots.Length ==> slots[j] == old(slots[j]);
    }

    /** Returns the slot taken, or the slot count when there is none. */
    method TakeSlot(made: bool) returns (i: nat)
      requires Valid()
      modifies slots
      ensures Valid()
      ensures i == if closingAll then slots.Length else FirstAvailable(old(slots[..]))
      ensures i < slots.Length ==> Available(old(slots[..])[i]) && !closingAll
      ensures i >= slots.Length && !closingAll ==> forall j :: 0 <= j < slots.Length ==> !Available(slots[j])
      // a track that was made is open and an operation can begin on it; else the slot is free
      ensures i < slots.Length && made ==> slots[i].active && slots[i].queue && slots[i].drain && Begin(slots[i]).Some?
      ensures i < slots.Length && made ==> slots[i].operations == 0 && !slots[i].failed && !slots[i].queueClosed && !slots[i].drainClosed
      ensures i < slots.Length && !made ==> Available(slots[i]) && Begin(slots[i]).None?
      ensures i < slots.Length ==> slots[i].incarnation == old(slots[..])[i].incarnation + 1
      ensures slots[..] == if i < slots.Length then old(slots[..])[i := Create(old(slots[..])[i], made)] else old(slots[..])
    {
      if closingAll { return slots.Length; }
      i := 0;
      while i < slots.Length && !(!slots[i].active && !slots[i].closing)
        invariant 0 <= i <= slots.Length
        invariant FirstAvailable(slots[..]) == i + FirstAvailable(slots[i..])
      {
        assert slots[i..][1..] == slots[i + 1..];
        i := i + 1;
      }
      if i < slots.Length { slots[i] := Create(slots[i], made); }
    }
  }
}
