/** The process-wide registry that lets ikcp's free hook release every block through the
    allocator it came from. */
module KcpRegistry {
  import opened Optional

  /** A PAL allocator, identified by its function table and context. */
  type Allocator = nat

  datatype Entry = Entry(address: nat, allocator: Allocator)

  const NULL: nat := 0
  const SIZE_MAX: nat := 0xffff_ffff_ffff_ffff
  const UINT_MAX: nat := 0xffff_ffff
  /** sizeof(h2_bleikcp_kcp_block_t) on a 64-bit target; only its sign matters here. */
  const HEADER: nat := 48

  datatype Release = Nothing | ToPal(allocator: Allocator, address: nat) | ToLibc(address: nat)

  // ---- the registry as a list of entries ----

  function Find(blocks: seq<Entry>, address: nat): (i: nat)
    ensures i <= |blocks|
    ensures i < |blocks| ==> blocks[i].address == address
    ensures forall j :: 0 <= j < i ==> blocks[j].address != address
  {
    if blocks == [] || blocks[0].address == address then 0 else 1 + Find(blocks[1..], address)
  }

  function Remove(blocks: seq<Entry>, address: nat): seq<Entry> {
    var i := Find(blocks, address);
    if address != NULL && i < |blocks| then blocks[..i] + blocks[i + 1..] else blocks
  }

  function ReleaseOf(blocks: seq<Entry>, address: nat): Release {
    var i := Find(blocks, address);
    if address == NULL then Nothing
    else if i < |blocks| then ToPal(blocks[i].allocator, address) else ToLibc(address)
  }

  // ---- the linked list ----

  class Block {
    const address: nat
    const allocator: Allocator
    var next: Block?

    constructor (address: nat, allocator: Allocator, next: Block?)
      ensures this.address == address && this.allocator == allocator && this.next == next
    {
      this.address, this.allocator, this.next := address, allocator, next;
    }
  }

  /** The block at `i`, or null behind the last. */
  ghost function At(chain: seq<Block>, i: nat): Block? { if i < |chain| then chain[i] else null }

  ghost predicate PointsOn(chain: seq<Block>, i: nat)
    requires i < |chain|
    reads chain
  {
    chain[i].next == At(chain, i + 1)
  }

  /** `chain` is the list that starts at `first`. */
  ghost predicate Linked(first: Block?, chain: seq<Block>)
    reads chain
  {
    && first == At(chain, 0)
    && (forall i :: 0 <= i < |chain| ==> PointsOn(chain, i))
    && Distinct(chain)
  }

  ghost predicate Distinct(chain: seq<Block>) { forall i, j :: 0 <= i < j < |chain| ==> chain[i] != chain[j] }

  ghost function Entries(chain: seq<Block>): (es: seq<Entry>)
    ensures |es| == |chain|
    ensures forall i :: 0 <= i < |chain| ==> es[i] == Entry(chain[i].address, chain[i].allocator)
  {
    seq(|chain|, i requires 0 <= i < |chain| => Entry(chain[i].address, chain[i].allocator))
  }

  class Registry {
    var first: Block?
    var ready: bool
    var references: nat
    ghost var chain: seq<Block>

    ghost predicate Valid()
      reads this, chain
    {
      Linked(first, chain)
    }

    ghost function Blocks(): seq<Entry> reads this { Entries(chain) }

    constructor ()
      ensures Valid() && Blocks() == [] && !ready && references == 0
    {
      first, ready, references, chain := null, false, 0, [];
    }

    /** kcp_alloc under the calling thread's allocator context; `granted` is what the
        allocator, or malloc, returns. */
    method Alloc(context: Option<Allocator>, size: nat, granted: nat) returns (pointer: nat)
      requires Valid()
      modifies `first, `chain
      ensures Valid()
      ensures pointer == if context.Some? && size > SIZE_MAX - HEADER then NULL else granted
      ensures Blocks() == (if context.Some? && pointer != NULL then [Entry(pointer, context.value)] else []) + old(Blocks())
    {
      hide Entries;
      if context.None? { return granted; }
      if size > SIZE_MAX - HEADER { return NULL; }
      if granted == NULL { return NULL; }
      Link(granted, context.value);
      return granted;
    }

    method Link(address: nat, allocator: Allocator)
      requires Valid()
      modifies `first, `chain
      ensures Valid() && Blocks() == [Entry(address, allocator)] + old(Blocks())
    {
      var block := new Block(address, allocator, first);
      first := block;
      chain := [block] + chain;
      forall i | 0 <= i < |chain| ensures PointsOn(chain, i) {
        if i > 0 { assert chain[i] == old(chain)[i - 1] && PointsOn(old(chain), i - 1); }
      }
      EntriesWith(block, old(chain));
    }

    /** The walk of kcp_free: the first block with this address and the one before it. */
    method Locate(address: nat) returns (before: Block?, cursor: Block?, ghost i: nat)
      requires Valid()
      ensures i == Find(Blocks(), address) && cursor == At(chain, i)
      ensures if i == 0 then before == null else before == chain[i - 1]
    {
      hide Find, Entries;
      before, cursor, i := null, first, 0;
      while cursor != null && cursor.address != address
        invariant 0 <= i <= |chain| && cursor == At(chain, i)
        invariant if i == 0 then before == null else before == chain[i - 1]
        invariant forall j :: 0 <= j < i ==> chain[j].address != address
        decreases |chain| - i
      {
        assert PointsOn(chain, i);
        before, cursor := cursor, cursor.next;
        i := i + 1;
      }
      FoundAt(Blocks(), address, i);
    }

    method Unlink(before: Block?, block: Block, ghost i: nat)
      requires Valid() && i < |chain| && chain[i] == block
      requires if i == 0 then before == null else before == chain[i - 1]
      modifies `first, `chain, chain
      ensures Valid() && chain == old(chain)[..i] + old(chain)[i + 1..]
    {
      hide Entries;
      ghost var was := chain;
      assert Distinct(was) && PointsOn(was, i);
      if before == null { first := block.next; } else { before.next := block.next; }
      forall k | 0 <= k < |was| && k + 1 != i ensures PointsOn(was, k) { assert old(PointsOn(was, k)); }
      Unlinked(was, i);
      Relinked(was, i);
      chain := was[..i] + was[i + 1..];
    }

    /** kcp_free: unlink the block and give it back to its own allocator, or to libc. */
    method Free(address: nat) returns (release: Release)
      requires Valid()
      modifies `first, `chain, chain
      ensures Valid()
      ensures Blocks() == Remove(old(Blocks()), address)
      ensures release == ReleaseOf(old(Blocks()), address)
    {
      hide Find, Linked, Entries;
      if address == NULL { return Nothing; }
      var before, cursor, i := Locate(address);
      if cursor == null { return ToLibc(address); }
      release := ToPal(cursor.allocator, address);
      EntriesWithout(chain, i);
      Unlink(before, cursor, i);
    }

    method Init() returns (ok: bool)
      requires Valid()
      modifies `ready, `references
      ensures Valid()
      ensures ok <==> !(old(ready) && old(references) == UINT_MAX)
      ensures ready == (ok || old(ready))
      ensures references == if !ok then old(references) else if old(ready) then old(references) + 1 else 1
    {
      if ready {
        if references == UINT_MAX { return false; }
        references := references + 1;
        return true;
      }
      ready, references := true, 1;
      return true;
    }

    /** Only the last shutdown looks at the registry, and refuses while blocks are live. */
    method Shutdown() returns (ok: bool)
      requires Valid()
      modifies `ready, `references
      ensures Valid()
      ensures ok <==> old(ready) && (old(references) > 1 || Blocks() == [])
      ensures ready == (old(ready) && (!ok || old(references) > 1))
      ensures references == if !ok then old(references) else if old(references) > 1 then old(references) - 1 else 0
    {
      if !ready { return false; }
      if references > 1 {
        references := references - 1;
        return true;
      }
      if first != null { return false; }
      ready, references := false, 0;
      return true;
    }
  }

  lemma Unlinked(chain: seq<Block>, i: nat)
    requires i < |chain|
    ensures var less := chain[..i] + chain[i + 1..];
      forall k: nat :: At(less, k) == if k < i then chain[k] else At(chain, k + 1)
  {
  }

  lemma DistinctWithout(was: seq<Block>, i: nat)
    requires i < |was| && Distinct(was)
    ensures Distinct(was[..i] + was[i + 1..])
  {
    var less := was[..i] + was[i + 1..];
    forall j, k | 0 <= j < k < |less| ensures less[j] != less[k] {
      assert less[j] == was[if j < i then j else j + 1] && less[k] == was[if k < i then k else k + 1];
    }
  }

  /** With the block before it pointing past it, the chain without a block is linked. */
  lemma Relinked(was: seq<Block>, i: nat)
    requires i < |was| && Distinct(was)
    requires forall k :: 0 <= k < |was| && k + 1 != i ==> PointsOn(was, k)
    requires i > 0 ==> was[i - 1].next == At(was, i + 1)
    ensures var less := was[..i] + was[i + 1..]; Linked(At(less, 0), less)
  {
    hide Distinct;
    var less := was[..i] + was[i + 1..];
    Unlinked(was, i);
    DistinctWithout(was, i);
    forall k | 0 <= k < |less| ensures PointsOn(less, k) {
      assert less[k] == was[if k < i then k else k + 1];
      if k + 1 != i { assert PointsOn(was, if k < i then k else k + 1); }
    }
  }

  lemma EntriesWith(block: Block, chain: seq<Block>)
    ensures Entries([block] + chain) == [Entry(block.address, block.allocator)] + Entries(chain)
  {
    hide Entries;
  }

  lemma EntriesWithout(chain: seq<Block>, i: nat)
    requires i < |chain|
    ensures Entries(chain[..i] + chain[i + 1..]) == Entries(chain)[..i] + Entries(chain)[i + 1..]
  {
    hide Entries;
  }

  lemma FoundAt(blocks: seq<Entry>, address: nat, i: nat)
    requires i <= |blocks| && (forall j :: 0 <= j < i ==> blocks[j].address != address)
    requires i < |blocks| ==> blocks[i].address == address
    ensures Find(blocks, address) == i
  {
  }

  // ---- histories ----

  /** One hook call or one init/shutdown. An allocator never grants an address that is
      live. */
  datatype Event =
    | Alloc(context: Option<Allocator>, size: nat, granted: nat)
    | Free(address: nat)
    | Init
    | Shutdown

  /** The state, every release so far, and the results of init and shutdown. */
  datatype State = State(blocks: seq<Entry>, ready: bool, references: nat, releases: seq<Release>, results: seq<bool>)

  const EMPTY := State([], false, 0, [], [])

  ghost predicate Live(blocks: seq<Entry>, address: nat) { exists i :: 0 <= i < |blocks| && blocks[i].address == address }

  ghost function Next(s: State, e: Event): State {
    match e
    case Alloc(context, size, granted) =>
      if context.None? || size > SIZE_MAX - HEADER || granted == NULL || Live(s.blocks, granted) then s
      else s.(blocks := [Entry(granted, context.value)] + s.blocks)
    case Free(address) =>
      s.(blocks := Remove(s.blocks, address), releases := s.releases + [ReleaseOf(s.blocks, address)])
    case Init =>
      if !s.ready then s.(ready := true, references := 1, results := s.results + [true])
      else if s.references == UINT_MAX then s.(results := s.results + [false])
      else s.(references := s.references + 1, results := s.results + [true])
    case Shutdown =>
      if !s.ready then s.(results := s.results + [false])
      else if s.references > 1 then s.(references := s.references - 1, results := s.results + [true])
      else if s.blocks != [] then s.(results := s.results + [false])
      else s.(ready := false, references := 0, results := s.results + [true])
  }

  ghost function Run(history: seq<Event>): State {
    if history == [] then EMPTY else Next(Run(history[..|history| - 1]), history[|history| - 1])
  }

  /** Independent bookkeeping: which address is live and who allocated it, and what each
      free has to do. */
  datatype Ledger = Ledger(owner: map<nat, Allocator>, due: seq<Release>)

  function Book(l: Ledger, e: Event): Ledger {
    match e
    case Alloc(context, size, granted) =>
      if context.None? || size > SIZE_MAX - HEADER || granted == NULL || granted in l.owner then l
      else l.(owner := l.owner[granted := context.value])
    case Free(address) =>
      Ledger(l.owner - {address},
             l.due + [if address == NULL then Nothing else if address in l.owner then ToPal(l.owner[address], address) else ToLibc(address)])
    case _ => l
  }

  function BookAll(history: seq<Event>): Ledger {
    if history == [] then Ledger(map[], []) else Book(BookAll(history[..|history| - 1]), history[|history| - 1])
  }

  /** The list holds exactly the live blocks, each once, with its own allocator. */
  ghost predicate Agrees(blocks: seq<Entry>, owner: map<nat, Allocator>) {
    && (forall i, j :: 0 <= i < j < |blocks| ==> blocks[i].address != blocks[j].address)
    && (forall i :: 0 <= i < |blocks| ==> blocks[i].address in owner && owner[blocks[i].address] == blocks[i].allocator)
    && (forall a :: a in owner ==> a != NULL && Live(blocks, a))
  }

  lemma AllocAgrees(blocks: seq<Entry>, owner: map<nat, Allocator>, e: Entry)
    requires Agrees(blocks, owner) && !Live(blocks, e.address) && e.address != NULL
    ensures Agrees([e] + blocks, owner[e.address := e.allocator])
  {
    var more := [e] + blocks;
    forall a | a in owner[e.address := e.allocator] ensures Live(more, a) {
      if a == e.address {
        assert more[0].address == a;
      } else {
        var i :| 0 <= i < |blocks| && blocks[i].address == a;
        assert more[i + 1].address == a;
      }
    }
  }

  lemma FreeAgrees(blocks: seq<Entry>, owner: map<nat, Allocator>, address: nat)
    requires Agrees(blocks, owner)
    ensures Agrees(Remove(blocks, address), owner - {address})
  {
    var less := Remove(blocks, address);
    forall k | 0 <= k < |less|
      ensures less[k].address in owner - {address} && owner[less[k].address] == less[k].allocator
    {
      RemovedAt(blocks, owner, address, k);
    }
    forall j, k | 0 <= j < k < |less| ensures less[j].address != less[k].address {
      RemovedAt(blocks, owner, address, j);
      RemovedAt(blocks, owner, address, k);
    }
    forall a | a in owner - {address} ensures Live(less, a) {
      assert Live(blocks, a);
      StillLive(blocks, address, a);
    }
  }

  /** What is left lies where it lay, or one place further on. */
  lemma RemovedAt(blocks: seq<Entry>, owner: map<nat, Allocator>, address: nat, k: nat)
    requires Agrees(blocks, owner) && k < |Remove(blocks, address)|
    ensures var i := if k < Find(blocks, address) then k else k + 1;
      i < |blocks| && Remove(blocks, address)[k] == blocks[i] && blocks[i].address != address
  {
    hide Find, Live;
  }

  lemma StillLive(blocks: seq<Entry>, address: nat, a: nat)
    requires a != address && Live(blocks, a)
    ensures Live(Remove(blocks, address), a)
  {
    hide Find;
    var i, less := Find(blocks, address), Remove(blocks, address);
    var k :| 0 <= k < |blocks| && blocks[k].address == a;
    assert less[if less == blocks || k < i then k else k - 1].address == a;
  }

  lemma ReleaseAgrees(blocks: seq<Entry>, owner: map<nat, Allocator>, address: nat)
    requires Agrees(blocks, owner)
    ensures ReleaseOf(blocks, address)
      == if address == NULL then Nothing else if address in owner then ToPal(owner[address], address) else ToLibc(address)
  {
    hide Find;
    if address in owner { assert Live(blocks, address); }
  }

  ghost predicate Booked(s: State, l: Ledger) {
    Agrees(s.blocks, l.owner) && s.releases == l.due && (s.ready <==> s.references > 0)
  }

  lemma StepBooked(s: State, l: Ledger, e: Event)
    requires Booked(s, l)
    ensures Booked(Next(s, e), Book(l, e))
  {
    hide Remove, ReleaseOf;
    match e
    case Alloc(context, size, granted) =>
      if context.Some? && granted != NULL {
        assert granted in l.owner <==> Live(s.blocks, granted);
        if !Live(s.blocks, granted) { AllocAgrees(s.blocks, l.owner, Entry(granted, context.value)); }
      }
    case Free(address) =>
      FreeAgrees(s.blocks, l.owner, address);
      ReleaseAgrees(s.blocks, l.owner, address);
    case _ =>
  }

  /** After every history the registry is the ledger of live blocks, and every free went
      where the ledger says. */
  lemma {:induction false} RegistryIsLedger(history: seq<Event>)
    ensures Booked(Run(history), BookAll(history))
  {
    if history != [] {
      var before := history[..|history| - 1];
      RegistryIsLedger(before);
      StepBooked(Run(before), BookAll(before), history[|history| - 1]);
    }
  }

  /** The shutdown that would be the last succeeds exactly when no PAL block is live. */
  lemma LastShutdown(history: seq<Event>)
    requires Run(history).ready && Run(history).references == 1
    ensures var after := Run(history + [Shutdown]);
      && after.results == Run(history).results + [BookAll(history).owner == map[]]
      && (after.ready <==> BookAll(history).owner != map[])
  {
    RegistryIsLedger(history);
    var s, owner := Run(history), BookAll(history).owner;
    assert (history + [Shutdown])[..|history|] == history;
    assert s.blocks == [] <==> owner == map[] by {
      if s.blocks != [] { assert s.blocks[0].address in owner; }
      assert forall a :: a in owner ==> Live(s.blocks, a);
    }
  }
}
