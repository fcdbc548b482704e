/** One cycle of the live polling engine: read the checkpoint, choose the
    start block, query the chain batch by batch, register every new
    TokensBought event whose project is known, and write the checkpoint
    after every batch. The chain is a set of oracles; the checkpoint file,
    the registry table and the requests issued are the state. */
module Poll {
  import opened Types
  import opened Registry
  import opened Checkpoint
  import opened BlockRange

  /** Decimals of the stable coin in which cost, fee and price are paid. */
  const WUSDT_DECIMALS: nat := 6

  /** The decoded arguments of one TokensBought log (uint256 values). */
  datatype Args = Args(
    buyer: Address,
    tokenAmount: nat,
    totalCost: nat,
    fee: nat,
    price: nat,
    projectAddress: Address)

  /** One log returned for the event filter; `args` is None when the log
      was not decoded. */
  datatype Event = Event(transactionHash: Hash, blockNumber: int, args: Option<Args>)

  /** The chain as a cycle sees it. `blockNumber` is None when setting up
      the provider or asking for the height fails; `queryFilter` answers
      None when the request throws; `getBlockFails` says whether fetching
      a block's timestamp throws. */
  datatype Chain = Chain(
    blockNumber: Option<int>,
    queryFilter: (int, int) -> Option<seq<Event>>,
    getBlockFails: int -> bool)

  function Pow10(n: nat): (p: nat)
    ensures p >= 1
  {
    if n == 0 then 1 else 10 * Pow10(n - 1)
  }

  /** `formatUnits(v, decimals)` read back as a number: the fixed-point
      integer v scaled down by 10^decimals. */
  function FromUnits(v: nat, decimals: nat): (x: real)
    ensures x * (Pow10(decimals) as real) == v as real
    ensures x >= 0.0
  {
    (v as real) / (Pow10(decimals) as real)
  }

  lemma DecodeExample()
    ensures FromUnits(1500000, WUSDT_DECIMALS) == 1.5
  {
    assert Pow10(WUSDT_DECIMALS) == 1000000;
  }

  /** The row written for a purchase of a known project. */
  function NewRecord(hash: Hash, a: Args, projectId: ProjectId): Record {
    Record(
      projectTokenAddress := a.projectAddress,
      userWhoBuys := a.buyer,
      tokenAmount := Num(a.tokenAmount as real),
      wusdtAmount := Num(FromUnits(a.totalCost, WUSDT_DECIMALS)),
      transactionHash := hash,
      tokenPrice := Num(FromUnits(a.price, WUSDT_DECIMALS)),
      status := Approved,
      transactionType := BuyProjectToken,
      marketType := Primary,
      receiptLink := ReceiptLink(hash),
      feesWUSDT := Num(FromUnits(a.fee, WUSDT_DECIMALS)),
      projectId := projectId,
      userWhoSells := None,
      transactionHashOrder := None,
      purchasePrice := None,
      salePrice := None,
      orderBookTransactionSharedId := None)
  }

  /** The registry after handling some events, and whether handling threw. */
  datatype EventsResult = EventsResult(registry: seq<Record>, threw: bool)

  /** Handling of one event: skip it without arguments, when its hash is
      registered or when its project is unknown; otherwise insert its row
      and then fetch its block, which may throw. */
  function HandleEvent(reg: seq<Record>, projects: map<Address, ProjectId>, chain: Chain, e: Event): EventsResult {
    if e.args.None? then EventsResult(reg, false)
    else if Registered(reg, e.transactionHash) then EventsResult(reg, false)
    else if e.args.value.projectAddress !in projects then EventsResult(reg, false)
    else
      var rec := NewRecord(e.transactionHash, e.args.value, projects[e.args.value.projectAddress]);
      EventsResult(reg + [rec], chain.getBlockFails(e.blockNumber))
  }

  /** The events of one batch, in the order the chain returned them; the
      first throw ends the batch. */
  function HandleEvents(reg: seq<Record>, projects: map<Address, ProjectId>, chain: Chain, events: seq<Event>): EventsResult
    decreases |events|
  {
    if events == [] then EventsResult(reg, false)
    else
      var r := HandleEvent(reg, projects, chain, events[0]);
      if r.threw then r else HandleEvents(r.registry, projects, chain, events[1..])
  }

  /** What one cycle can change: the checkpoint file's content (None when
      absent), the registry rows, the windows queried so far and the number
      of pauses taken between requests. */
  datatype PollState = PollState(
    checkpointFile: Option<string>,
    registry: seq<Record>,
    queries: seq<Window>,
    pauses: nat)

  /** One batch: query the window, handle its events, write the
      checkpoint and pause when more batches follow. The state after it,
      and whether it threw (then the checkpoint is not written). An empty
      batch writes the checkpoint and moves on without pausing. */
  function RunBatch(s: PollState, projects: map<Address, ProjectId>, chain: Chain, w: Window, current: int): (PollState, bool) {
    var s1 := s.(queries := s.queries + [w]);
    match chain.queryFilter(w.from, w.to)
    case None => (s1, true)
    case Some(events) => StoreBatch(s1, projects, chain, w, events, current)
  }

  /** What a batch whose query answered `events` does: handle them, then
      write the checkpoint and pause unless it threw (an empty batch
      writes the checkpoint and does not pause). */
  function StoreBatch(s: PollState, projects: map<Address, ProjectId>, chain: Chain, w: Window, events: seq<Event>, current: int): (PollState, bool) {
    if |events| == 0 then (s.(checkpointFile := Some(FormatBlock(w.to))), false)
    else
      var r := HandleEvents(s.registry, projects, chain, events);
      if r.threw then (s.(registry := r.registry), true)
      else (FinishBatch(s.(registry := r.registry), w, current), false)
  }

  /** After a batch whose events were all handled: the checkpoint moves to
      the end of the window, and the loop pauses unless it was the last. */
  function FinishBatch(s: PollState, w: Window, current: int): PollState {
    s.(checkpointFile := Some(FormatBlock(w.to)), pauses := if w.to < current then s.pauses + 1 else s.pauses)
  }

  /** The batch loop from block `i`: the final state and, when a batch
      threw, the window it threw in. */
  function RunBatches(s: PollState, projects: map<Address, ProjectId>, chain: Chain, i: int, current: int): (PollState, Option<Window>)
    decreases if i <= current then current - i + 1 else 0
  {
    if i > current then (s, None)
    else
      var w := Window(i, Min(i + MAX_BLOCK_RANGE - 1, current));
      var b := RunBatch(s, projects, chain, w, current);
      if b.1 then (b.0, Some(w)) else RunBatches(b.0, projects, chain, i + MAX_BLOCK_RANGE, current)
  }

  /** How a cycle ended (the source only logs it). */
  datatype Outcome = SetupFailed | NothingToScan | Completed | Aborted(window: Window)

  /** One whole cycle, `newPollAndStoreMpTokensBoughtEvents`. */
  function Cycle(s: PollState, projects: map<Address, ProjectId>, chain: Chain): (PollState, Outcome) {
    match chain.blockNumber
    case None => (s, SetupFailed)
    case Some(current) =>
      var from := StartBlock(ReadCheckpoint(s.checkpointFile), current);
      if from > current then (s.(checkpointFile := Some(FormatBlock(current))), NothingToScan)
      else
        var (s', failed) := RunBatches(s, projects, chain, from, current);
        (s', if failed.Some? then Aborted(failed.value) else Completed)
  }

  /** Cycles run one after another, each against the chain of its time. */
  function Cycles(s: PollState, projects: map<Address, ProjectId>, chains: seq<Chain>): PollState
    decreases |chains|
  {
    if chains == [] then s else Cycles(Cycle(s, projects, chains[0]).0, projects, chains[1..])
  }

  /** An event without arguments, with a registered hash or with an unknown
      project changes nothing and does not throw. */
  lemma SkippedEventChangesNothing(reg: seq<Record>, projects: map<Address, ProjectId>, chain: Chain, e: Event)
    requires e.args.None? || Registered(reg, e.transactionHash) || e.args.value.projectAddress !in projects
    ensures HandleEvent(reg, projects, chain, e) == EventsResult(reg, false)
  {
  }

  /** Any other event adds exactly one row: an approved primary-market
      purchase of the event's project, with its receipt link. */
  lemma InsertedRecord(reg: seq<Record>, projects: map<Address, ProjectId>, chain: Chain, e: Event)
    requires e.args.Some? && !Registered(reg, e.transactionHash) && e.args.value.projectAddress in projects
    ensures var r := HandleEvent(reg, projects, chain, e);
      var rec := r.registry[|reg|];
      && |r.registry| == |reg| + 1 && r.registry[..|reg|] == reg
      && rec.transactionHash == e.transactionHash
      && rec.status == Approved && rec.transactionType == BuyProjectToken && rec.marketType == Primary
      && rec.receiptLink == "https://polygonscan.com/tx/" + e.transactionHash
      && rec.projectId == projects[e.args.value.projectAddress]
      && rec.projectTokenAddress == e.args.value.projectAddress
      && rec.userWhoBuys == e.args.value.buyer
      && rec.wusdtAmount == Num(FromUnits(e.args.value.totalCost, WUSDT_DECIMALS))
      && r.threw == chain.getBlockFails(e.blockNumber)
  {
    var r := HandleEvent(reg, projects, chain, e);
    assert r.registry[..|reg|] == reg;
  }

  /** The dedup rule within one batch, duplicates in the batch included. */
  lemma {:induction false} HandleEventsExtends(reg: seq<Record>, projects: map<Address, ProjectId>, chain: Chain, events: seq<Event>)
    ensures Extends(reg, HandleEvents(reg, projects, chain, events).registry)
    decreases |events|
  {
    ExtendsRefl(reg);
    if events != [] {
      var r := HandleEvent(reg, projects, chain, events[0]);
      if r.registry != reg {
        ExtendsInsert(reg, reg, r.registry[|reg|]);
        assert r.registry == reg + [r.registry[|reg|]];
      }
      if !r.threw {
        HandleEventsExtends(r.registry, projects, chain, events[1..]);
        ExtendsTrans(reg, r.registry, HandleEvents(r.registry, projects, chain, events[1..]).registry);
      }
    }
  }

  /** An event the batch does not skip for missing arguments or an unknown
      project. */
  predicate Storable(projects: map<Address, ProjectId>, e: Event) {
    e.args.Some? && e.args.value.projectAddress in projects
  }

  /** An event with arguments and a known project has a row after it is
      handled, whether or not fetching its block throws; handling it only
      extends the registry. */
  lemma HandleEventRegisters(reg: seq<Record>, projects: map<Address, ProjectId>, chain: Chain, e: Event)
    ensures Extends(reg, HandleEvent(reg, projects, chain, e).registry)
    ensures Storable(projects, e) ==> Registered(HandleEvent(reg, projects, chain, e).registry, e.transactionHash)
  {
    var r := HandleEvent(reg, projects, chain, e).registry;
    ExtendsRefl(reg);
    if r != reg {
      ExtendsInsert(reg, reg, r[|reg|]);
      assert r == reg + [r[|reg|]];
      RegisteredAppend(reg, r[|reg|], e.transactionHash);
    }
  }

  /** After a batch that did not throw, every event with arguments and a
      known project has a row: it was inserted, or its hash already had one. */
  lemma {:induction false} HandleEventsRegisters(reg: seq<Record>, projects: map<Address, ProjectId>, chain: Chain, events: seq<Event>)
    ensures var r := HandleEvents(reg, projects, chain, events);
      !r.threw ==> forall k :: 0 <= k < |events| && Storable(projects, events[k]) ==> Registered(r.registry, events[k].transactionHash)
    decreases |events|
  {
    if events != [] {
      var r1 := HandleEvent(reg, projects, chain, events[0]);
      if !r1.threw {
        var tail := events[1..];
        var r := HandleEvents(r1.registry, projects, chain, tail);
        assert HandleEvents(reg, projects, chain, events) == r;
        HandleEventsRegisters(r1.registry, projects, chain, tail);
        HandleEventsExtends(r1.registry, projects, chain, tail);
        HandleEventRegisters(reg, projects, chain, events[0]);
        if !r.threw {
          forall k | 0 <= k < |events| && Storable(projects, events[k])
            ensures Registered(r.registry, events[k].transactionHash)
          {
            if k == 0 {
              ExtendsKeepsRegistered(r1.registry, r.registry, events[0].transactionHash);
            } else {
              assert events[k] == tail[k - 1];
            }
          }
        }
      }
    }
  }

  /** Every event of window `w`'s answer that has arguments and a known
      project has a row in `reg` (false when the request failed). */
  predicate BatchRegistered(reg: seq<Record>, projects: map<Address, ProjectId>, chain: Chain, w: Window) {
    match chain.queryFilter(w.from, w.to)
    case None => false
    case Some(events) => forall k :: 0 <= k < |events| && Storable(projects, events[k]) ==> Registered(reg, events[k].transactionHash)
  }

  lemma BatchRegisteredExtends(a: seq<Record>, b: seq<Record>, projects: map<Address, ProjectId>, chain: Chain, w: Window)
    requires Extends(a, b) && BatchRegistered(a, projects, chain, w)
    ensures BatchRegistered(b, projects, chain, w)
  {
    var events := chain.queryFilter(w.from, w.to).value;
    forall k | 0 <= k < |events| && Storable(projects, events[k])
      ensures Registered(b, events[k].transactionHash)
    {
      ExtendsKeepsRegistered(a, b, events[k].transactionHash);
    }
  }

  /** One batch issues exactly one request, pauses at most once and only
      when blocks remain, writes the checkpoint `w.to` unless it threw, and
      only adds rows for unregistered hashes. */
  lemma RunBatchFacts(s: PollState, projects: map<Address, ProjectId>, chain: Chain, w: Window, current: int)
    ensures var r := RunBatch(s, projects, chain, w, current);
      && r.0.queries == s.queries + [w]
      && r.0.pauses <= s.pauses + (if w.to < current then 1 else 0)
      && (r.1 ==> r.0.checkpointFile == s.checkpointFile)
      && (!r.1 ==> r.0.checkpointFile == Some(FormatBlock(w.to)))
      && Extends(s.registry, r.0.registry)
  {
    ExtendsRefl(s.registry);
    match chain.queryFilter(w.from, w.to)
    case None =>
    case Some(events) =>
      HandleEventsExtends(s.registry, projects, chain, events);
  }

  /** A batch pauses exactly when its answer was not empty, nothing threw
      and blocks remain. */
  lemma RunBatchPauses(s: PollState, projects: map<Address, ProjectId>, chain: Chain, w: Window, current: int)
    ensures var r := RunBatch(s, projects, chain, w, current);
      && (r.0.pauses == s.pauses || r.0.pauses == s.pauses + 1)
      && (r.0.pauses == s.pauses + 1 <==>
            !r.1 && w.to < current && chain.queryFilter(w.from, w.to).Some? && |chain.queryFilter(w.from, w.to).value| > 0)
  {
  }

  /** The batch loop only ever adds rows for unregistered hashes. */
  lemma {:induction false} RunBatchesExtends(s: PollState, projects: map<Address, ProjectId>, chain: Chain, i: int, current: int)
    ensures Extends(s.registry, RunBatches(s, projects, chain, i, current).0.registry)
    decreases if i <= current then current - i + 1 else 0
  {
    if i > current {
      ExtendsRefl(s.registry);
    } else {
      var w := Window(i, Min(i + MAX_BLOCK_RANGE - 1, current));
      var t := RunBatch(s, projects, chain, w, current).0;
      RunBatchFacts(s, projects, chain, w, current);
      if !RunBatch(s, projects, chain, w, current).1 {
        RunBatchesExtends(t, projects, chain, i + MAX_BLOCK_RANGE, current);
        ExtendsTrans(s.registry, t.registry, RunBatches(t, projects, chain, i + MAX_BLOCK_RANGE, current).0.registry);
      }
    }
  }

  lemma CycleExtends(s: PollState, projects: map<Address, ProjectId>, chain: Chain)
    ensures Extends(s.registry, Cycle(s, projects, chain).0.registry)
  {
    ExtendsRefl(s.registry);
    if chain.blockNumber.Some? {
      var current := chain.blockNumber.value;
      RunBatchesExtends(s, projects, chain, StartBlock(ReadCheckpoint(s.checkpointFile), current), current);
    }
  }

  /** The dedup invariant across any sequence of cycles, whatever ranges
      they rescan: rows are only appended, each for a hash that had no row,
      so a registry with at most one row per hash keeps that property. */
  lemma {:induction false} CyclesKeepUnique(s: PollState, projects: map<Address, ProjectId>, chains: seq<Chain>)
    ensures Extends(s.registry, Cycles(s, projects, chains).registry)
    ensures Unique(s.registry) ==> Unique(Cycles(s, projects, chains).registry)
    decreases |chains|
  {
    if chains == [] {
      ExtendsRefl(s.registry);
    } else {
      var t := Cycle(s, projects, chains[0]).0;
      CycleExtends(s, projects, chains[0]);
      CyclesKeepUnique(t, projects, chains[1..]);
      ExtendsTrans(s.registry, t.registry, Cycles(t, projects, chains[1..]).registry);
    }
    if Unique(s.registry) {
      ExtendsKeepsUnique(s.registry, Cycles(s, projects, chains).registry);
    }
  }

  /** The windows the batch loop queries are the first n batches, all of
      them when it finishes, and the failing one last when it throws. */
  lemma {:induction false} RunBatchesQueries(s: PollState, projects: map<Address, ProjectId>, chain: Chain, i: int, current: int)
    requires i <= current
    ensures var r := RunBatches(s, projects, chain, i, current);
      var ws := Batches(i, current);
      var n := |r.0.queries| - |s.queries|;
      && 0 < n <= |ws|
      && r.0.queries == s.queries + ws[..n]
      && (r.1.None? ==> n == |ws|)
      && (r.1.Some? ==> r.1.value == ws[n - 1])
    decreases current - i
  {
    var w := Window(i, Min(i + MAX_BLOCK_RANGE - 1, current));
    var ws := Batches(i, current);
    var rest := Batches(i + MAX_BLOCK_RANGE, current);
    assert ws == [w] + rest;
    assert ws[..1] == [w];
    var b := RunBatch(s, projects, chain, w, current);
    RunBatchFacts(s, projects, chain, w, current);
    var t := b.0;
    assert t.queries == s.queries + [w];
    if b.1 || i + MAX_BLOCK_RANGE > current {
      var r := RunBatches(s, projects, chain, i, current);
      if b.1 {
        assert r == (t, Some(w));
      } else {
        assert RunBatches(t, projects, chain, i + MAX_BLOCK_RANGE, current) == (t, None);
        assert r == (t, None);
        assert rest == [] && |ws| == 1;
      }
      assert |r.0.queries| - |s.queries| == 1;
    } else {
      assert RunBatches(s, projects, chain, i, current) == RunBatches(t, projects, chain, i + MAX_BLOCK_RANGE, current);
      RunBatchesQueries(t, projects, chain, i + MAX_BLOCK_RANGE, current);
      var r := RunBatches(t, projects, chain, i + MAX_BLOCK_RANGE, current);
      var m := |r.0.queries| - |t.queries|;
      PrefixAfterFirst(s.queries, w, rest, m);
    }
  }

  lemma PrefixAfterFirst(q: seq<Window>, w: Window, rest: seq<Window>, m: nat)
    requires m <= |rest|
    ensures (q + [w]) + rest[..m] == q + ([w] + rest)[..m + 1]
  {
    assert ([w] + rest)[..m + 1] == [w] + rest[..m];
  }

  /** Pauses taken by the batch loop are at most one fewer than its
      requests: only a batch that is not the last one pauses. */
  lemma {:induction false} RunBatchesPauses(s: PollState, projects: map<Address, ProjectId>, chain: Chain, i: int, current: int)
    requires i <= current
    ensures var r := RunBatches(s, projects, chain, i, current);
      r.0.pauses + 1 <= s.pauses + |r.0.queries| - |s.queries|
    decreases current - i
  {
    var w := Window(i, Min(i + MAX_BLOCK_RANGE - 1, current));
    var b := RunBatch(s, projects, chain, w, current);
    RunBatchFacts(s, projects, chain, w, current);
    var t := b.0;
    if b.1 || i + MAX_BLOCK_RANGE > current {
      assert !b.1 ==> RunBatches(t, projects, chain, i + MAX_BLOCK_RANGE, current) == (t, None);
      var r := RunBatches(s, projects, chain, i, current);
      assert r.0 == t;
      assert b.1 ==> t.pauses == s.pauses;
      assert !b.1 ==> w.to == current;
    } else {
      assert RunBatches(s, projects, chain, i, current) == RunBatches(t, projects, chain, i + MAX_BLOCK_RANGE, current);
      RunBatchesPauses(t, projects, chain, i + MAX_BLOCK_RANGE, current);
    }
  }

  /** A batch loop that finishes leaves the checkpoint at `current`. */
  lemma {:induction false} RunBatchesFinish(s: PollState, projects: map<Address, ProjectId>, chain: Chain, i: int, current: int)
    requires i <= current
    requires RunBatches(s, projects, chain, i, current).1.None?
    ensures RunBatches(s, projects, chain, i, current).0.checkpointFile == Some(FormatBlock(current))
    decreases current - i
  {
    var w := Window(i, Min(i + MAX_BLOCK_RANGE - 1, current));
    var b := RunBatch(s, projects, chain, w, current);
    RunBatchFacts(s, projects, chain, w, current);
    if i + MAX_BLOCK_RANGE > current {
      assert !b.1 && RunBatches(s, projects, chain, i, current).0 == b.0;
      assert w.to == current;
    } else {
      assert RunBatches(s, projects, chain, i, current) == RunBatches(b.0, projects, chain, i + MAX_BLOCK_RANGE, current);
      RunBatchesFinish(b.0, projects, chain, i + MAX_BLOCK_RANGE, current);
    }
  }

  /** A batch loop that throws in its n-th batch leaves the checkpoint of
      batch n - 1, or the checkpoint it started with when n is 1. */
  lemma {:induction false} RunBatchesAbort(s: PollState, projects: map<Address, ProjectId>, chain: Chain, i: int, current: int)
    requires i <= current
    requires RunBatches(s, projects, chain, i, current).1.Some?
    ensures var r := RunBatches(s, projects, chain, i, current);
      var ws := Batches(i, current);
      var n := |r.0.queries| - |s.queries|;
      && 0 < n <= |ws|
      && (n == 1 ==> r.0.checkpointFile == s.checkpointFile)
      && (n > 1 ==> r.0.checkpointFile == Some(FormatBlock(ws[n - 2].to)))
    decreases current - i
  {
    var w := Window(i, Min(i + MAX_BLOCK_RANGE - 1, current));
    var ws := Batches(i, current);
    var rest := Batches(i + MAX_BLOCK_RANGE, current);
    assert ws == [w] + rest;
    var b := RunBatch(s, projects, chain, w, current);
    RunBatchFacts(s, projects, chain, w, current);
    var t := b.0;
    if b.1 {
      assert RunBatches(s, projects, chain, i, current) == (t, Some(w));
    } else {
      assert i + MAX_BLOCK_RANGE <= current;
      var r := RunBatches(t, projects, chain, i + MAX_BLOCK_RANGE, current);
      assert RunBatches(s, projects, chain, i, current) == r;
      RunBatchesAbort(t, projects, chain, i + MAX_BLOCK_RANGE, current);
      AbortIndex(ws, w, rest, |r.0.queries| - |t.queries|);
    }
  }

  lemma AbortIndex(ws: seq<Window>, w: Window, rest: seq<Window>, m: int)
    requires ws == [w] + rest && 0 < m <= |rest|
    ensures 0 < m + 1 <= |ws|
    ensures ws[m - 1] == if m == 1 then w else rest[m - 2]
  {
  }

  /** A batch that did not throw leaves a row for every event of its
      answer that has arguments and a known project. */
  lemma RunBatchRegisters(s: PollState, projects: map<Address, ProjectId>, chain: Chain, w: Window, current: int)
    ensures var b := RunBatch(s, projects, chain, w, current);
      !b.1 ==> BatchRegistered(b.0.registry, projects, chain, w)
  {
    match chain.queryFilter(w.from, w.to)
    case None =>
    case Some(events) =>
      HandleEventsRegisters(s.registry, projects, chain, events);
  }

  /** A batch loop that finishes leaves a row for every event with
      arguments and a known project in every batch it scanned. */
  lemma {:induction false} RunBatchesRegisters(s: PollState, projects: map<Address, ProjectId>, chain: Chain, i: int, current: int)
    requires RunBatches(s, projects, chain, i, current).1.None?
    ensures forall w :: w in Batches(i, current) ==> BatchRegistered(RunBatches(s, projects, chain, i, current).0.registry, projects, chain, w)
    decreases if i <= current then current - i + 1 else 0
  {
    if i <= current {
      var w0 := Window(i, Min(i + MAX_BLOCK_RANGE - 1, current));
      var b := RunBatch(s, projects, chain, w0, current);
      var t := b.0;
      assert !b.1;
      var fin := RunBatches(t, projects, chain, i + MAX_BLOCK_RANGE, current);
      assert RunBatches(s, projects, chain, i, current) == fin;
      RunBatchesRegisters(t, projects, chain, i + MAX_BLOCK_RANGE, current);
      RunBatchesExtends(t, projects, chain, i + MAX_BLOCK_RANGE, current);
      RunBatchRegisters(s, projects, chain, w0, current);
      BatchRegisteredExtends(t.registry, fin.0.registry, projects, chain, w0);
      assert Batches(i, current) == [w0] + Batches(i + MAX_BLOCK_RANGE, current);
    }
  }

  /** A cycle that completes, or finds nothing to scan, leaves the
      checkpoint at the chain height it read. */
  lemma CycleEndsAtCurrent(s: PollState, projects: map<Address, ProjectId>, chain: Chain)
    requires Cycle(s, projects, chain).1.Completed? || Cycle(s, projects, chain).1.NothingToScan?
    ensures chain.blockNumber.Some?
    ensures Cycle(s, projects, chain).0.checkpointFile == Some(FormatBlock(chain.blockNumber.value))
    ensures ReadCheckpoint(Cycle(s, projects, chain).0.checkpointFile) == chain.blockNumber
  {
    var current := chain.blockNumber.value;
    var from := StartBlock(ReadCheckpoint(s.checkpointFile), current);
    WriteThenRead(current);
    if from <= current {
      RunBatchesFinish(s, projects, chain, from, current);
    }
  }

  /** A cycle ends in setup failure exactly when no height could be read,
      and then nothing changes: no checkpoint, row, request or pause. */
  lemma CycleSetupFailed(s: PollState, projects: map<Address, ProjectId>, chain: Chain)
    ensures Cycle(s, projects, chain).1.SetupFailed? <==> chain.blockNumber.None?
    ensures chain.blockNumber.None? ==> Cycle(s, projects, chain).0 == s
  {
  }

  /** With nothing to scan (the start block is past the height) no batch is
      queried, no row is added, and only the checkpoint is rewritten. */
  lemma CycleNothingToScan(s: PollState, projects: map<Address, ProjectId>, chain: Chain)
    requires chain.blockNumber.Some?
    ensures var current := chain.blockNumber.value;
      var r := Cycle(s, projects, chain);
      && (r.1.NothingToScan? <==> StartBlock(ReadCheckpoint(s.checkpointFile), current) > current)
      && (r.1.NothingToScan? ==> r.0 == s.(checkpointFile := Some(FormatBlock(current))))
  {
  }

  /** A completed cycle queried exactly the batches of [from, current], in
      order, and paused at most once fewer. */
  lemma CycleScansAllBatches(s: PollState, projects: map<Address, ProjectId>, chain: Chain)
    requires Cycle(s, projects, chain).1.Completed?
    ensures chain.blockNumber.Some?
    ensures var current := chain.blockNumber.value;
      var from := StartBlock(ReadCheckpoint(s.checkpointFile), current);
      var ws := Batches(from, current);
      var r := Cycle(s, projects, chain);
      && from <= current
      && r.0.queries == s.queries + ws
      && r.0.pauses + 1 <= s.pauses + |ws|
  {
    var current := chain.blockNumber.value;
    var from := StartBlock(ReadCheckpoint(s.checkpointFile), current);
    RunBatchesQueries(s, projects, chain, from, current);
    RunBatchesPauses(s, projects, chain, from, current);
    assert Batches(from, current)[..|Batches(from, current)|] == Batches(from, current);
  }

  /** A cycle that completes leaves a row for every event with arguments
      and a known project in every batch of its range: each was inserted,
      or its hash already had a row. */
  lemma CycleRegistersAll(s: PollState, projects: map<Address, ProjectId>, chain: Chain)
    requires Cycle(s, projects, chain).1.Completed?
    ensures chain.blockNumber.Some?
    ensures var current := chain.blockNumber.value;
      var from := StartBlock(ReadCheckpoint(s.checkpointFile), current);
      forall w :: w in Batches(from, current) ==> BatchRegistered(Cycle(s, projects, chain).0.registry, projects, chain, w)
  {
    var current := chain.blockNumber.value;
    var from := StartBlock(ReadCheckpoint(s.checkpointFile), current);
    RunBatchesRegisters(s, projects, chain, from, current);
  }

  /** A cycle that throws has queried a prefix of its batches ending with
      the failing one, and keeps every checkpoint written before it. */
  lemma CycleAbortKeepsCheckpoint(s: PollState, projects: map<Address, ProjectId>, chain: Chain)
    requires Cycle(s, projects, chain).1.Aborted?
    ensures chain.blockNumber.Some?
    ensures var current := chain.blockNumber.value;
      var from := StartBlock(ReadCheckpoint(s.checkpointFile), current);
      var ws := Batches(from, current);
      var r := Cycle(s, projects, chain);
      var n := |r.0.queries| - |s.queries|;
      && from <= current
      && 0 < n <= |ws|
      && r.0.queries == s.queries + ws[..n]
      && r.1.window == ws[n - 1]
      && (n == 1 ==> r.0.checkpointFile == s.checkpointFile)
      && (n > 1 ==> r.0.checkpointFile == Some(FormatBlock(ws[n - 2].to)))
  {
    var current := chain.blockNumber.value;
    var from := StartBlock(ReadCheckpoint(s.checkpointFile), current);
    RunBatchesQueries(s, projects, chain, from, current);
    RunBatchesAbort(s, projects, chain, from, current);
  }

  /** Idempotence: once a cycle has caught up with height `current`, a
      second cycle at the same height scans nothing and changes nothing. */
  lemma CycleRepeatChangesNothing(s: PollState, projects: map<Address, ProjectId>, chain: Chain, again: Chain)
    requires chain.blockNumber.Some? && again.blockNumber == chain.blockNumber
    requires Cycle(s, projects, chain).1.Completed? || Cycle(s, projects, chain).1.NothingToScan?
    ensures var t := Cycle(s, projects, chain).0;
      Cycle(t, projects, again) == (t, NothingToScan)
  {
    var current := chain.blockNumber.value;
    var t := Cycle(s, projects, chain).0;
    CycleEndsAtCurrent(s, projects, chain);
    WriteThenRead(current);
  }

  /** What every cycle guarantees, whatever its outcome: rows are only
      added for unregistered hashes, so at most one row per hash stays at
      most one, and a cycle that was not cut short ends at the height. */
  lemma CycleSummary(s: PollState, projects: map<Address, ProjectId>, chain: Chain)
    ensures var r := Cycle(s, projects, chain);
      && Extends(s.registry, r.0.registry)
      && (Unique(s.registry) ==> Unique(r.0.registry))
      && (r.1.Completed? || r.1.NothingToScan? ==> ReadCheckpoint(r.0.checkpointFile) == chain.blockNumber)
  {
    var r := Cycle(s, projects, chain);
    CycleExtends(s, projects, chain);
    if Unique(s.registry) {
      ExtendsKeepsUnique(s.registry, r.0.registry);
    }
    if r.1.Completed? || r.1.NothingToScan? {
      CycleEndsAtCurrent(s, projects, chain);
    }
  }

  /** The live poller: the checkpoint file, the registry table and the
      requests issued to the chain, changed in place by each cycle. The
      project table is only read. */
  class Poller {
    var checkpointFile: Option<string>
    var registry: seq<Record>
    var queries: seq<Window>
    var pauses: nat
    const projects: map<Address, ProjectId>

    constructor (checkpointFile: Option<string>, registry: seq<Record>, projects: map<Address, ProjectId>)
      ensures this.checkpointFile == checkpointFile && this.registry == registry && this.projects == projects
      ensures queries == [] && pauses == 0
    {
      this.checkpointFile := checkpointFile;
      this.registry := registry;
      this.projects := projects;
      queries := [];
      pauses := 0;
    }

    function State(): PollState
      reads this
    {
      PollState(checkpointFile, registry, queries, pauses)
    }

    /** `readLastPolledBlock`. */
    method ReadLastPolledBlock() returns (last: Option<int>)
      ensures last == ReadCheckpoint(checkpointFile)
      ensures checkpointFile.None? ==> last.None?
    {
      last := None;
      if checkpointFile.Some? {
        var data := checkpointFile.value;
        if !Blank(data) {
          last := ParseInt(data);
        }
      }
    }

    /** `saveLastPolledBlock`: the file holds the block's decimal text
      (which reads back as the block, by `Checkpoint.WriteThenRead`). */
    method SaveLastPolledBlock(blockNumber: int)
      modifies this`checkpointFile
      ensures checkpointFile == Some(FormatBlock(blockNumber))
    {
      checkpointFile := Some(FormatBlock(blockNumber));
    }

    /** The inner loop over the events of one batch. */
    method HandleBatchEvents(chain: Chain, events: seq<Event>) returns (threw: bool)
      modifies this`registry
      ensures EventsResult(registry, threw) == HandleEvents(old(registry), projects, chain, events)
      ensures Extends(old(registry), registry)
    {
      HandleEventsExtends(registry, projects, chain, events);
      threw := false;
      var k := 0;
      while k < |events|
        invariant 0 <= k <= |events|
        invariant HandleEvents(registry, projects, chain, events[k..]) == HandleEvents(old(registry), projects, chain, events)
      {
        var e := events[k];
        assert events[k..][1..] == events[k + 1..];
        if e.args.Some? {
          if !Registered(registry, e.transactionHash) {
            var a := e.args.value;
            if a.projectAddress in projects {
              registry := registry + [NewRecord(e.transactionHash, a, projects[a.projectAddress])];
              if chain.getBlockFails(e.blockNumber) {
                threw := true;
                return;
              }
            }
          }
        }
        k := k + 1;
      }
    }

    /** One iteration of the batch loop: query the window, then store
      what it answered. */
    method ScanBatch(chain: Chain, i: int, toBlock: int, currentBlock: int) returns (threw: bool)
      modifies this`queries, this`registry, this`checkpointFile, this`pauses
      ensures (State(), threw) == RunBatch(old(State()), projects, chain, Window(i, toBlock), currentBlock)
    {
      queries := queries + [Window(i, toBlock)];
      var events := chain.queryFilter(i, toBlock);
      if events.None? {
        return true;
      }
      threw := StoreBatchEvents(chain, Window(i, toBlock), events.value, currentBlock);
    }

    /** Handle the events of a batch, write the checkpoint and pause when
      more blocks remain. */
    method StoreBatchEvents(chain: Chain, w: Window, events: seq<Event>, currentBlock: int) returns (threw: bool)
      modifies this`registry, this`checkpointFile, this`pauses
      ensures (State(), threw) == StoreBatch(old(State()), projects, chain, w, events, currentBlock)
    {
      if |events| == 0 {
        SaveLastPolledBlock(w.to);
        return false;
      }
      threw := HandleBatchEvents(chain, events);
      if threw {
        return;
      }
      FinishBatchEvents(w, currentBlock);
    }

    /** Write the checkpoint and pause when more blocks remain. */
    method FinishBatchEvents(w: Window, currentBlock: int)
      modifies this`checkpointFile, this`pauses
      ensures State() == FinishBatch(old(State()), w, currentBlock)
    {
      SaveLastPolledBlock(w.to);
      if w.to < currentBlock {
        pauses := pauses + 1;
      }
    }

    /** The `for` loop over the batches of [fromBlock, currentBlock]. */
    method ScanBatches(chain: Chain, fromBlock: int, currentBlock: int) returns (failed: Option<Window>)
      modifies this`queries, this`registry, this`checkpointFile, this`pauses
      ensures (State(), failed) == RunBatches(old(State()), projects, chain, fromBlock, currentBlock)
    {
      ghost var s0 := State();
      var i := fromBlock;
      while i <= currentBlock
        invariant RunBatches(State(), projects, chain, i, currentBlock) == RunBatches(s0, projects, chain, fromBlock, currentBlock)
        decreases currentBlock - i + 1
      {
        var toBlock := Min(i + MAX_BLOCK_RANGE - 1, currentBlock);
        var threw := ScanBatch(chain, i, toBlock, currentBlock);
        if threw {
          return Some(Window(i, toBlock));
        }
        i := i + MAX_BLOCK_RANGE;
      }
      return None;
    }

    /** `newPollAndStoreMpTokensBoughtEvents`: one cycle. */
    method PollAndStoreTokensBoughtEvents(chain: Chain) returns (outcome: Outcome)
      modifies this
      ensures (State(), outcome) == Cycle(old(State()), projects, chain)
      ensures Extends(old(registry), registry)
      ensures Unique(old(registry)) ==> Unique(registry)
      ensures outcome.Completed? || outcome.NothingToScan? ==> ReadCheckpoint(checkpointFile) == chain.blockNumber
    {
      ghost var s0 := State();
      CycleSummary(s0, projects, chain);
      outcome := RunCycle(chain);
    }

    /** The body of `newPollAndStoreMpTokensBoughtEvents`. */
    method RunCycle(chain: Chain) returns (outcome: Outcome)
      modifies this
      ensures (State(), outcome) == Cycle(old(State()), projects, chain)
    {
      if chain.blockNumber.None? {
        return SetupFailed;
      }
      ghost var s0 := State();
      var currentBlock := chain.blockNumber.value;
      var lastPolledBlock := ReadLastPolledBlock();
      var fromBlock: int;
      if lastPolledBlock.None? || currentBlock - lastPolledBlock.value > MAX_LOOK_BACK_BLOCKS {
        fromBlock := currentBlock - MAX_LOOK_BACK_BLOCKS;
      } else {
        fromBlock := lastPolledBlock.value + 1;
      }
      assert fromBlock == StartBlock(ReadCheckpoint(s0.checkpointFile), currentBlock);
      if fromBlock > currentBlock {
        SaveLastPolledBlock(currentBlock);
        return NothingToScan;
      }
      var failed := ScanBatches(chain, fromBlock, currentBlock);
      if failed.Some? {
        return Aborted(failed.value);
      }
      return Completed;
    }
  }
}
