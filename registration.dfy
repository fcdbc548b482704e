/** The older registration path: filtering out hashes that already have a
    row, registering one purchase (with an error file for unknown
    projects), and replaying the local events file into the registry. */
module Registration {
  import opened Types
  import opened Registry

  /** One entry of the local events file. */
  datatype EventData = EventData(
    transactionHash: Hash,
    buyer: Address,
    tokenAmount: string,
    totalCost: string,
    fee: string,
    price: string,
    projectAddress: Address,
    blockNumber: int,
    timestamp: int)

  /** The arguments of `registerBuyMpTransactionInDb`. */
  datatype RegisterParams = RegisterParams(
    projectTokenAddress: Address,
    userWallet: Address,
    tokenAmount: string,
    transactionHash: Hash,
    tokenPrice: string,
    feesWUSDT: Float)

  /** An entry of the error file: the parameters and when they failed. */
  datatype ErrorEntry = ErrorEntry(params: RegisterParams, timestamp: string)

  /** The error file as registration finds it: absent, unreadable or not
      JSON, a JSON array of entries, or some JSON value other than an array.
      An array that holds values other than entries (which `push` accepts
      just as well) is not represented. */
  datatype ErrorFile = Missing | Unparsable | Entries(entries: seq<ErrorEntry>) | NotAList

  /** What the model takes as given: `parseFloat` (NaN when the text does
      not start with a number) and the clock's ISO time stamp. */
  datatype Env = Env(parseFloat: string -> Float, now: string)

  /** The value `registerBuyMpTransactionInDb` returns (the new row or
      null), or the fact that it threw. */
  datatype RegResult = Created(record: Record) | NotCreated | Threw

  datatype RegState = RegState(registry: seq<Record>, errorFile: ErrorFile)

  // ---------------------------------------------------------------------
  // findNonRegisteredHashes

  /** The hashes of `hs` that are not in `excluded`, in order. */
  function FilterOut(hs: seq<Hash>, excluded: set<Hash>): seq<Hash>
    decreases |hs|
  {
    if hs == [] then []
    else (if hs[0] in excluded then [] else [hs[0]]) + FilterOut(hs[1..], excluded)
  }

  /** `findNonRegisteredHashes`: ask the registry which of the hashes it
      holds, then keep the others. */
  function FindNonRegisteredHashes(hashes: seq<Hash>, registry: seq<Record>): (r: seq<Hash>)
    ensures hashes == [] ==> r == []
  {
    if hashes == [] then []
    else
      var registeredHashes := set h | h in Hashes(registry) && h in hashes;
      FilterOut(hashes, registeredHashes)
  }

  lemma {:induction false} FilterOutSame(hs: seq<Hash>, a: set<Hash>, b: set<Hash>)
    requires forall h :: h in hs ==> (h in a <==> h in b)
    ensures FilterOut(hs, a) == FilterOut(hs, b)
    decreases |hs|
  {
    if hs != [] {
      FilterOutSame(hs[1..], a, b);
    }
  }

  /** Asking the registry only about the given hashes filters the same way
      as checking each hash against the whole registry. */
  lemma FindNonRegisteredIsFilter(hashes: seq<Hash>, registry: seq<Record>)
    ensures FindNonRegisteredHashes(hashes, registry) == FilterOut(hashes, Hashes(registry))
  {
    if hashes != [] {
      var registeredHashes := set h | h in Hashes(registry) && h in hashes;
      FilterOutSame(hashes, registeredHashes, Hashes(registry));
    }
  }

  lemma {:induction false} FilterOutCount(hs: seq<Hash>, excluded: set<Hash>, h: Hash)
    ensures multiset(FilterOut(hs, excluded))[h] == if h in excluded then 0 else multiset(hs)[h]
    decreases |hs|
  {
    if hs != [] {
      FilterOutCount(hs[1..], excluded, h);
      assert hs == [hs[0]] + hs[1..];
    }
  }

  /** Exactly the unregistered hashes come back, each as often as it was
      given: duplicates are kept. */
  lemma FindNonRegisteredCount(hashes: seq<Hash>, registry: seq<Record>, h: Hash)
    ensures multiset(FindNonRegisteredHashes(hashes, registry))[h]
            == if Registered(registry, h) then 0 else multiset(hashes)[h]
    ensures h in FindNonRegisteredHashes(hashes, registry) <==> h in hashes && !Registered(registry, h)
  {
    FindNonRegisteredIsFilter(hashes, registry);
    FilterOutCount(hashes, Hashes(registry), h);
    assert h in FindNonRegisteredHashes(hashes, registry) <==> multiset(FindNonRegisteredHashes(hashes, registry))[h] > 0;
    assert h in hashes <==> multiset(hashes)[h] > 0;
  }

  lemma {:induction false} FilterOutAppend(a: seq<Hash>, b: seq<Hash>, excluded: set<Hash>)
    ensures FilterOut(a + b, excluded) == FilterOut(a, excluded) + FilterOut(b, excluded)
    decreases |a|
  {
    if a == [] {
      assert a + b == b;
    } else {
      assert (a + b)[1..] == a[1..] + b;
      FilterOutAppend(a[1..], b, excluded);
    }
  }

  /** Input order is kept: filtering a concatenation concatenates the
      filtered parts. */
  lemma FindNonRegisteredKeepsOrder(a: seq<Hash>, b: seq<Hash>, registry: seq<Record>)
    ensures FindNonRegisteredHashes(a + b, registry)
            == FindNonRegisteredHashes(a, registry) + FindNonRegisteredHashes(b, registry)
  {
    FindNonRegisteredIsFilter(a + b, registry);
    FindNonRegisteredIsFilter(a, registry);
    FindNonRegisteredIsFilter(b, registry);
    FilterOutAppend(a, b, Hashes(registry));
  }

  // ---------------------------------------------------------------------
  // registerBuyMpTransactionInDb

  /** The row written for a registration. */
  function NewRecord(p: RegisterParams, amount: Float, wusdt: Float, price: Float, projectId: ProjectId): Record {
    Record(
      projectTokenAddress := p.projectTokenAddress,
      userWhoBuys := p.userWallet,
      tokenAmount := amount,
      wusdtAmount := wusdt,
      transactionHash := p.transactionHash,
      tokenPrice := price,
      status := Approved,
      transactionType := BuyProjectToken,
      marketType := Primary,
      receiptLink := ReceiptLink(p.transactionHash),
      feesWUSDT := p.feesWUSDT,
      projectId := projectId,
      userWhoSells := None,
      transactionHashOrder := None,
      purchasePrice := None,
      salePrice := None,
      orderBookTransactionSharedId := None)
  }

  /** The list the error file is read into: empty when the file is missing
      or unreadable, None when it holds a value that cannot be pushed to. */
  function ExistingErrors(f: ErrorFile): Option<seq<ErrorEntry>> {
    match f
    case Missing => Some([])
    case Unparsable => Some([])
    case Entries(es) => Some(es)
    case NotAList => None
  }

  /** `registerBuyMpTransactionInDb` on the registry and error file. */
  function Register(st: RegState, projects: map<Address, ProjectId>, p: RegisterParams, env: Env): (RegState, RegResult) {
    var amount := env.parseFloat(p.tokenAmount);
    var wusdt := Mul(env.parseFloat(p.tokenAmount), env.parseFloat(p.tokenPrice));
    var price := env.parseFloat(p.tokenPrice);
    if amount.NaN? || wusdt.NaN? || price.NaN? then (st, Threw)
    else if Registered(st.registry, p.transactionHash) then (st, NotCreated)
    else if p.projectTokenAddress !in projects then
      match ExistingErrors(st.errorFile)
      case None => (st, Threw)
      case Some(es) => (st.(errorFile := Entries(es + [ErrorEntry(p, env.now)])), NotCreated)
    else
      var rec := NewRecord(p, amount, wusdt, price, projects[p.projectTokenAddress]);
      (st.(registry := st.registry + [rec]), Created(rec))
  }

  /** A field that does not parse as a number makes registration throw
      before the registry or the error file is touched. */
  lemma RegisterInvalidNumber(st: RegState, projects: map<Address, ProjectId>, p: RegisterParams, env: Env)
    requires env.parseFloat(p.tokenAmount).NaN? || env.parseFloat(p.tokenPrice).NaN?
    ensures Register(st, projects, p, env) == (st, Threw)
  {
  }

  /** An already registered hash returns null and changes nothing. */
  lemma RegisterAlreadyRegistered(st: RegState, projects: map<Address, ProjectId>, p: RegisterParams, env: Env)
    requires env.parseFloat(p.tokenAmount).Num? && env.parseFloat(p.tokenPrice).Num?
    requires Registered(st.registry, p.transactionHash)
    ensures Register(st, projects, p, env) == (st, NotCreated)
  {
  }

  /** An unknown project adds no row; the error file becomes the previous
      list (empty if it was missing or unreadable) plus one entry, or, when
      the file held something other than a list, registration throws. */
  lemma RegisterProjectNotFound(st: RegState, projects: map<Address, ProjectId>, p: RegisterParams, env: Env)
    requires env.parseFloat(p.tokenAmount).Num? && env.parseFloat(p.tokenPrice).Num?
    requires !Registered(st.registry, p.transactionHash)
    requires p.projectTokenAddress !in projects
    ensures var r := Register(st, projects, p, env);
      && r.0.registry == st.registry
      && (st.errorFile.Missing? || st.errorFile.Unparsable? ==> r == (st.(errorFile := Entries([ErrorEntry(p, env.now)])), NotCreated))
      && (st.errorFile.Entries? ==> r == (st.(errorFile := Entries(st.errorFile.entries + [ErrorEntry(p, env.now)])), NotCreated))
      && (st.errorFile.NotAList? ==> r == (st, Threw))
  {
    assert [] + [ErrorEntry(p, env.now)] == [ErrorEntry(p, env.now)];
  }

  /** Otherwise exactly one row is added: an approved primary-market
      purchase for the hash, with its receipt link, the project's id, the
      parsed numbers (the amount in stable coin being amount times price)
      and no secondary-market data. */
  lemma RegisterSuccess(st: RegState, projects: map<Address, ProjectId>, p: RegisterParams, env: Env)
    requires env.parseFloat(p.tokenAmount).Num? && env.parseFloat(p.tokenPrice).Num?
    requires !Registered(st.registry, p.transactionHash)
    requires p.projectTokenAddress in projects
    ensures var r := Register(st, projects, p, env);
      var rec := r.0.registry[|st.registry|];
      && r.1 == Created(rec)
      && r.0.errorFile == st.errorFile
      && |r.0.registry| == |st.registry| + 1 && r.0.registry[..|st.registry|] == st.registry
      && rec.transactionHash == p.transactionHash
      && rec.status == Approved && rec.transactionType == BuyProjectToken && rec.marketType == Primary
      && rec.receiptLink == "https://polygonscan.com/tx/" + p.transactionHash
      && rec.projectId == projects[p.projectTokenAddress]
      && rec.tokenAmount == env.parseFloat(p.tokenAmount)
      && rec.tokenPrice == env.parseFloat(p.tokenPrice)
      && rec.wusdtAmount == Num(env.parseFloat(p.tokenAmount).value * env.parseFloat(p.tokenPrice).value)
      && rec.feesWUSDT == p.feesWUSDT
      && rec.userWhoSells.None? && rec.transactionHashOrder.None? && rec.purchasePrice.None?
      && rec.salePrice.None? && rec.orderBookTransactionSharedId.None?
  {
    var r := Register(st, projects, p, env);
    assert r.0.registry[..|st.registry|] == st.registry;
  }

  /** Registration keeps the dedup rule. */
  lemma RegisterExtends(st: RegState, projects: map<Address, ProjectId>, p: RegisterParams, env: Env)
    ensures Extends(st.registry, Register(st, projects, p, env).0.registry)
  {
    ExtendsRefl(st.registry);
    var r := Register(st, projects, p, env);
    if r.0.registry != st.registry {
      ExtendsInsert(st.registry, st.registry, r.0.registry[|st.registry|]);
      assert r.0.registry == st.registry + [r.0.registry[|st.registry|]];
    }
  }

  /** Registration of `p` writes a row: its amount and price parse and its
      project is known. */
  predicate Storable(p: RegisterParams, projects: map<Address, ProjectId>, env: Env) {
    env.parseFloat(p.tokenAmount).Num? && env.parseFloat(p.tokenPrice).Num? && p.projectTokenAddress in projects
  }

  /** The row a registration of `p` writes. */
  function RowFor(p: RegisterParams, projects: map<Address, ProjectId>, env: Env): Record
    requires p.projectTokenAddress in projects
  {
    NewRecord(p, env.parseFloat(p.tokenAmount), Mul(env.parseFloat(p.tokenAmount), env.parseFloat(p.tokenPrice)),
              env.parseFloat(p.tokenPrice), projects[p.projectTokenAddress])
  }

  /** What registration does to the registry: it appends the row for `p`
      exactly when `p` is storable and its hash has no row, and otherwise
      leaves the registry as it was. */
  lemma RegisterRegistry(st: RegState, projects: map<Address, ProjectId>, p: RegisterParams, env: Env)
    ensures Register(st, projects, p, env).0.registry
            == if Storable(p, projects, env) && !Registered(st.registry, p.transactionHash)
               then st.registry + [RowFor(p, projects, env)] else st.registry
    ensures Register(st, projects, p, env).1.Threw? ==> Register(st, projects, p, env).0 == st
  {
  }

  // ---------------------------------------------------------------------
  // syncLocalEventsToDb

  /** `new Map(localEvents.map(e => [e.transactionHash, e]))`: later
      entries overwrite earlier ones. */
  function IndexByHash(events: seq<EventData>): map<Hash, EventData>
    decreases |events|
  {
    if events == [] then map[]
    else IndexByHash(events[..|events| - 1])[events[|events| - 1].transactionHash := events[|events| - 1]]
  }

  /** The index holds exactly the hashes of the file, each mapped to the
      last entry carrying it. */
  lemma {:induction false} IndexByHashPicksLast(events: seq<EventData>, i: nat)
    requires i < |events|
    requires forall k :: i < k < |events| ==> events[k].transactionHash != events[i].transactionHash
    ensures events[i].transactionHash in IndexByHash(events)
    ensures IndexByHash(events)[events[i].transactionHash] == events[i]
    decreases |events|
  {
    var n := |events|;
    if i < n - 1 {
      var init := events[..n - 1];
      assert init[i] == events[i];
      forall k | i < k < |init|
        ensures init[k].transactionHash != init[i].transactionHash
      {
        assert init[k] == events[k];
      }
      IndexByHashPicksLast(init, i);
    }
  }

  lemma {:induction false} IndexByHashKeys(events: seq<EventData>, h: Hash)
    ensures h in IndexByHash(events) <==> exists i :: 0 <= i < |events| && events[i].transactionHash == h
    decreases |events|
  {
    if events != [] {
      var n := |events|;
      var init := events[..n - 1];
      IndexByHashKeys(init, h);
      if h in IndexByHash(init) {
        var i :| 0 <= i < |init| && init[i].transactionHash == h;
        assert events[i] == init[i];
      }
      if exists i :: 0 <= i < n && events[i].transactionHash == h {
        var i :| 0 <= i < n && events[i].transactionHash == h;
        if i < n - 1 {
          assert init[i] == events[i];
        }
      }
    }
  }

  /** Every entry of the index carries the hash it is filed under. */
  lemma {:induction false} IndexByHashHash(events: seq<EventData>)
    ensures forall h :: h in IndexByHash(events) ==> IndexByHash(events)[h].transactionHash == h
    decreases |events|
  {
    if events != [] {
      IndexByHashHash(events[..|events| - 1]);
    }
  }

  /** The hashes of the local entries, in file order. */
  function HashesOf(events: seq<EventData>): seq<Hash> {
    seq(|events|, i requires 0 <= i < |events| => events[i].transactionHash)
  }

  /** The parameters built from a local entry (its fee parsed as it is, with
      no check for NaN). */
  function ParamsOf(e: EventData, env: Env): RegisterParams {
    RegisterParams(e.projectAddress, e.buyer, e.tokenAmount, e.transactionHash, e.price, env.parseFloat(e.fee))
  }

  /** The loop over the hashes to register; the first throw stops it. */
  function RegisterAll(st: RegState, projects: map<Address, ProjectId>, hashes: seq<Hash>, index: map<Hash, EventData>, env: Env): (RegState, bool)
    decreases |hashes|
  {
    if hashes == [] then (st, false)
    else if hashes[0] in index then
      var r := Register(st, projects, ParamsOf(index[hashes[0]], env), env);
      if r.1.Threw? then (r.0, true) else RegisterAll(r.0, projects, hashes[1..], index, env)
    else RegisterAll(st, projects, hashes[1..], index, env)
  }

  /** How a sync ended (the source only logs it; a throw does not escape). */
  datatype SyncOutcome = NoLocalEvents | UpToDate | Finished | Failed

  /** `syncLocalEventsToDb` on the entries of the local events file. */
  function Sync(st: RegState, projects: map<Address, ProjectId>, localEvents: seq<EventData>, env: Env): (RegState, SyncOutcome) {
    if |localEvents| == 0 then (st, NoLocalEvents)
    else
      var hashesToRegister := FindNonRegisteredHashes(HashesOf(localEvents), st.registry);
      if |hashesToRegister| == 0 then (st, UpToDate)
      else
        var r := RegisterAll(st, projects, hashesToRegister, IndexByHash(localEvents), env);
        (r.0, if r.1 then Failed else Finished)
  }

  lemma {:induction false} RegisterAllExtends(st: RegState, projects: map<Address, ProjectId>, hashes: seq<Hash>, index: map<Hash, EventData>, env: Env)
    ensures Extends(st.registry, RegisterAll(st, projects, hashes, index, env).0.registry)
    decreases |hashes|
  {
    if hashes == [] {
      ExtendsRefl(st.registry);
    } else if hashes[0] in index {
      var r := Register(st, projects, ParamsOf(index[hashes[0]], env), env);
      RegisterExtends(st, projects, ParamsOf(index[hashes[0]], env), env);
      if !r.1.Threw? {
        RegisterAllExtends(r.0, projects, hashes[1..], index, env);
        ExtendsTrans(st.registry, r.0.registry, RegisterAll(r.0, projects, hashes[1..], index, env).0.registry);
      }
    } else {
      RegisterAllExtends(st, projects, hashes[1..], index, env);
    }
  }

  /** A loop that throws does so at some hash k: the hashes before it were
      registered without a throw, the registration of hash k threw and
      changed nothing, and the hashes after it were not tried. */
  lemma {:induction false} RegisterAllStopsAtThrow(st: RegState, projects: map<Address, ProjectId>, hashes: seq<Hash>, index: map<Hash, EventData>, env: Env)
    requires RegisterAll(st, projects, hashes, index, env).1
    ensures exists k :: (
              && 0 <= k < |hashes| && hashes[k] in index
              && !RegisterAll(st, projects, hashes[..k], index, env).1
              && RegisterAll(st, projects, hashes, index, env).0 == RegisterAll(st, projects, hashes[..k], index, env).0
              && Register(RegisterAll(st, projects, hashes[..k], index, env).0, projects, ParamsOf(index[hashes[k]], env), env).1.Threw?)
    decreases |hashes|
  {
    var tail := hashes[1..];
    assert hashes[..0] == [];
    if hashes[0] in index && Register(st, projects, ParamsOf(index[hashes[0]], env), env).1.Threw? {
      RegisterRegistry(st, projects, ParamsOf(index[hashes[0]], env), env);
      assert RegisterAll(st, projects, hashes[..0], index, env) == (st, false);
    } else {
      var st1 := if hashes[0] in index then Register(st, projects, ParamsOf(index[hashes[0]], env), env).0 else st;
      assert RegisterAll(st, projects, hashes, index, env) == RegisterAll(st1, projects, tail, index, env);
      RegisterAllStopsAtThrow(st1, projects, tail, index, env);
      var j :| 0 <= j < |tail| && tail[j] in index
        && !RegisterAll(st1, projects, tail[..j], index, env).1
        && RegisterAll(st1, projects, tail, index, env).0 == RegisterAll(st1, projects, tail[..j], index, env).0
        && Register(RegisterAll(st1, projects, tail[..j], index, env).0, projects, ParamsOf(index[tail[j]], env), env).1.Threw?;
      var pre := hashes[..j + 1];
      assert pre[0] == hashes[0] && pre[1..] == tail[..j];
      assert RegisterAll(st, projects, pre, index, env) == RegisterAll(st1, projects, tail[..j], index, env);
      assert hashes[j + 1] == tail[j];
    }
  }

  /** A loop that does not throw leaves, for every hash that had no row
      and whose entry is storable, the row built from that entry. */
  lemma {:induction false} RegisterAllStores(st: RegState, projects: map<Address, ProjectId>, hashes: seq<Hash>, index: map<Hash, EventData>, env: Env)
    requires forall h :: h in index ==> index[h].transactionHash == h
    ensures var r := RegisterAll(st, projects, hashes, index, env);
      !r.1 ==> forall k ::
        (0 <= k < |hashes| && hashes[k] in index && Storable(ParamsOf(index[hashes[k]], env), projects, env)
         && !Registered(st.registry, hashes[k]))
        ==> RowFor(ParamsOf(index[hashes[k]], env), projects, env) in r.0.registry
    decreases |hashes|
  {
    if hashes != [] {
      var tail := hashes[1..];
      var st1 := if hashes[0] in index then Register(st, projects, ParamsOf(index[hashes[0]], env), env).0 else st;
      var r := RegisterAll(st, projects, hashes, index, env);
      if !r.1 {
        assert r == RegisterAll(st1, projects, tail, index, env);
        RegisterAllStores(st1, projects, tail, index, env);
        RegisterAllExtends(st1, projects, tail, index, env);
        forall k | 0 <= k < |hashes| && hashes[k] in index && Storable(ParamsOf(index[hashes[k]], env), projects, env)
                   && !Registered(st.registry, hashes[k])
          ensures RowFor(ParamsOf(index[hashes[k]], env), projects, env) in r.0.registry
        {
          var h := hashes[k];
          var row := RowFor(ParamsOf(index[h], env), projects, env);
          if hashes[0] == h {
            RegisterRegistry(st, projects, ParamsOf(index[h], env), env);
            assert st1.registry == st.registry + [row];
            ExtendsKeepsRows(st1.registry, r.0.registry, row);
          } else {
            if hashes[0] in index {
              var p0 := ParamsOf(index[hashes[0]], env);
              RegisterRegistry(st, projects, p0, env);
              if Storable(p0, projects, env) && !Registered(st.registry, p0.transactionHash) {
                RegisteredAppend(st.registry, RowFor(p0, projects, env), h);
              }
            }
            assert !Registered(st1.registry, h);
            assert h == tail[k - 1];
          }
        }
      }
    }
  }

  /** Every row a sync adds is for a hash that had none, even when the
      local file repeats a hash: a registry with at most one row per hash
      keeps that property. */
  lemma SyncKeepsUnique(st: RegState, projects: map<Address, ProjectId>, localEvents: seq<EventData>, env: Env)
    ensures Extends(st.registry, Sync(st, projects, localEvents, env).0.registry)
    ensures Unique(st.registry) ==> Unique(Sync(st, projects, localEvents, env).0.registry)
  {
    ExtendsRefl(st.registry);
    if |localEvents| > 0 {
      var hashesToRegister := FindNonRegisteredHashes(HashesOf(localEvents), st.registry);
      RegisterAllExtends(st, projects, hashesToRegister, IndexByHash(localEvents), env);
    }
    if Unique(st.registry) {
      ExtendsKeepsUnique(st.registry, Sync(st, projects, localEvents, env).0.registry);
    }
  }

  /** A sync that fails stopped at one of the hashes to register: the rows
      inserted for the hashes before it stay, its own registration threw
      and changed nothing, and the hashes after it were not tried. */
  lemma SyncStopsAtThrow(st: RegState, projects: map<Address, ProjectId>, localEvents: seq<EventData>, env: Env)
    requires Sync(st, projects, localEvents, env).1 == Failed
    ensures var hs := FindNonRegisteredHashes(HashesOf(localEvents), st.registry);
      var index := IndexByHash(localEvents);
      exists k :: (
        && 0 <= k < |hs| && hs[k] in index
        && !RegisterAll(st, projects, hs[..k], index, env).1
        && Sync(st, projects, localEvents, env).0 == RegisterAll(st, projects, hs[..k], index, env).0
        && Register(RegisterAll(st, projects, hs[..k], index, env).0, projects, ParamsOf(index[hs[k]], env), env).1.Threw?)
  {
    var hs := FindNonRegisteredHashes(HashesOf(localEvents), st.registry);
    RegisterAllStopsAtThrow(st, projects, hs, IndexByHash(localEvents), env);
  }

  /** A sync that finishes leaves, for every local hash that had no row and
      whose last entry in the file parses and names a known project, the
      row built from that last entry. */
  lemma SyncStoresAll(st: RegState, projects: map<Address, ProjectId>, localEvents: seq<EventData>, env: Env, i: nat)
    requires Sync(st, projects, localEvents, env).1 == Finished
    requires i < |localEvents|
    requires forall j :: i < j < |localEvents| ==> localEvents[j].transactionHash != localEvents[i].transactionHash
    requires !Registered(st.registry, localEvents[i].transactionHash)
    requires Storable(ParamsOf(localEvents[i], env), projects, env)
    ensures RowFor(ParamsOf(localEvents[i], env), projects, env) in Sync(st, projects, localEvents, env).0.registry
  {
    var h := localEvents[i].transactionHash;
    var hashes := HashesOf(localEvents);
    assert hashes[i] == h;
    var hs := FindNonRegisteredHashes(hashes, st.registry);
    var index := IndexByHash(localEvents);
    FindNonRegisteredCount(hashes, st.registry, h);
    var k :| 0 <= k < |hs| && hs[k] == h;
    IndexByHashPicksLast(localEvents, i);
    IndexByHashHash(localEvents);
    RegisterAllStores(st, projects, hs, index, env);
  }

  /** With no local events, or all of them registered, a sync changes
      nothing. */
  lemma SyncNothingNew(st: RegState, projects: map<Address, ProjectId>, localEvents: seq<EventData>, env: Env)
    requires forall i :: 0 <= i < |localEvents| ==> Registered(st.registry, localEvents[i].transactionHash)
    ensures Sync(st, projects, localEvents, env).0 == st
    ensures |localEvents| == 0 ==> Sync(st, projects, localEvents, env).1 == NoLocalEvents
    ensures |localEvents| > 0 ==> Sync(st, projects, localEvents, env).1 == UpToDate
  {
    var hs := HashesOf(localEvents);
    var r := FindNonRegisteredHashes(hs, st.registry);
    if r != [] {
      FindNonRegisteredCount(hs, st.registry, r[0]);
      assert false;
    }
  }

  // ---------------------------------------------------------------------
  // The registry as changed in place

  /** The registry table and the error file as the registration path
      changes them; the project table is only read. */
  class Registrar {
    var registry: seq<Record>
    var errorFile: ErrorFile
    const projects: map<Address, ProjectId>

    constructor (registry: seq<Record>, errorFile: ErrorFile, projects: map<Address, ProjectId>)
      ensures this.registry == registry && this.errorFile == errorFile && this.projects == projects
    {
      this.registry := registry;
      this.errorFile := errorFile;
      this.projects := projects;
    }

    function State(): RegState
      reads this
    {
      RegState(registry, errorFile)
    }

    /** `registerBuyMpTransactionInDb`. */
    method RegisterBuyMpTransactionInDb(p: RegisterParams, env: Env) returns (result: RegResult)
      modifies this
      ensures (State(), result) == Register(old(State()), projects, p, env)
      ensures Extends(old(registry), registry)
    {
      RegisterExtends(State(), projects, p, env);
      var numericTokenAmount := env.parseFloat(p.tokenAmount);
      var numericWusdtAmount := Mul(env.parseFloat(p.tokenAmount), env.parseFloat(p.tokenPrice));
      var numericTokenPrice := env.parseFloat(p.tokenPrice);
      if numericTokenAmount.NaN? || numericWusdtAmount.NaN? || numericTokenPrice.NaN? {
        return Threw;
      }
      if Registered(registry, p.transactionHash) {
        return NotCreated;
      }
      if p.projectTokenAddress !in projects {
        var existingErrors := ExistingErrors(errorFile);
        if existingErrors.None? {
          return Threw;
        }
        errorFile := Entries(existingErrors.value + [ErrorEntry(p, env.now)]);
        return NotCreated;
      }
      var newTransaction := NewRecord(p, numericTokenAmount, numericWusdtAmount, numericTokenPrice, projects[p.projectTokenAddress]);
      registry := registry + [newTransaction];
      return Created(newTransaction);
    }

    /** The `for` loop of `syncLocalEventsToDb` over the hashes to
      register; it reports whether a registration threw. */
    method RegisterHashes(hashes: seq<Hash>, eventsMap: map<Hash, EventData>, env: Env) returns (threw: bool)
      modifies this
      ensures (State(), threw) == RegisterAll(old(State()), projects, hashes, eventsMap, env)
    {
      ghost var s0 := State();
      var k := 0;
      while k < |hashes|
        invariant 0 <= k <= |hashes|
        invariant RegisterAll(State(), projects, hashes[k..], eventsMap, env)
                  == RegisterAll(s0, projects, hashes, eventsMap, env)
      {
        var hash := hashes[k];
        assert hashes[k..][1..] == hashes[k + 1..];
        if hash in eventsMap {
          var eventData := eventsMap[hash];
          var r := RegisterBuyMpTransactionInDb(ParamsOf(eventData, env), env);
          if r.Threw? {
            return true;
          }
        }
        k := k + 1;
      }
      return false;
    }

    /** `syncLocalEventsToDb`, given the entries of the local events file. */
    method SyncLocalEventsToDb(localEvents: seq<EventData>, env: Env) returns (outcome: SyncOutcome)
      modifies this
      ensures (State(), outcome) == Sync(old(State()), projects, localEvents, env)
      ensures Extends(old(registry), registry)
      ensures Unique(old(registry)) ==> Unique(registry)
    {
      SyncKeepsUnique(State(), projects, localEvents, env);
      ghost var s0 := State();
      if |localEvents| == 0 {
        return NoLocalEvents;
      }
      var localHashes := HashesOf(localEvents);
      var hashesToRegister := FindNonRegisteredHashes(localHashes, registry);
      if |hashesToRegister| == 0 {
        return UpToDate;
      }
      var eventsMap := IndexByHash(localEvents);
      var threw := RegisterHashes(hashesToRegister, eventsMap, env);
      if threw {
        return Failed;
      }
      return Finished;
    }
  }
}
