/** The background scanner as written, proved to follow the protocol (src/scanner.rs). */
module Scanner {
  import opened Basics
  import opened Rewind
  import opened Chains
  import opened Nodes
  import opened Tables
  import opened Stores
  import opened Protocol
  import opened Consistency
  import opened Outcomes
  import opened Paging

  // ---- Phase 2 ----

  /** A commitment found absent is marked once; marking it again changes nothing. */
  lemma MarkTurn(outputs: Outputs, checked: seq<string>, c: string, w: World)
    requires w.phase.Reconcile? && w.db.outputs == SettleSome(outputs, w.chain, checked)
    requires c in outputs && !outputs[c].spent && !w.chain.Live(c)
    ensures c !in checked ==> Enabled(w, MarkGone(c))
    ensures c in checked ==> MarkSpent(w.db.outputs, c, w.chain.Tip()) == w.db.outputs
  {
  }

  /** Mark every stored-unspent output the node no longer lists. */
  method ReconcileSpends(store: Store, node: Node, tip: u64, ghost chain: Chain, ghost w0: World, ghost phase: Phase)
    returns (r: Result<bool>)
    requires Serves(node, chain) && tip == chain.Tip() && phase.Reconcile?
    requires Reaches(w0, World(store.Contents(), chain, phase, w0.harmed))
    modifies store
    ensures Reaches(w0, World(store.Contents(), chain, phase, w0.harmed))
    ensures r.Ok? ==> Registered(old(store.Contents()).(outputs := Settle(old(store.outputs), chain)), store.Contents())
    ensures r.Ok? ==> store.outputs.Keys == old(store.outputs).Keys
    ensures r.Ok? ==> forall c :: c in store.outputs ==>
              var was := old(store.outputs)[c];
              store.outputs[c] == if !was.spent && !chain.Live(c)
                                  then was.(spent := true, spentHeight := Some(tip)) else was
    ensures r.Err? ==> store.cursor == old(store.cursor)
    ensures old(store.schedule) == [] && Healthy(node, chain) ==> r.Ok? && store.schedule == []
  {
    hide Chain.Live; hide Settle; hide SettleSome; hide Reaches;
    ghost var begin := store.Contents();
    SettleNone(begin.outputs, chain);
    SettleExactly(begin.outputs, chain);
    var fault := store.Yield();
    ReachesArrival(w0, World(begin, chain, phase, w0.harmed), store.Contents());
    if fault { return Err(DbError); }
    var stored := store.AllUnspentCommits();
    if |stored| == 0 {
      SettleEvery(begin.outputs, chain, []);
      return Ok(true);
    }
    var reply, _ := OutputsPresent(node, stored, chain);
    if reply.Err? { return Err(reply.error); }
    var present := reply.value;
    for k := 0 to |stored|
      invariant Reaches(w0, World(store.Contents(), chain, phase, w0.harmed))
      invariant Registered(begin.(outputs := SettleSome(begin.outputs, chain, stored[..k])), store.Contents())
      invariant old(store.schedule) == [] ==> store.schedule == []
    {
      var c := stored[k];
      assert stored[..k + 1] == stored[..k] + [c];
      if c !in present {
        ghost var now := store.Contents();
        fault := store.Yield();
        ReachesArrival(w0, World(now, chain, phase, w0.harmed), store.Contents());
        if fault { return Err(DbError); }
        ghost var w := World(store.Contents(), chain, phase, w0.harmed);
        MarkTurn(begin.outputs, stored[..k], c, w);
        store.SpendOutput(c, tip);
        if c !in stored[..k] {
          ReachesStep(w0, w, MarkGone(c));
        }
        SettleOne(begin.outputs, chain, stored[..k], c);
      } else {
        SettleLive(begin.outputs, chain, stored[..k], c);
      }
    }
    assert stored[..|stored|] == stored;
    SettleEvery(begin.outputs, chain, stored);
    r := Ok(true);
  }

  // ---- Phase 4 ----

  /** A backfill loop stops: the range is done, or the node made no progress. */
  predicate LastBackfillPage(start: nat, upTo: nat, page: OutputPage) {
    Min(page.lastRetrievedIndex, page.highestIndex) >= upTo || page.lastRetrievedIndex < start
  }

  /** The outputs offered so far, on the way to `upTo`. */
  ghost predicate BackfilledTo(chain: Chain, first: nat, upTo: u64, start: nat, seen: seq<ChainOutput>) {
    ScannedTo(chain, first, start, seen) && start <= Max(first, Top(chain, Some(upTo)) + 1)
  }

  /** One turn of the backfill. */
  lemma BackfillTurn(chain: Chain, first: nat, upTo: u64, start: nat, seen: seq<ChainOutput>, page: OutputPage)
    requires BackfilledTo(chain, first, upTo, start, seen)
    requires TruthfulPage(chain, start, Top(chain, Some(upTo)), page)
    ensures if LastBackfillPage(start, upTo, page)
            then seen + page.outputs == chain.UnspentRange(first, Top(chain, Some(upTo)))
            else BackfilledTo(chain, first, upTo, page.lastRetrievedIndex + 1, seen + page.outputs)
  {
    var top := Top(chain, Some(upTo));
    PageJoins(chain, first, start, top, seen, page);
    assert start - 1 > top ==> chain.UnspentRange(first, start - 1) == [] == chain.UnspentRange(first, top);
  }

  /** The account has everything once all its outputs from the birthday's first index on were offered. */
  lemma BackfillCovers(db: Db, chain: Chain, row: AccountRow, seen: seq<ChainOutput>)
    requires chain.Valid() && row.rewindHash in db.accounts && db.accounts[row.rewindHash].start == row.start
    requires seen == chain.UnspentRange(chain.FirstIndex(row.start), chain.Size())
    requires forall c :: c in StoreAll(map[], seen, [row.rewindHash]) ==> c in db.outputs
    ensures FullyStored(db, chain, row.rewindHash)
    ensures forall i: nat :: chain.Funds(row.rewindHash, i) && chain.At(i).height >= row.start ==>
              chain.At(i).commit in db.outputs
  {
    hide RewindOutput; hide StoreAll; hide Chain.UnspentRange; hide Chain.Valid;
    forall i: nat | chain.Funds(row.rewindHash, i) && chain.At(i).height >= row.start
      ensures chain.At(i).commit in db.outputs
    {
      FirstIndexCuts(chain, row.start, i);
      OfferedIsStored(map[], chain, chain.FirstIndex(row.start), chain.Size(), [row.rewindHash], row.rewindHash, i);
    }
  }

  /** No reply claims the largest index as last while its highest is below `upTo`: the one that would overflow. */
  ghost predicate NoOverflow(node: Node, upTo: u64) {
    forall s: u64 :: s > 0 && node.listing(s, Some(upTo), PAGE_MAX).Ok? ==>
      var l := node.listing(s, Some(upTo), PAGE_MAX).value;
      !(l.lastRetrievedIndex == TWO_TO_THE_64 - 1 && l.highestIndex < upTo)
  }

  /**
   The backfill's page loop, for any `upTo`: terminates for any replies but those that overflow; against a
   truthful node, only this account's outputs are stored, and every unspent output with an index from the
   birthday's first one to `upTo` is offered.
   */
  method BackfillScan(store: Store, node: Node, rh: string, first: u64, upTo: u64,
                      ghost chain: Chain, ghost w0: World)
    returns (r: Result<bool>, ghost seen: seq<ChainOutput>)
    requires 0 < first && NoOverflow(node, upTo)
    requires Serves(node, chain) ==> Reaches(w0, World(store.Contents(), chain, Backfill(rh, first), w0.harmed))
    modifies store
    ensures Serves(node, chain) ==> Reaches(w0, World(store.Contents(), chain, Backfill(rh, first), w0.harmed))
    ensures r.Ok? ==>
      Registered(old(store.Contents()).(outputs := StoreAll(old(store.outputs), seen, [rh])), store.Contents())
    ensures r.Ok? && Serves(node, chain) ==> seen == chain.UnspentRange(first, Top(chain, Some(upTo)))
    ensures old(store.schedule) == [] && Healthy(node, chain) ==> r.Ok? && store.schedule == []
  {
    hide Chain.UnspentRange; hide StoreAll; hide StoreOne; hide Reaches;
    NothingOffered(chain, first, store.outputs, [rh]);
    ghost var truthful := Serves(node, chain);
    ghost var begin := store.Contents();
    seen := [];
    var idx: u64 := first;
    while true
      invariant 0 < idx
      invariant truthful ==> Reaches(w0, World(store.Contents(), chain, Backfill(rh, first), w0.harmed))
      invariant Registered(begin.(outputs := StoreAll(begin.outputs, seen, [rh])), store.Contents())
      invariant truthful ==> BackfilledTo(chain, first, upTo, idx, seen)
      invariant old(store.schedule) == [] && Healthy(node, chain) ==> store.schedule == []
      decreases TWO_TO_THE_64 - idx
    {
      ghost var now := store.Contents();
      var scanned := ScanPage(store, node, idx, Some(upTo), [rh], chain, w0, Backfill(rh, first));
      if scanned.Err? { return Err(scanned.error), seen; }
      var page := scanned.value;
      OfferMore(begin, now, seen, page.outputs, [rh], store.Contents());
      if truthful { BackfillTurn(chain, first, upTo, idx, seen, page); }
      seen := seen + page.outputs;
      if LastBackfillPage(idx, upTo, page) {
        break;
      }
      idx := page.lastRetrievedIndex + 1;
    }
    r := Ok(true);
  }

  /** A truthful node never overflows the loop. */
  lemma ServesNoOverflow(node: Node, chain: Chain, upTo: u64)
    requires Serves(node, chain) && chain.Valid()
    ensures NoOverflow(node, upTo)
  {
    forall s: u64 | s > 0 && node.listing(s, Some(upTo), PAGE_MAX).Ok?
      ensures node.listing(s, Some(upTo), PAGE_MAX).value.lastRetrievedIndex < TWO_TO_THE_63
    {
      assert PageTrue(chain, s, Some(upTo), node.listing(s, Some(upTo), PAGE_MAX).value);
    }
  }

  /** Bring one account up to date: scan from its birthday to the cursor, then call it caught up. */
  method BackfillAccount(store: Store, node: Node, acct: AccountRow, upTo: u64, tip: u64,
                         ghost chain: Chain, ghost w0: World)
    returns (r: Result<bool>)
    requires chain.Valid() && Serves(node, chain) && upTo >= chain.Size() && tip == chain.Tip()
    requires Reaches(w0, World(store.Contents(), chain, Backfill(acct.rewindHash, chain.FirstIndex(acct.start)),
             w0.harmed))
    requires acct.rewindHash in store.accounts && store.accounts[acct.rewindHash].start == acct.start
    modifies store
    ensures r.Ok? ==> Reaches(w0, World(store.Contents(), chain, Idle, w0.harmed - {acct.rewindHash}))
    ensures r.Err? ==> Reaches(w0, World(store.Contents(), chain,
            Backfill(acct.rewindHash, chain.FirstIndex(acct.start)), w0.harmed))
    ensures r.Ok? ==> Registered(Backfilled(old(store.Contents()), chain, acct), store.Contents())
    ensures old(store.schedule) == [] && Healthy(node, chain) && acct.start <= chain.Tip() ==>
            r.Ok? && store.schedule == []
  {
    hide Chain.UnspentRange; hide StoreAll; hide StoreOne;
    ghost var phase := Backfill(acct.rewindHash, chain.FirstIndex(acct.start));
    ghost var begin := store.Contents();
    var reply := node.pmmrIndex(acct.start);
    if reply.Err? { return Err(reply.error); }
    assert reply.value == chain.FirstIndex(acct.start);
    ServesNoOverflow(node, chain, upTo);
    ghost var seen;
    r, seen := BackfillScan(store, node, acct.rewindHash, reply.value, upTo, chain, w0);
    if r.Err? { return; }
    ghost var covered := store.Contents();
    var fault := store.Yield();
    ReachesArrival(w0, World(covered, chain, phase, w0.harmed), store.Contents());
    if fault { return Err(DbError); }
    ghost var w := World(store.Contents(), chain, phase, w0.harmed);
    StoreAllGrows(begin.outputs, seen, [acct.rewindHash]);
    BackfillCovers(w.db, chain, acct, seen);
    store.SetAccountScanHeight(acct.rewindHash, tip);
    ReachesStep(w0, w, EndBackfill);
    r := Ok(true);
  }

  // ---- reorganizations ----

  /** No scan height exceeds the fork, except that of an account registered above it. */
  predicate ScansClamped(accounts: map<string, Account>, fork: nat) {
    forall rh :: rh in accounts ==> accounts[rh].scan <= fork || accounts[rh].scan == accounts[rh].start
  }

  /** Registrations change nothing about what a repair may rely on, and a newcomer has nothing to revive. */
  lemma ArrivalsReviveNothing(db: Db, chain: Chain, next: Chain, after: Db, rh: string)
    requires Registered(db, after)
    ensures ForksWithinDepth(db, chain, next) ==> ForksWithinDepth(after, chain, next)
    ensures rh !in db.accounts || RevivesOnlyStored(db, chain, next, rh) ==> RevivesOnlyStored(after, chain, next, rh)
  {
    hide AgreeUpTo; hide RewindOutput;
    forall i: nat | Missing(after, next, rh, i) && rh in db.accounts ensures Missing(db, next, rh, i) {
    }
  }

  /** Between ticks, in a place from which this repair follows the protocol. */
  ghost predicate RepairFollows(w0: World, w: World, next: Chain) {
    Reaches(w0, w) && Enabled(w, RollBack(next))
  }

  lemma ArrivalsKeepRepair(w0: World, w: World, next: Chain, after: Db)
    requires RepairFollows(w0, w, next) && Registered(w.db, after)
    ensures var v := w.(db := after);
            RepairFollows(w0, v, next) && HarmedBy(v, RollBack(next)) <= HarmedBy(w, RollBack(next))
  {
    hide ForksWithinDepth; hide RevivesOnlyStored; hide Reaches;
    var v := w.(db := after);
    ReachesArrival(w0, w, after);
    ArrivalsReviveNothing(w.db, w.chain, next, after, "");
    forall rh | rh in HarmedBy(v, RollBack(next)) ensures rh in HarmedBy(w, RollBack(next)) {
      ArrivalsReviveNothing(w.db, w.chain, next, after, rh);
    }
  }

  /** The repair's own steps, as the protocol takes them. */
  lemma RollBackStep(w0: World, w: World, next: Chain)
    requires RepairFollows(w0, w, next)
    ensures Reaches(w0, World(w.db.Rollback(Fork(next)), w.chain, RolledBack(next, SureBelow(w.phase, Fork(next))),
                              w.harmed + HarmedBy(w, RollBack(next))))
    ensures BetweenTicks(w.phase)
  {
    ReachesStep(w0, w, RollBack(next));
  }

  lemma ClampStep(w0: World, w: World)
    requires Reaches(w0, w) && w.phase.RolledBack?
    ensures Reaches(w0, w.(db := w.db.ClampScans(Fork(w.phase.next)), phase := Reseat(w.phase.next)))
  {
    ReachesStep(w0, w, Clamp);
  }

  lemma SeatStep(w0: World, w: World, next: Chain, fork: nat)
    requires Reaches(w0, w) && w.phase == Reseat(next) && fork == Fork(next)
    ensures var seated := w.db.SetCursor(SaturatingSub(next.FirstIndex(fork), 1), fork, next.HashAt(fork));
            Reaches(w0, World(seated, next, Idle, w.harmed))
  {
    ReachesStep(w0, w, SeatCursor);
  }

  lemma StopRepair(w0: World, w: World)
    requires Reaches(w0, w) && (w.phase.RolledBack? || w.phase.Reseat?)
    ensures Reaches(w0, w.(phase := if w.phase.RolledBack? then Unclamped(w.phase.sure) else Idle))
  {
    ReachesStep(w0, w, Abort);
  }

  /** The world a repair step ends in, if the repair follows the protocol. */
  ghost predicate RepairAt(w0: World, w: World, next: Chain, end: World, db: Db, phase: Phase) {
    RepairFollows(w0, w, next) ==>
      && Reaches(w0, end) && end == World(db, w.chain, phase, end.harmed)
      && end.harmed <= w.harmed + HarmedBy(w, RollBack(next))
  }

  /**
   Registrations may land before and between the two statements; a failure there leaves the rollback
   unclamped. `end` follows the world if the repair follows the protocol.
   */
  method RollBackAndClamp(store: Store, fork: nat, ghost next: Chain, ghost w0: World, ghost w: World)
    returns (r: Result<bool>, ghost end: World)
    requires fork == Fork(next) && w.db == store.Contents()
    modifies store
    ensures RepairAt(w0, w, next, end, store.Contents(), end.phase)
    ensures RepairFollows(w0, w, next) ==> if r.Ok? then end.phase == Reseat(next) else BetweenTicks(end.phase)
    ensures r.Ok? ==> ArrivedBehind(old(store.Contents()).Rollback(fork).ClampScans(fork), store.Contents())
    ensures r.Ok? ==> ScansClamped(store.accounts, fork)
    ensures old(store.schedule) == [] ==>
              r.Ok? && store.schedule == [] && store.Contents() == old(store.Contents()).Rollback(fork).ClampScans(fork)
  {
    hide Reaches; hide RepairFollows; hide HarmedBy;
    ghost var lawful := RepairFollows(w0, w, next);
    var fault := store.Yield();
    end := w.(db := store.Contents());
    if lawful {
      ArrivalsKeepRepair(w0, w, next, store.Contents());
      RollBackStep(w0, end, next);
    }
    if fault {
      if lawful { RepairReaches(w0, end, next); }
      return Err(DbError), end;
    }
    ghost var first := store.Contents();
    store.RollbackTo(fork);
    ghost var rolled := World(store.Contents(), w.chain, RolledBack(next, SureBelow(w.phase, fork)),
                              end.harmed + HarmedBy(end, RollBack(next)));
    fault := store.Yield();
    end := rolled.(db := store.Contents());
    if lawful { ReachesArrival(w0, rolled, store.Contents()); }
    if fault {
      if lawful { StopRepair(w0, end); }
      return Err(DbError), end.(phase := Unclamped(end.phase.sure));
    }
    RepairArrivals(w.db, first, store.Contents(), fork);
    store.ClampAccountScanHeights(fork);
    if lawful { ClampStep(w0, end); }
    end := end.(db := store.Contents(), phase := Reseat(next));
    r := Ok(true);
  }

  /** Registrations before and between the two statements, seen through both. */
  lemma RepairArrivals(before: Db, first: Db, second: Db, fork: nat)
    requires Registered(before, first) && Registered(first.Rollback(fork), second)
    ensures ArrivedBehind(before.Rollback(fork).ClampScans(fork), second.ClampScans(fork))
    ensures ScansClamped(second.ClampScans(fork).accounts, fork)
  {
  }

  lemma RepairReaches(w0: World, w: World, next: Chain)
    requires RepairFollows(w0, w, next)
    ensures Reaches(w0, w) && BetweenTicks(w.phase)
  {
  }

  lemma SeatArrivals(before: Db, now: Db, after: Db, mmrIndex: nat, fork: nat, hash: string)
    requires ArrivedBehind(before, now) && Registered(now, after) && ScansClamped(now.accounts, fork)
    ensures ArrivedBehind(before.SetCursor(mmrIndex, fork, hash), after.SetCursor(mmrIndex, fork, hash))
    ensures ScansClamped(after.accounts, fork)
  {
  }

  /**
   Roll back above the fork, clamp the scan heights to it, reseat the cursor below its first index. What a
   completed repair leaves depends on nothing but the node's answers.
   */
  method HandleReorg(store: Store, node: Node, tip: u64, ghost next: Chain, ghost w0: World, ghost w: World)
    returns (r: Result<bool>, ghost end: World)
    requires Serves(node, next) && tip == next.Tip() && w.db == store.Contents()
    modifies store
    ensures RepairFollows(w0, w, next) ==> Reaches(w0, end) && end.db == store.Contents() && BetweenTicks(end.phase)
    ensures RepairFollows(w0, w, next) ==>
              if r.Ok? then end.chain == next && end.phase == Idle else end.chain == w.chain
    ensures RepairFollows(w0, w, next) ==> end.harmed <= w.harmed + HarmedBy(w, RollBack(next))
    ensures r.Ok? ==> ArrivedBehind(ReorgOutcome(old(store.Contents()), next), store.Contents())
    ensures r.Ok? ==> ScansClamped(store.accounts, Fork(next))
    ensures old(store.schedule) == [] && Healthy(node, next) ==>
              r.Ok? && store.schedule == [] && store.Contents() == ReorgOutcome(old(store.Contents()), next)
  {
    hide Reaches; hide RepairFollows; hide HarmedBy;
    ghost var lawful := RepairFollows(w0, w, next);
    var fork := SaturatingSub(tip, REORG_DEPTH);
    r, end := RollBackAndClamp(store, fork, next, w0, w);
    if r.Err? { return; }
    ghost var stopped := end.(phase := Idle);
    if lawful { StopRepair(w0, end); }
    var forkIndex := node.pmmrIndex(fork);
    if forkIndex.Err? { return Err(forkIndex.error), stopped; }
    var forkHash := node.header(fork);
    if forkHash.Err? { return Err(forkHash.error), stopped; }
    ghost var now := store.Contents();
    var fault := store.Yield();
    if lawful { ReachesArrival(w0, end, store.Contents()); }
    end := end.(db := store.Contents());
    if lawful { StopRepair(w0, end); }
    if fault { return Err(DbError), end.(phase := Idle); }
    if lawful { SeatStep(w0, end, next, fork); }
    ghost var clamped := w.db.Rollback(fork).ClampScans(fork);
    SeatArrivals(clamped, now, store.Contents(), SaturatingSub(forkIndex.value, 1), fork, forkHash.value);
    store.SetCursor(SaturatingSub(forkIndex.value, 1), fork, forkHash.value);
    end := World(store.Contents(), next, Idle, end.harmed);
    r := Ok(true);
  }

  // ---- Phase 3 ----

  /** One more account advanced, registrations having landed meanwhile. */
  lemma AdvanceTurn(begin: Db, now: Db, names: seq<string>, rh: string, tip: nat)
    requires Registered(begin.(accounts := Advanced(begin.accounts, names, tip)), now) && rh in begin.accounts
    ensures Registered(begin.(accounts := Advanced(begin.accounts, names + [rh], tip)), now.SetScan(rh, tip))
    ensures rh in names ==> now.SetScan(rh, tip) == now
  {
    if rh in names {
      assert now.SetScan(rh, tip).accounts == now.accounts;
    }
  }

  /** Advance exactly the accounts the forward scan served. */
  method AdvanceAccounts(store: Store, names: seq<string>, tip: nat,
                         ghost chain: Chain, ghost w0: World, ghost pending: Option<string>)
    returns (r: Result<bool>, ghost left: set<string>)
    requires tip == chain.Tip() && forall rh :: rh in names ==> rh in store.accounts
    requires Reaches(w0, World(store.Contents(), chain, Advance(NameSet(names), pending), w0.harmed))
    modifies store
    ensures Reaches(w0, World(store.Contents(), chain, Advance(left, pending), w0.harmed))
    ensures r.Ok? ==> left == {}
    ensures r.Ok? ==> Registered(
      old(store.Contents()).(accounts := Advanced(old(store.accounts), names, tip)), store.Contents())
    ensures old(store.schedule) == [] ==> r.Ok? && store.schedule == []
  {
    hide Advanced;
    ghost var begin := store.Contents();
    AdvanceNone(begin.accounts, tip);
    left := NameSet(names);
    for k := 0 to |names|
      invariant left == NameSet(names) - NameSet(names[..k])
      invariant Reaches(w0, World(store.Contents(), chain, Advance(left, pending), w0.harmed))
      invariant Registered(begin.(accounts := Advanced(begin.accounts, names[..k], tip)), store.Contents())
      invariant old(store.schedule) == [] ==> store.schedule == []
    {
      var rh := names[k];
      ghost var now := store.Contents();
      var fault := store.Yield();
      ReachesArrival(w0, World(now, chain, Advance(left, pending), w0.harmed), store.Contents());
      if fault { return Err(DbError), left; }
      ghost var w := World(store.Contents(), chain, Advance(left, pending), w0.harmed);
      AdvanceTurn(begin, w.db, names[..k], rh, tip);
      store.SetAccountScanHeight(rh, tip);
      if rh in left {
        ReachesStep(w0, w, AdvanceOne(rh));
      } else {
        assert rh in NameSet(names) && rh in names[..k] && left - {rh} == left;
      }
      left := left - {rh};
      assert names[..k + 1] == names[..k] + [rh];
    }
    assert names[..|names|] == names;
    r := Ok(true);
  }
}
