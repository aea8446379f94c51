/** One scan pass, phase by phase (src/scanner.rs). */
module Ticks {
  import opened Basics
  import opened Rewind
  import opened Chains
  import opened Nodes
  import opened Tables
  import opened Stores
  import opened Protocol
  import opened Consistency
  import opened Outcomes
  import opened Paging
  import opened Scanner

  /** The listed accounts split as the protocol's `Begin` splits them. */
  lemma ListingSplits(db: Db, rows: seq<AccountRow>)
    requires ListsAccounts(rows, db.accounts)
    ensures forall rh :: rh in CaughtUpNames(rows, db.PrevTip()) <==> db.CaughtUp(rh)
    ensures var p := FirstBehind(rows, db.PrevTip());
            && (p.Some? ==> db.Behind(p.value.rewindHash) && db.accounts[p.value.rewindHash].start == p.value.start)
            && (p.None? ==> forall rh :: rh in db.accounts ==> !db.Behind(rh))
  {
    forall rh ensures rh in CaughtUpNames(rows, db.PrevTip()) <==> db.CaughtUp(rh) {
      CaughtUpNamesMembers(rows, db.PrevTip(), rh);
      if rh in db.accounts {
        var k :| 0 <= k < |rows| && Names(rows)[k] == rh;
        assert Shows(rows[k], db.accounts);
      }
    }
    var p := FirstBehind(rows, db.PrevTip());
    if p.Some? {
      var k :| 0 <= k < |rows| && rows[k] == p.value;
      assert Shows(rows[k], db.accounts);
    } else {
      forall rh | rh in db.accounts ensures !db.Behind(rh) {
        var k :| 0 <= k < |rows| && Names(rows)[k] == rh;
        assert Shows(rows[k], db.accounts);
      }
    }
  }

  /** The forward scan leaves nothing above the cursor missing for the accounts it served. */
  lemma ForwardCovers(db: Db, chain: Chain, before: Outputs, names: seq<string>, rh: string, i: nat)
    requires db.outputs == StoreAll(before, NewOutputs(db, chain), names)
    requires rh in names && Missing(db, chain, rh, i)
    ensures i <= db.ScannedIndex()
  {
    hide RewindOutput; hide StoreAll; hide Chain.UnspentRange;
    if i > db.ScannedIndex() {
      OfferedIsStored(before, chain, db.ScannedIndex() + 1, chain.Size(), names, rh, i);
    }
  }

  /** The database between Phase 2 and Phase 3. */
  function Reconciled(db: Db, chain: Chain, names: seq<string>): Db {
    db.(outputs := Settle(StoreAll(db.outputs, NewOutputs(db, chain), names), chain))
  }

  lemma RegisteredSettle(start: Db, now: Db, outputs: Outputs, chain: Chain, after: Db)
    requires Registered(start.(outputs := outputs), now)
    requires Registered(now.(outputs := Settle(now.outputs, chain)), after)
    ensures Registered(start.(outputs := Settle(outputs, chain)), after)
  {
  }

  /** Phases 1 and 2. */
  method DiscoverAndReconcile(store: Store, node: Node, from: u64, names: seq<string>, tip: u64,
                              ghost chain: Chain, ghost w0: World, ghost pending: Option<string>)
    returns (r: Result<u64>)
    requires Serves(node, chain) && tip == chain.Tip() && from == store.Contents().ScannedIndex() + 1
    requires Reaches(w0, World(store.Contents(), chain, Discover(NameSet(names), pending), w0.harmed))
    modifies store
    ensures r.Ok? ==> r.value == Max(from - 1, chain.Size())
    ensures r.Ok? ==> Reaches(w0, World(store.Contents(), chain, Reconcile(NameSet(names), pending), w0.harmed))
    ensures r.Ok? ==> Registered(Reconciled(old(store.Contents()), chain, names), store.Contents())
    ensures r.Err? ==> Reaches(w0, World(store.Contents(), chain, Idle, w0.harmed))
    ensures old(store.schedule) == [] && Healthy(node, chain) ==> r.Ok? && store.schedule == []
  {
    hide Chain.UnspentRange; hide StoreAll; hide StoreOne; hide Settle;
    ghost var begin := store.Contents();
    ghost var discover := Discover(NameSet(names), pending);
    var scanned, seen := ForwardScan(store, node, from, names, chain, w0, discover);
    ghost var w := World(store.Contents(), chain, discover, w0.harmed);
    if scanned.Err? { ReachesStep(w0, w, Abort); return scanned; }
    DiscoverEnds(w, begin, names);
    ReachesStep(w0, w, EndDiscover);
    ghost var now := store.Contents();
    ghost var reconcile := Reconcile(NameSet(names), pending);
    var reconciled := ReconcileSpends(store, node, tip, chain, w0, reconcile);
    if reconciled.Err? {
      ReachesStep(w0, World(store.Contents(), chain, reconcile, w0.harmed), Abort);
      return Err(reconciled.error);
    }
    RegisteredSettle(begin, now, StoreAll(begin.outputs, NewOutputs(begin, chain), names), chain, store.Contents());
    r := scanned;
  }

  lemma DiscoverEnds(w: World, begin: Db, names: seq<string>)
    requires w.phase.Discover? && w.phase.caughtUp == NameSet(names)
    requires Registered(begin.(outputs := StoreAll(begin.outputs, NewOutputs(begin, w.chain), names)), w.db)
    ensures Enabled(w, EndDiscover)
  {
    hide RewindOutput; hide StoreAll; hide Chain.UnspentRange;
    forall rh, i: nat | rh in w.phase.caughtUp && Missing(w.db, w.chain, rh, i)
      ensures i <= w.db.ScannedIndex()
    {
      ForwardCovers(w.db, w.chain, begin.outputs, names, rh, i);
    }
  }

  lemma RegisteredBackfill(before: Db, after: Db, chain: Chain, row: AccountRow)
    requires Registered(before, after) && row.rewindHash in before.accounts
    ensures Registered(Backfilled(before, chain, row), Backfilled(after, chain, row))
  {
  }

  lemma RegisteredTrans(a: Db, b: Db, c: Db)
    requires Registered(a, b) && Registered(b, c)
    ensures Registered(a, c)
  {
  }

  /** The database after Phase 3. */
  function Checkpointed(db: Db, chain: Chain, names: seq<string>): Db {
    db.(accounts := Advanced(db.accounts, names, chain.Tip()))
      .SetCursor(Max(chain.Size(), db.ScannedIndex()), chain.Tip(), chain.HashAt(chain.Tip()))
  }

  /** Phase 3: the cursor first, then the accounts the scan served. */
  method Checkpoint(store: Store, names: seq<string>, newIndex: u64, tip: u64, tipHash: string,
                    ghost chain: Chain, ghost w0: World, ghost pending: Option<string>)
    returns (r: Result<bool>)
    requires newIndex == Max(chain.Size(), store.Contents().ScannedIndex()) && tip == chain.Tip()
             && tipHash == chain.HashAt(tip)
    requires Reaches(w0, World(store.Contents(), chain, Reconcile(NameSet(names), pending), w0.harmed))
    requires forall c :: c in store.outputs && !store.outputs[c].spent ==> chain.Live(c)
    requires forall rh :: rh in names ==> rh in store.accounts
    modifies store
    ensures r.Ok? ==> Reaches(w0, World(store.Contents(), chain, Advance({}, pending), w0.harmed))
    ensures r.Ok? ==> Registered(Checkpointed(old(store.Contents()), chain, names), store.Contents())
    ensures r.Err? ==> Reaches(w0, World(store.Contents(), chain, Idle, w0.harmed))
    ensures old(store.schedule) == [] ==> r.Ok? && store.schedule == []
  {
    ghost var begin := store.Contents();
    ghost var w := World(begin, chain, Reconcile(NameSet(names), pending), w0.harmed);
    var fault := store.Yield();
    ReachesArrival(w0, w, store.Contents());
    w := w.(db := store.Contents());
    if fault { ReachesStep(w0, w, Abort); return Err(DbError); }
    store.SetCursor(newIndex, tip, tipHash);
    ReachesStep(w0, w, MoveCursor);
    ghost var left;
    r, left := AdvanceAccounts(store, names, tip, chain, w0, pending);
    if r.Err? { ReachesStep(w0, World(store.Contents(), chain, Advance(left, pending), w0.harmed), Abort); }
  }

  /** Phase 4: one account that was behind when the tick listed them, if any. */
  method BackfillOne(store: Store, node: Node, behind: Option<AccountRow>, newIndex: u64, tip: u64,
                     ghost chain: Chain, ghost w0: World, ghost pending: Option<string>)
    returns (r: Result<bool>)
    requires chain.Valid() && Serves(node, chain) && newIndex >= chain.Size() && tip == chain.Tip()
    requires Reaches(w0, World(store.Contents(), chain, Advance({}, pending), w0.harmed))
    requires if behind.Some?
             then pending == Some(behind.value.rewindHash) && behind.value.rewindHash in store.accounts
                  && store.accounts[behind.value.rewindHash].start == behind.value.start
             else pending == None
    modifies store
    ensures r.Err? || behind.None? ==> Reaches(w0, World(store.Contents(), chain, Idle, w0.harmed))
    ensures r.Ok? && behind.Some? ==>
              Reaches(w0, World(store.Contents(), chain, Idle, w0.harmed - {behind.value.rewindHash}))
    ensures r.Ok? && behind.None? ==> Registered(old(store.Contents()), store.Contents())
    ensures r.Ok? && behind.Some? ==>
      Registered(Backfilled(old(store.Contents()), chain, behind.value), store.Contents())
    ensures old(store.schedule) == [] && Healthy(node, chain)
            && (behind.Some? ==> behind.value.start <= chain.Tip()) ==>
              r.Ok? && store.schedule == []
  {
    ghost var w := World(store.Contents(), chain, Advance({}, pending), w0.harmed);
    if behind.Some? {
      ReachesStep(w0, w, StartBackfill);
      r := BackfillAccount(store, node, behind.value, newIndex, tip, chain, w0);
      if r.Err? {
        ghost var phase := Backfill(behind.value.rewindHash, chain.FirstIndex(behind.value.start));
        ReachesStep(w0, World(store.Contents(), chain, phase, w0.harmed), Abort);
      }
    } else {
      ReachesStep(w0, w, EndTick);
      r := Ok(true);
    }
  }

  predicate BirthdaysPast(accounts: map<string, Account>, chain: Chain) {
    forall rh :: rh in accounts ==> accounts[rh].start <= chain.Tip()
  }

  /** Phases 1 to 4, from the listing of the accounts on. */
  method ScanPhases(store: Store, node: Node, cursor: Option<Cursor>, rows: seq<AccountRow>, tip: u64, tipHash: string,
                    ghost chain: Chain, ghost w0: World)
    returns (r: Result<bool>)
    requires chain.Valid() && Serves(node, chain) && tip == chain.Tip() && tipHash == chain.HashAt(tip)
    requires cursor == store.cursor && ListsAccounts(rows, store.accounts)
    requires store.Contents().ScannedIndex() < TWO_TO_THE_64 - 1 && !ReorgSeen(cursor, chain)
    requires Reaches(w0, World(store.Contents(), chain, Idle, w0.harmed))
    modifies store
    ensures r.Err? ==> Reaches(w0, World(store.Contents(), chain, Idle, w0.harmed))
    ensures r.Ok? ==> Reaches(w0, World(store.Contents(), chain, Idle,
                                        w0.harmed - Chosen(rows, old(store.Contents()).PrevTip())))
    ensures r.Ok? ==> Registered(TickOutcome(old(store.Contents()), chain, rows), store.Contents())
    ensures old(store.schedule) == [] && Healthy(node, chain) && BirthdaysPast(old(store.accounts), chain) ==> r.Ok?
  {
    hide Chain.UnspentRange; hide Chain.Live; hide StoreAll; hide StoreOne; hide Settle; hide Reaches;
    var prevTip := if cursor.Some? then cursor.value.tipHeight else 0;
    var scannedIndex := if cursor.Some? then cursor.value.mmrIndex else 0;
    ghost var base := store.Contents();
    var names := CaughtUpNames(rows, prevTip);
    var behind := FirstBehind(rows, prevTip);
    ghost var pending := if behind.Some? then Some(behind.value.rewindHash) else None;
    ListingSplits(base, rows);
    assert NameSet(names) == (set rh | rh in base.accounts && base.CaughtUp(rh));
    ReachesStep(w0, World(base, chain, Idle, w0.harmed), Begin(pending));

    var scanned := DiscoverAndReconcile(store, node, scannedIndex + 1, names, tip, chain, w0, pending);
    if scanned.Err? { return Err(scanned.error); }
    var newIndex := Max(scanned.value, scannedIndex);
    ghost var now := store.Contents();
    SettledRowsLive(StoreAll(base.outputs, NewOutputs(base, chain), names), chain);
    r := Checkpoint(store, names, newIndex, tip, tipHash, chain, w0, pending);
    if r.Err? { return; }
    CheckpointOf(base, now, chain, rows, names, store.Contents());
    now := store.Contents();
    r := BackfillOne(store, node, behind, newIndex, tip, chain, w0, pending);
    assert behind.None? ==> w0.harmed - Chosen(rows, prevTip) == w0.harmed;
    if r.Ok? {
      BackfillOf(base, now, chain, rows, store.Contents());
    }
  }

  lemma CheckpointOf(base: Db, now: Db, chain: Chain, rows: seq<AccountRow>, names: seq<string>, after: Db)
    requires names == CaughtUpNames(rows, base.PrevTip())
    requires Registered(Reconciled(base, chain, names), now) && Registered(Checkpointed(now, chain, names), after)
    requires forall rh :: rh in names ==> rh in base.accounts
    ensures Registered(Scanned(base, chain, rows), after)
  {
  }

  lemma BackfillOf(base: Db, now: Db, chain: Chain, rows: seq<AccountRow>, after: Db)
    requires Registered(Scanned(base, chain, rows), now)
    requires match FirstBehind(rows, base.PrevTip())
             case None => Registered(now, after)
             case Some(row) => row.rewindHash in base.accounts && Registered(Backfilled(now, chain, row), after)
    ensures Registered(TickOutcome(base, chain, rows), after)
  {
    match FirstBehind(rows, base.PrevTip())
    case None => RegisteredTrans(Scanned(base, chain, rows), now, after);
    case Some(row) =>
      RegisteredBackfill(Scanned(base, chain, rows), now, chain, row);
      RegisteredTrans(Backfilled(Scanned(base, chain, rows), chain, row), Backfilled(now, chain, row), after);
  }

  /** Phase 0, as the tick evaluates it: the header is probed only when the chain is long enough. */
  method CheckReorg(node: Node, cursor: Option<Cursor>, tip: u64, ghost next: Chain) returns (r: Result<bool>)
    requires Serves(node, next) && tip == next.Tip()
    ensures r.Ok? ==> r.value == ReorgSeen(cursor, next)
    ensures r.Ok? ==>
              (r.value <==>
               && cursor.Some? && cursor.value.tipHeight > 0
               && (next.Tip() < cursor.value.tipHeight || next.HashAt(cursor.value.tipHeight) != cursor.value.tipHash))
    ensures Healthy(node, next) ==> r.Ok?
  {
    if cursor.Some? && cursor.value.tipHeight > 0 {
      if tip < cursor.value.tipHeight { return Ok(true); }
      var canonical := node.header(cursor.value.tipHeight);
      if canonical.Err? { return Err(canonical.error); }
      return Ok(canonical.value != cursor.value.tipHash);
    }
    r := Ok(false);
  }

  lemma ReorgOfArrivals(before: Db, mid: Db, next: Chain, after: Db)
    requires Registered(before, mid) && ArrivedBehind(ReorgOutcome(mid, next), after)
    ensures ArrivedBehind(ReorgOutcome(before, next), after)
  {
  }

  /** A completed tick that listed `rows` when the database was `base`. */
  ghost predicate TickLeaves(before: Db, next: Chain, base: Db, rows: seq<AccountRow>, after: Db) {
    Registered(before, base) && ListsAccounts(rows, base.accounts) && Registered(TickOutcome(base, next, rows), after)
  }

  /** What a completed tick leaves behind, registrations that landed meanwhile aside. */
  ghost predicate TickEffect(before: Db, next: Chain, after: Db) {
    if ReorgSeen(before.cursor, next)
    then ArrivedBehind(ReorgOutcome(before, next), after) && ScansClamped(after.accounts, Fork(next))
    else exists base, rows :: TickLeaves(before, next, base, rows, after)
  }

  /** What the world does to the tick: the chain it finds is followed, or fails Phase 0. */
  function Meets(w: World, next: Chain): Event {
    if ReorgSeen(w.db.cursor, next) then RollBack(next) else Follow(next)
  }

  /** The cursor column holds an index below 2^63. */
  predicate CursorInRange(cursor: Option<Cursor>) {
    cursor.Some? ==> cursor.value.mmrIndex < TWO_TO_THE_63
  }

  /**
   One scan pass against the snapshot `next`. What a completed pass leaves depends on nothing but the
   node's answers. If `next` is a chain the protocol allows after `w0`, then, whatever fails and whatever
   registers meanwhile, the pass is an execution of the protocol.
   */
  method Tick(store: Store, node: Node, ghost w0: World, ghost next: Chain) returns (r: Result<bool>, ghost end: World)
    requires w0.db == store.Contents() && BetweenTicks(w0.phase) && CursorInRange(store.cursor)
    requires next.Valid() && Serves(node, next)
    modifies store
    ensures r.Ok? ==> TickEffect(old(store.Contents()), next, store.Contents())
    ensures old(store.schedule) == [] && Healthy(node, next) && BirthdaysPast(old(store.accounts), next) ==> r.Ok?
    ensures Enabled(w0, Meets(w0, next)) ==>
              && Reaches(w0, end) && end.db == store.Contents() && BetweenTicks(end.phase)
              && (end.chain == w0.chain || end.chain == next)
              && (r.Ok? ==> end.chain == next && end.phase == Idle)
              && end.harmed <= w0.harmed + HarmedBy(w0, Meets(w0, next))
              && (r.Ok? && !ReorgSeen(old(store.cursor), next) ==>
                    exists base, rows :: TickLeaves(old(store.Contents()), next, base, rows, store.Contents())
                      && end.harmed == w0.harmed + HarmedBy(w0, Follow(next)) - Chosen(rows, base.PrevTip()))
  {
    hide Reaches; hide CheckpointKept; hide ForksWithinDepth; hide AboveStillTrue; hide HarmedBy;
    hide TickOutcome; hide ReorgOutcome; hide ListsAccounts; hide Chosen;
    ghost var lawful := Enabled(w0, Meets(w0, next));
    ReachesSelf(w0);
    end := w0;
    if node.tip.Err? { return Err(node.tip.error), end; }
    var tip, tipHash := node.tip.value.0, node.tip.value.1;
    var fault := store.Yield();
    ReachesArrival(w0, w0, store.Contents());
    end := w0.(db := store.Contents());
    if fault { return Err(DbError), end; }
    var cursor := store.GetCursor();
    var reorg := CheckReorg(node, cursor, tip, next);
    if reorg.Err? { return Err(reorg.error), end; }
    if reorg.value {
      ghost var mid := store.Contents();
      if lawful { ArrivalsKeepRepair(w0, w0, next, mid); }
      r, end := HandleReorg(store, node, tip, next, w0, end);
      if r.Ok? { ReorgOfArrivals(w0.db, mid, next, store.Contents()); }
    } else {
      ghost var start := World(w0.db, next, Idle, w0.harmed + HarmedBy(w0, Follow(next)));
      ReachesSelf(start);
      if lawful { ReachesStep(w0, w0, Follow(next)); }
      ReachesArrival(start, start, store.Contents());
      ghost var now := store.Contents();
      fault := store.Yield();
      ReachesArrival(start, start.(db := now), store.Contents());
      end := start.(db := store.Contents());
      if lawful { ReachesTrans(w0, start, end); }
      if fault { return Err(DbError), end; }
      var rows := store.ListAccounts();
      ghost var base := store.Contents();
      r := ScanPhases(store, node, cursor, rows, tip, tipHash, next, start);
      end := start.(db := store.Contents());
      if r.Ok? { end := end.(harmed := start.harmed - Chosen(rows, base.PrevTip())); }
      assert r.Ok? ==> TickLeaves(w0.db, next, base, rows, store.Contents());
      if lawful { ReachesTrans(w0, start, end); }
    }
  }
}
