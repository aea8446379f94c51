/**
 The scanner as a state machine, one transition per database action (src/scanner.rs).
 Registrations may land, and a tick may be abandoned, in any phase.
 */
module Protocol {
  import opened Basics
  import opened Rewind
  import opened Chains
  import opened Tables

  /** How far back a reorganization is repaired. */
  const REORG_DEPTH: nat := 100

  function Fork(chain: Chain): nat {
    SaturatingSub(chain.Tip(), REORG_DEPTH)
  }

  /**
   `Unclamped(sure)` is between ticks, a rollback having stopped before its clamp: what the scan heights
   promise is there only below `sure`.
   */
  datatype Phase =
    | Idle
    | Unclamped(sure: nat)
    | Discover(caughtUp: set<string>, pending: Option<string>)
    | Reconcile(caughtUp: set<string>, pending: Option<string>)
    | Advance(todo: set<string>, pending: Option<string>)
    | Backfill(account: string, first: nat)
    | RolledBack(next: Chain, sure: nat)
    | Reseat(next: Chain)

  predicate BetweenTicks(phase: Phase) {
    phase.Idle? || phase.Unclamped?
  }

  /**
   `chain` is the snapshot the stored rows describe: the one the last writing tick read. `harmed` holds the
   accounts that lost something through an event outside the scanner's control and were not backfilled since.
   */
  datatype World = World(db: Db, chain: Chain, phase: Phase, harmed: set<string>)

  datatype Event =
    | Follow(next: Chain)                      // Phase 0 passed against `next`
    | Begin(pending: Option<string>)           // accounts listed
    | StoreMatch(index: nat, rewindHash: string)
    | EndDiscover
    | MarkGone(commit: string)
    | MoveCursor
    | AdvanceOne(rewindHash: string)
    | StartBackfill
    | EndBackfill
    | EndTick
    | RollBack(next: Chain)                    // Phase 0 failed against `next`
    | Clamp
    | SeatCursor
    | Arrive(accounts: map<string, Account>)   // registrations
    | LowerScan(rewindHash: string, height: nat) // an admin rescan
    | Abort

  /** Phase 0: the checkpoint is above the tip, or its hash is no longer canonical. */
  predicate ReorgSeen(cursor: Option<Cursor>, chain: Chain) {
    cursor.Some? && cursor.value.tipHeight > 0 &&
    (chain.Tip() < cursor.value.tipHeight || chain.HashAt(cursor.value.tipHeight) != cursor.value.tipHash)
  }

  /** A live output above the account's birthday that is not in the database. */
  ghost predicate Missing(db: Db, chain: Chain, rh: string, i: nat) {
    && rh in db.accounts && chain.Funds(rh, i)
    && db.accounts[rh].start < chain.At(i).height
    && chain.At(i).commit !in db.outputs
  }

  ghost predicate FullyStored(db: Db, chain: Chain, rh: string) {
    rh in db.accounts && forall i: nat :: !Missing(db, chain, rh, i)
  }

  // ---- rows against a chain ----

  /** The row tells the truth about the output of commitment `c` on `chain`, spend columns aside. */
  ghost predicate RowTrue(chain: Chain, c: string, row: Row) {
    && chain.Pays(row.owner, row.mmrIndex)
    && chain.At(row.mmrIndex).commit == c
    && row.(spent := false, spentHeight := None)
       == NewRow(chain.Output(row.mmrIndex), row.owner, Found(row.owner, chain.At(row.mmrIndex).proof))
  }

  /** A spend flag is never early: the real spend is at or below the recorded height. */
  ghost predicate SpendTrue(chain: Chain, row: Row) {
    if row.spent
    then row.spentHeight.Some? && row.mmrIndex in chain.spentAt && chain.spentAt[row.mmrIndex] <= row.spentHeight.value
    else row.spentHeight.None?
  }

  /** Something about the row was recorded above height `h`. */
  predicate Above(row: Row, h: nat) {
    row.height > h || SpentAbove(row, h)
  }

  // ---- what the chain may do between two ticks ----

  /** What a stopped tick stored above the checkpoint is still so. */
  ghost predicate AboveStillTrue(db: Db, next: Chain) {
    forall c :: c in db.outputs && Above(db.outputs[c], db.PrevTip()) ==>
      RowTrue(next, c, db.outputs[c]) && SpendTrue(next, db.outputs[c])
  }

  /** The block recorded by the cursor, and with it all below, is still there. */
  ghost predicate CheckpointKept(db: Db, chain: Chain, next: Chain) {
    next.Valid() && AgreeUpTo(chain, next, db.PrevTip())
  }

  /** The checkpoint stands, and so does what was stored above it. */
  ghost predicate Follows(db: Db, chain: Chain, next: Chain) {
    CheckpointKept(db, chain, next) && AboveStillTrue(db, next)
  }

  /**
   The account has no output inside its scanned range that was spent before it was ever listed and that
   the new blocks no longer spend: nothing would make the scanner look there again.
   */
  ghost predicate RevivesNothing(db: Db, chain: Chain, next: Chain, rh: string) {
    forall i: nat :: Missing(db, next, rh, i) && i in chain.spentAt ==>
      next.At(i).height >= db.accounts[rh].scan && (db.CaughtUp(rh) ==> i > db.ScannedIndex())
  }

  /** The same for a repair, which lowers the scanned range to the fork. */
  ghost predicate RevivesOnlyStored(db: Db, chain: Chain, next: Chain, rh: string) {
    forall i: nat :: Missing(db, next, rh, i) && i in chain.spentAt ==>
      next.At(i).height >= Min(db.accounts[rh].scan, Fork(next))
  }

  /** Phase 0 fails, and the branch keeps the blocks the repair relies on. */
  ghost predicate ForksWithinDepth(db: Db, chain: Chain, next: Chain) {
    next.Valid() && ReorgSeen(db.cursor, next) && AgreeUpTo(chain, next, Fork(next))
  }

  /** The rescan would delete a row the account still needs and the cursor has passed. */
  ghost predicate DeletesNeeded(db: Db, chain: Chain, rh: string, height: nat) {
    rh in db.accounts &&
    exists c :: c in db.outputs && db.outputs[c].owner == rh && chain.Live(c)
      && db.outputs[c].mmrIndex <= db.ScannedIndex()
      && db.accounts[rh].start < db.outputs[c].height && height <= db.outputs[c].height
  }

  // ---- the machine ----

  /** The forward scan stores matches above the cursor, a backfill those of its own account from its birthday on. */
  ghost predicate MatchAllowed(w: World, rh: string, i: nat) {
    (w.phase.Discover? && rh in w.phase.caughtUp && i > w.db.ScannedIndex())
      || (w.phase.Backfill? && rh == w.phase.account && i >= w.phase.first)
  }

  /** What may happen: each action in its phase, and between ticks any rescan, growth or reorganization within depth. */
  ghost predicate Enabled(w: World, e: Event) {
    match e
    case Follow(next) => BetweenTicks(w.phase) && Follows(w.db, w.chain, next)
    case Begin(pending) =>
      && w.phase.Idle? && !ReorgSeen(w.db.cursor, w.chain)
      && (pending.Some? ==> w.db.Behind(pending.value))
      && (pending.None? ==> forall rh :: rh in w.db.accounts ==> !w.db.Behind(rh))
    case StoreMatch(i, rh) => MatchAllowed(w, rh, i) && w.chain.Funds(rh, i)
    case EndDiscover =>
      && w.phase.Discover?
      && forall rh, i: nat :: rh in w.phase.caughtUp && Missing(w.db, w.chain, rh, i) ==> i <= w.db.ScannedIndex()
    case MarkGone(c) => w.phase.Reconcile? && c in w.db.outputs && !w.db.outputs[c].spent && !w.chain.Live(c)
    case MoveCursor =>
      && w.phase.Reconcile?
      && forall c :: c in w.db.outputs && !w.db.outputs[c].spent ==> w.chain.Live(c)
    case AdvanceOne(rh) => w.phase.Advance? && rh in w.phase.todo
    case StartBackfill =>
      w.phase.Advance? && w.phase.todo == {} && w.phase.pending.Some? && w.phase.pending.value in w.db.accounts
    case EndBackfill => w.phase.Backfill? && FullyStored(w.db, w.chain, w.phase.account)
    case EndTick => w.phase.Advance? && w.phase.todo == {} && w.phase.pending.None?
    case RollBack(next) => BetweenTicks(w.phase) && ForksWithinDepth(w.db, w.chain, next)
    case Clamp => w.phase.RolledBack?
    case SeatCursor => w.phase.Reseat?
    case Arrive(accounts) => Registered(w.db, w.db.(accounts := accounts))
    case LowerScan(rh, height) => BetweenTicks(w.phase)
    case Abort => !BetweenTicks(w.phase)
  }

  /** The account never progressed past its own birthday, so it has nothing to miss. */
  predicate Unstarted(db: Db, rh: string) {
    rh in db.accounts && db.accounts[rh].scan <= db.accounts[rh].start
  }

  /**
   After a rollback without its clamp, a repair to this fork, or none at all, still looks again where rows are gone.
   */
  predicate StillSure(w: World, rh: string, fork: Option<nat>) {
    w.phase.Unclamped? && rh in w.db.accounts && !Unstarted(w.db, rh) ==>
      var scan := w.db.accounts[rh].scan;
      if fork.Some? then Min(scan, fork.value) <= w.phase.sure else scan <= w.phase.sure && w.db.Behind(rh)
  }

  /**
   Whether an event takes nothing from this account's completeness. Only these can: an unstored output
   revived inside the scanned range, a rescan that deletes what nobody would look for again, and, after
   a rollback without its clamp, a clamp or a pass that trusts the scan height where rows are gone.
   */
  ghost predicate Harmless(w: World, e: Event, rh: string) {
    match e
    case Follow(next) => RevivesNothing(w.db, w.chain, next, rh) && StillSure(w, rh, None)
    case RollBack(next) => RevivesOnlyStored(w.db, w.chain, next, rh) && StillSure(w, rh, Some(Fork(next)))
    case LowerScan(a, height) =>
      w.phase.Idle? && a == rh && rh in w.db.accounts ==>
        height < w.db.accounts[rh].scan || w.db.Behind(rh) || !DeletesNeeded(w.db, w.chain, rh, height)
    case _ => true
  }

  ghost function HarmedBy(w: World, e: Event): set<string> {
    set rh | rh in w.db.accounts && !Harmless(w, e, rh)
  }

  /** After rolling back to `fork`, the scan heights can be trusted below this. */
  function SureBelow(phase: Phase, fork: nat): nat {
    if phase.Unclamped? then Min(phase.sure, fork + 1) else fork + 1
  }

  ghost function After(w: World, e: Event): World
    requires Enabled(w, e)
  {
    match e
    case Follow(next) => World(w.db, next, Idle, w.harmed + HarmedBy(w, e))
    case Begin(pending) => w.(phase := Discover((set rh | rh in w.db.accounts && w.db.CaughtUp(rh)), pending))
    case StoreMatch(i, rh) =>
      var row := NewRow(w.chain.Output(i), rh, Found(rh, w.chain.At(i).proof));
      w.(db := w.db.(outputs := Insert(w.db.outputs, w.chain.At(i).commit, row)))
    case EndDiscover => w.(phase := Reconcile(w.phase.caughtUp, w.phase.pending))
    case MarkGone(c) => w.(db := w.db.(outputs := MarkSpent(w.db.outputs, c, w.chain.Tip())))
    case MoveCursor =>
      w.(db := w.db.SetCursor(Max(w.chain.Size(), w.db.ScannedIndex()), w.chain.Tip(), w.chain.HashAt(w.chain.Tip())),
         phase := Advance(w.phase.caughtUp, w.phase.pending))
    case AdvanceOne(rh) =>
      w.(db := w.db.SetScan(rh, w.chain.Tip()), phase := Advance(w.phase.todo - {rh}, w.phase.pending))
    case StartBackfill =>
      var rh := w.phase.pending.value;
      w.(phase := Backfill(rh, w.chain.FirstIndex(w.db.accounts[rh].start)))
    case EndBackfill =>
      w.(db := w.db.SetScan(w.phase.account, w.chain.Tip()), phase := Idle, harmed := w.harmed - {w.phase.account})
    case EndTick => w.(phase := Idle)
    case RollBack(next) =>
      World(w.db.Rollback(Fork(next)), w.chain, RolledBack(next, SureBelow(w.phase, Fork(next))),
            w.harmed + HarmedBy(w, e))
    case Clamp => w.(db := w.db.ClampScans(Fork(w.phase.next)), phase := Reseat(w.phase.next))
    case SeatCursor =>
      var next := w.phase.next;
      w.(db := w.db.SetCursor(SaturatingSub(next.FirstIndex(Fork(next)), 1), Fork(next), next.HashAt(Fork(next))),
         chain := next, phase := Idle)
    case Arrive(accounts) => w.(db := w.db.(accounts := accounts))
    case LowerScan(rh, height) => w.(db := w.db.Rescan(rh, height), harmed := w.harmed + HarmedBy(w, e))
    case Abort => w.(phase := if w.phase.RolledBack? then Unclamped(w.phase.sure) else Idle)
  }

  // ---- runs ----

  ghost predicate Starts(w: World) {
    w.db == Db(map[], map[], None) && w.chain.Valid() && w.phase.Idle? && w.harmed == {}
  }

  ghost predicate Step(w: World, v: World) {
    exists e :: Enabled(w, e) && After(w, e) == v
  }

  ghost predicate Trace(ws: seq<World>) {
    && |ws| > 0
    && forall j, k :: 0 <= j && k == j + 1 && k < |ws| ==> Step(ws[j], ws[k])
  }

  ghost predicate Reaches(w: World, v: World) {
    exists ws :: Trace(ws) && ws[0] == w && ws[|ws| - 1] == v
  }

  lemma ReachesSelf(w: World)
    ensures Reaches(w, w)
  {
    assert Trace([w]) && [w][0] == w;
  }

  lemma ReachesStep(w: World, v: World, e: Event)
    requires Reaches(w, v) && Enabled(v, e)
    ensures Reaches(w, After(v, e))
  {
    var ws :| Trace(ws) && ws[0] == w && ws[|ws| - 1] == v;
    var vs := ws + [After(v, e)];
    assert Step(v, After(v, e));
    forall j, k | 0 <= j && k == j + 1 && k < |vs| ensures Step(vs[j], vs[k]) {
      if k < |ws| {
        assert Step(ws[j], ws[k]);
      }
    }
    assert vs[0] == w && vs[|vs| - 1] == After(v, e);
  }

  lemma ReachesTrans(u: World, w: World, v: World)
    requires Reaches(u, w) && Reaches(w, v)
    ensures Reaches(u, v)
  {
    var xs :| Trace(xs) && xs[0] == u && xs[|xs| - 1] == w;
    var ys :| Trace(ys) && ys[0] == w && ys[|ys| - 1] == v;
    var zs := xs + ys[1..];
    forall j, k | 0 <= j && k == j + 1 && k < |zs| ensures Step(zs[j], zs[k]) {
      if k < |xs| {
        assert Step(xs[j], xs[k]);
      } else {
        assert zs[j] == ys[j - (|xs| - 1)] && zs[k] == ys[k - (|xs| - 1)];
        assert Step(ys[j - (|xs| - 1)], ys[k - (|xs| - 1)]);
      }
    }
    assert zs[0] == u && zs[|zs| - 1] == v;
  }
}
