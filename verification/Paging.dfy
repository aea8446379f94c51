/** The scan loops' requests and what they store (src/scanner.rs). */
module Paging {
  import opened Basics
  import opened Rewind
  import opened Chains
  import opened Nodes
  import opened Tables
  import opened Stores
  import opened Protocol
  import opened Outcomes

  // ---- following the protocol ----

  lemma ReachesArrival(w0: World, w: World, after: Db)
    requires Reaches(w0, w) && Registered(w.db, after)
    ensures Reaches(w0, w.(db := after))
  {
    var e := Arrive(after.accounts);
    assert w.db.(accounts := after.accounts) == after;
    ReachesStep(w0, w, e);
  }

  /** Registrations commute with changes to the other tables. */
  lemma RegisteredThrough(start: Db, now: Db, before: Outputs, outputs: Outputs, after: Db)
    requires Registered(start.(outputs := before), now)
    requires Registered(now.(outputs := outputs), after)
    ensures Registered(start.(outputs := outputs), after)
  {
  }

  // ---- page lemmas ----

  function Top(chain: Chain, end: Option<u64>): nat {
    if end.Some? then Min(end.value, chain.Size()) else chain.Size()
  }

  /** The page holds the unspent outputs from `start` to where it says it stopped, within `top`. */
  ghost predicate TruthfulPage(chain: Chain, start: nat, top: nat, page: OutputPage) {
    && page.highestIndex == chain.Size() && page.lastRetrievedIndex <= chain.Size()
    && page.outputs == chain.UnspentRange(start, Min(page.lastRetrievedIndex, top))
    && (page.lastRetrievedIndex < start ==> chain.UnspentRange(start, top) == [])
  }

  /** Every output from `from` on may be stored for any of these accounts. */
  ghost predicate Allowed(w: World, accounts: seq<string>, from: nat) {
    forall rh, i: nat :: rh in accounts && i >= from ==> MatchAllowed(w, rh, i)
  }

  lemma AllowedKept(w: World, v: World, accounts: seq<string>, from: nat, start: nat)
    requires Allowed(w, accounts, from) && from <= start && v.phase == w.phase && v.db.cursor == w.db.cursor
    ensures Allowed(v, accounts, start)
  {
    forall rh, i: nat | rh in accounts && i >= start ensures MatchAllowed(v, rh, i) {
      assert MatchAllowed(w, rh, i);
    }
  }

  lemma ServedPage(node: Node, chain: Chain, start: u64, end: Option<u64>, page: OutputPage)
    requires Serves(node, chain) && start > 0 && GetUnspentOutputs(node, start, end, PAGE_MAX) == Ok(page)
    ensures TruthfulPage(chain, start, Top(chain, end), page)
    ensures forall out :: out in page.outputs ==>
              chain.Unspent(out.mmrIndex) && out == chain.Output(out.mmrIndex) && start <= out.mmrIndex
  {
    assert PageTrue(chain, start, end, node.listing(start, end, PAGE_MAX).value);
    forall out | out in page.outputs
      ensures chain.Unspent(out.mmrIndex) && out == chain.Output(out.mmrIndex) && start <= out.mmrIndex
    {
      RangeMembers(chain, start, Min(page.lastRetrievedIndex, Top(chain, end)), out);
    }
  }

  /** The request loop stops: the page reached the tip of the range, or made no progress. */
  predicate LastPage(start: nat, page: OutputPage) {
    page.lastRetrievedIndex >= page.highestIndex || page.lastRetrievedIndex < start
  }

  /** The outputs offered so far are those from `from` up to, not including, `start`. */
  ghost predicate ScannedTo(chain: Chain, from: nat, start: nat, seen: seq<ChainOutput>) {
    0 < from <= start <= Max(from, chain.Size() + 1) && seen == chain.UnspentRange(from, start - 1)
  }

  lemma NothingOffered(chain: Chain, from: nat, outputs: Outputs, accounts: seq<string>)
    requires 0 < from
    ensures ScannedTo(chain, from, from, []) && StoreAll(outputs, [], accounts) == outputs
  {
  }

  /** Adjacent pages join, within a range ending at `top`. */
  lemma PageJoins(chain: Chain, from: nat, start: nat, top: nat, seen: seq<ChainOutput>, page: OutputPage)
    requires ScannedTo(chain, from, start, seen) && top <= chain.Size() && TruthfulPage(chain, start, top, page)
    ensures start <= page.lastRetrievedIndex < top ==>
              ScannedTo(chain, from, page.lastRetrievedIndex + 1, seen + page.outputs)
    ensures page.lastRetrievedIndex < start || top <= page.lastRetrievedIndex ==>
              seen + page.outputs == chain.UnspentRange(from, Max(top, start - 1))
  {
    if start <= page.lastRetrievedIndex <= top {
      RangeSplit(chain, from, start - 1, page.lastRetrievedIndex);
    }
    if start <= top {
      RangeSplit(chain, from, start - 1, top);
    }
  }

  /** One turn of the forward scan. */
  lemma ForwardTurn(chain: Chain, from: nat, start: nat, seen: seq<ChainOutput>, page: OutputPage)
    requires ScannedTo(chain, from, start, seen) && TruthfulPage(chain, start, chain.Size(), page)
    ensures page.highestIndex == chain.Size()
    ensures if LastPage(start, page)
            then seen + page.outputs == chain.UnspentRange(from, chain.Size())
            else ScannedTo(chain, from, page.lastRetrievedIndex + 1, seen + page.outputs)
  {
    PageJoins(chain, from, start, chain.Size(), seen, page);
  }

  /** A page offered after earlier ones, with registrations landing in between. */
  lemma OfferMore(begin: Db, now: Db, seen: seq<ChainOutput>, page: seq<ChainOutput>, accounts: seq<string>, after: Db)
    requires Registered(begin.(outputs := StoreAll(begin.outputs, seen, accounts)), now)
    requires Registered(now.(outputs := StoreAll(now.outputs, page, accounts)), after)
    ensures Registered(begin.(outputs := StoreAll(begin.outputs, seen + page, accounts)), after)
  {
    StoreAllConcat(begin.outputs, seen, page, accounts);
  }

  // ---- Phase 1 ----

  /** Offer one output to each account in turn; the first match is stored. */
  method StoreFirstMatch(store: Store, out: ChainOutput, accounts: seq<string>,
                         ghost chain: Chain, ghost w0: World, ghost phase: Phase, ghost truthful: bool)
    returns (r: Result<bool>)
    requires truthful ==> Reaches(w0, World(store.Contents(), chain, phase, w0.harmed))
    requires truthful ==> chain.Unspent(out.mmrIndex) && out == chain.Output(out.mmrIndex)
    requires truthful ==> forall rh :: rh in accounts ==>
               MatchAllowed(World(store.Contents(), chain, phase, w0.harmed), rh, out.mmrIndex)
    modifies store
    ensures truthful ==> Reaches(w0, World(store.Contents(), chain, phase, w0.harmed))
    ensures r.Ok? ==> r.value == FirstMatch(accounts, out).Some?
    ensures r.Ok? ==>
      Registered(old(store.Contents()).(outputs := StoreOne(old(store.outputs), out, accounts)), store.Contents())
    ensures r.Err? ==> Registered(old(store.Contents()), store.Contents())
    ensures old(store.schedule) == [] ==> r.Ok? && store.schedule == []
  {
    hide RewindOutput; hide Reaches;
    for k := 0 to |accounts|
      invariant store.Contents() == old(store.Contents()) && store.schedule == old(store.schedule)
      invariant FirstMatch(accounts, out) == FirstMatch(accounts[k..], out)
    {
      var rh := accounts[k];
      var found := RewindOutputViewOnly(rh, out.proof);
      if found.Some? {
        ghost var w := World(store.Contents(), chain, phase, w0.harmed);
        var fault := store.Yield();
        if truthful { ReachesArrival(w0, w, store.Contents()); }
        if fault { return Err(DbError); }
        ghost var v := World(store.Contents(), chain, phase, w0.harmed);
        store.InsertOutput(out.commit, NewRow(out, rh, found.value));
        if truthful { ReachesStep(w0, v, StoreMatch(out.mmrIndex, rh)); }
        return Ok(true);
      }
    }
    r := Ok(false);
  }

  /** Offer a page of outputs. */
  method StorePage(store: Store, outs: seq<ChainOutput>, accounts: seq<string>,
                   ghost chain: Chain, ghost w0: World, ghost phase: Phase, ghost truthful: bool)
    returns (r: Result<bool>)
    requires truthful ==> Reaches(w0, World(store.Contents(), chain, phase, w0.harmed))
    requires truthful ==> forall out :: out in outs ==> chain.Unspent(out.mmrIndex) && out == chain.Output(out.mmrIndex)
    requires truthful ==> forall rh, out :: rh in accounts && out in outs ==>
               MatchAllowed(World(store.Contents(), chain, phase, w0.harmed), rh, out.mmrIndex)
    modifies store
    ensures truthful ==> Reaches(w0, World(store.Contents(), chain, phase, w0.harmed))
    ensures r.Ok? ==>
      Registered(old(store.Contents()).(outputs := StoreAll(old(store.outputs), outs, accounts)), store.Contents())
    ensures r.Err? ==> store.cursor == old(store.cursor)
    ensures old(store.schedule) == [] ==> r.Ok? && store.schedule == []
  {
    hide Chain.UnspentRange;
    ghost var start := store.Contents();
    for k := 0 to |outs|
      invariant truthful ==> Reaches(w0, World(store.Contents(), chain, phase, w0.harmed))
      invariant Registered(start.(outputs := StoreAll(start.outputs, outs[..k], accounts)), store.Contents())
      invariant old(store.schedule) == [] ==> store.schedule == []
    {
      ghost var before := StoreAll(start.outputs, outs[..k], accounts);
      ghost var now := store.Contents();
      var one := StoreFirstMatch(store, outs[k], accounts, chain, w0, phase, truthful);
      if one.Err? { return one; }
      assert outs[..k + 1] == outs[..k] + [outs[k]];
      StoreAllSnoc(start.outputs, outs[..k], outs[k], accounts);
      RegisteredThrough(start, now, before, StoreOne(before, outs[k], accounts), store.Contents());
    }
    assert outs[..|outs|] == outs;
    r := Ok(true);
  }

  /** One request of a scan loop, and the offering of what it returned. */
  method ScanPage(store: Store, node: Node, start: u64, end: Option<u64>, accounts: seq<string>,
                  ghost chain: Chain, ghost w0: World, ghost phase: Phase)
    returns (r: Result<OutputPage>)
    requires start > 0
    requires Serves(node, chain) ==> Reaches(w0, World(store.Contents(), chain, phase, w0.harmed))
    requires Serves(node, chain) ==> Allowed(World(store.Contents(), chain, phase, w0.harmed), accounts, start)
    modifies store
    ensures Serves(node, chain) ==> Reaches(w0, World(store.Contents(), chain, phase, w0.harmed))
    ensures r.Ok? ==> r == GetUnspentOutputs(node, start, end, 1000)
    ensures r.Ok? ==>
      Registered(old(store.Contents()).(outputs := StoreAll(old(store.outputs), r.value.outputs, accounts)),
        store.Contents())
    ensures r.Ok? && Serves(node, chain) ==> TruthfulPage(chain, start, Top(chain, end), r.value)
    ensures r.Err? ==> store.cursor == old(store.cursor)
    ensures old(store.schedule) == [] && Healthy(node, chain) ==> r.Ok? && store.schedule == []
  {
    ghost var truthful := Serves(node, chain);
    r := GetUnspentOutputs(node, start, end, PAGE_MAX);
    if r.Err? { return; }
    if truthful { ServedPage(node, chain, start, end, r.value); }
    var stored := StorePage(store, r.value.outputs, accounts, chain, w0, phase, truthful);
    if stored.Err? { return Err(stored.error); }
  }

  /**
   Page the unspent set from `from` to the tip. Terminates without overflow whatever the node
   replies; against a truthful node it offers every unspent output from `from` on, once, in order.
   */
  method ForwardScan(store: Store, node: Node, from: u64, accounts: seq<string>,
                     ghost chain: Chain, ghost w0: World, ghost phase: Phase)
    returns (r: Result<u64>, ghost seen: seq<ChainOutput>)
    requires from > 0
    requires Serves(node, chain) ==> Reaches(w0, World(store.Contents(), chain, phase, w0.harmed))
    requires Serves(node, chain) ==> Allowed(World(store.Contents(), chain, phase, w0.harmed), accounts, from)
    modifies store
    ensures Serves(node, chain) ==> Reaches(w0, World(store.Contents(), chain, phase, w0.harmed))
    ensures r.Ok? ==>
      Registered(old(store.Contents()).(outputs := StoreAll(old(store.outputs), seen, accounts)), store.Contents())
    ensures r.Ok? && Serves(node, chain) ==> seen == chain.UnspentRange(from, chain.Size())
    ensures r.Ok? && Serves(node, chain) ==> r.value == Max(from - 1, chain.Size())
    ensures r.Err? ==> store.cursor == old(store.cursor)
    ensures old(store.schedule) == [] && Healthy(node, chain) ==> r.Ok? && store.schedule == []
  {
    hide Chain.UnspentRange; hide StoreAll; hide StoreOne;
    NothingOffered(chain, from, store.outputs, accounts);
    ghost var truthful := Serves(node, chain);
    ghost var begin := store.Contents();
    var start: u64 := from;
    var highest: u64 := from - 1;
    seen := [];
    while true
      invariant 0 < from <= start
      invariant truthful ==> Reaches(w0, World(store.Contents(), chain, phase, w0.harmed))
      invariant Registered(begin.(outputs := StoreAll(begin.outputs, seen, accounts)), store.Contents())
      invariant truthful ==> ScannedTo(chain, from, start, seen)
      invariant truthful ==> highest == from - 1 || highest == Max(from - 1, chain.Size())
      invariant old(store.schedule) == [] && Healthy(node, chain) ==> store.schedule == []
      decreases TWO_TO_THE_64 - start
    {
      ghost var now := store.Contents();
      if truthful {
        ghost var first, last := World(begin, chain, phase, w0.harmed), World(now, chain, phase, w0.harmed);
        AllowedKept(first, last, accounts, from, start);
      }
      var reply := ScanPage(store, node, start, None, accounts, chain, w0, phase);
      if reply.Err? { return Err(reply.error), seen; }
      var page := reply.value;
      highest := Max(highest, page.highestIndex);
      OfferMore(begin, now, seen, page.outputs, accounts, store.Contents());
      if truthful { ForwardTurn(chain, from, start, seen, page); }
      seen := seen + page.outputs;
      if LastPage(start, page) {
        break;
      }
      start := page.lastRetrievedIndex + 1;
    }
    r := Ok(highest);
  }
}
