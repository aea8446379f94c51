/** Registering a wallet, and what its birthday promises it (src/api.rs, src/db.rs). */
module Registration {
  import opened Basics
  import opened Rewind
  import opened Tables
  import opened Stores
  import opened Protocol
  import opened Safety

  datatype RegisterResponse = RegisterResponse(registered: bool, newAccount: bool, scanHeight: nat, startHeight: nat)

  /** Register a credential from the requested birthday, or from the tip. */
  method Register(store: Store, rh: string, requested: Option<nat>, tip: nat) returns (response: RegisterResponse)
    modifies store`accounts
    ensures var start := if requested.Some? then requested.value else tip;
            && response.registered && response.startHeight == start
            && (response.newAccount <==> rh !in old(store.accounts))
            && (response.newAccount ==> store.accounts == old(store.accounts)[rh := Account(start, start)])
            && (!response.newAccount ==> store.accounts == old(store.accounts))
            && rh in store.accounts && response.scanHeight == store.accounts[rh].scan
  {
    var start := if requested.Some? then requested.value else tip;
    var added := store.RegisterAccount(rh, start);
    response := RegisterResponse(true, added, store.accounts[rh].scan, start);
  }

  /** A registration as the protocol sees it: exactly one account more, at the requested birthday. */
  ghost predicate Registers(w: World, v: World, rh: string, start: nat) {
    rh !in w.db.accounts && v == w.(db := w.db.(accounts := w.db.accounts[rh := Account(start, start)]))
  }

  /**
   The promise to a newcomer, by the birthday its request named: in every later state, however reached, in which it
   was not harmed and is caught up, it has a live row for each output it owns above that birthday and below the cursor.
   */
  lemma NewcomerIsServed(w: World, v: World, u: World, rh: string, start: nat, i: nat)
    requires Reachable(w) && Registers(w, v, rh, start) && Reaches(v, u)
    requires rh !in u.harmed && !u.phase.RolledBack? && !u.phase.Unclamped? && !u.db.Behind(rh)
    requires u.chain.Funds(rh, i) && i <= u.db.ScannedIndex() && u.chain.At(i).height > start
    ensures LiveRowOf(u.db, u.chain, rh, i)
  {
    hide LiveRowOf; hide RewindOutput; hide Trace;
    BirthdayFrom(w, v, u, rh, start);
    WholeRunCompleteness(u, rh, i);
  }

  /** In every later state the newcomer is there, with the birthday its request named. */
  lemma BirthdayFrom(w: World, v: World, u: World, rh: string, start: nat)
    requires Reachable(w) && Registers(w, v, rh, start) && Reaches(v, u)
    ensures Reachable(v) && Reachable(u) && rh in u.db.accounts && u.db.accounts[rh].start == start
  {
    var e := Arrive(v.db.accounts);
    assert After(w, e) == v;
    var begin :| Starts(begin) && Reaches(begin, w);
    ReachesStep(begin, w, e);
    ReachableStays(v, u);
    var ws :| Trace(ws) && ws[0] == v && ws[|ws| - 1] == u;
    BirthdayIsPermanent(ws, rh);
  }
}
