/** What the scanner asks of a Grin node, and when the answers are truthful (src/grin.rs). */
module Nodes {
  import opened Basics
  import opened Rewind
  import opened Chains

  /** Commitments per membership request. */
  const OUTPUTS_CHUNK: nat := 500
  /** Outputs per listing request. */
  const PAGE_MAX: nat := 1000

  /** One entry of a listing, as permissively decoded: any of these may be missing or stale. */
  datatype Printable = Printable(
    coinbase: bool, commit: string, spent: bool, proof: Option<RangeProof>, blockHeight: Option<u64>, mmrIndex: u64)

  datatype Listing = Listing(highestIndex: u64, lastRetrievedIndex: u64, outputs: seq<Printable>)

  datatype OutputPage = OutputPage(highestIndex: u64, lastRetrievedIndex: u64, outputs: seq<ChainOutput>)

  /** The node's answers during one tick; any request may fail. */
  datatype Node = Node(
    tip: Result<(u64, string)>,
    header: nat -> Result<string>,
    listing: (u64, Option<u64>, nat) -> Result<Listing>,
    outputs: seq<string> -> Result<seq<string>>,
    pmmrIndex: nat -> Result<u64>)

  // ---- client side: skipping unusable entries ----

  function FromPrintable(p: Printable): Option<ChainOutput> {
    if p.spent then None
    else
      match (p.proof, p.blockHeight)
      case (Some(proof), Some(height)) => Some(ChainOutput(p.commit, proof, p.coinbase, height, p.mmrIndex))
      case _ => None
  }

  function Usable(ps: seq<Printable>): seq<ChainOutput> {
    if |ps| == 0 then []
    else
      match FromPrintable(ps[0])
      case None => Usable(ps[1..])
      case Some(out) => [out] + Usable(ps[1..])
  }

  /** The entry is unspent, has proof and height, and shows this output. */
  predicate Prints(p: Printable, out: ChainOutput) {
    && !p.spent && p.proof == Some(out.proof) && p.blockHeight.Some? && p.blockHeight.value == out.height
    && p.commit == out.commit && p.coinbase == out.isCoinbase && p.mmrIndex == out.mmrIndex
  }

  /** Spent entries and entries lacking proof or height are skipped; nothing else is, and nothing is altered. */
  lemma {:induction false} UsableExactly(ps: seq<Printable>, out: ChainOutput)
    ensures out in Usable(ps) <==> exists k :: 0 <= k < |ps| && Prints(ps[k], out)
  {
    if |ps| > 0 {
      UsableExactly(ps[1..], out);
      assert FromPrintable(ps[0]) == Some(out) <==> Prints(ps[0], out);
      if k :| 0 <= k < |ps| && Prints(ps[k], out) {
        if k > 0 { assert Prints(ps[1..][k - 1], out); }
      }
      if k :| 0 <= k < |ps| - 1 && Prints(ps[1..][k], out) {
        assert Prints(ps[k + 1], out);
      }
    }
  }

  function GetUnspentOutputs(node: Node, start: u64, end: Option<u64>, max: nat): Result<OutputPage> {
    match node.listing(start, end, max)
    case Err(e) => Err(e)
    case Ok(l) => Ok(OutputPage(l.highestIndex, l.lastRetrievedIndex, Usable(l.outputs)))
  }

  /** Of `commits`, those the node lists as unspent, asked for 500 at a time, in order. */
  method OutputsPresent(node: Node, commits: seq<string>, ghost chain: Chain)
    returns (r: Result<set<string>>, ghost asked: seq<seq<string>>)
    requires Serves(node, chain)
    ensures r.Ok? ==> forall c :: c in r.value ==> chain.Live(c)
    ensures r.Ok? ==> forall c :: c in commits && chain.Live(c) ==> c in r.value
    ensures Healthy(node, chain) ==> r.Ok?
    ensures forall k :: 0 <= k < |asked| ==>
              500 * k < |commits| && asked[k] == commits[500 * k..Min(500 * k + 500, |commits|)]
    ensures r.Ok? ==> 500 * |asked| >= |commits|
  {
    asked := [];
    var present: set<string> := {};
    var at := 0;
    while at < |commits|
      invariant at <= |commits| && at == Min(500 * |asked|, |commits|)
      invariant forall k :: 0 <= k < |asked| ==>
                  500 * k < |commits| && asked[k] == commits[500 * k..Min(500 * k + 500, |commits|)]
      invariant forall c :: c in present ==> chain.Live(c)
      invariant forall c :: c in commits[..at] && chain.Live(c) ==> c in present
    {
      var stop := Min(at + OUTPUTS_CHUNK, |commits|);
      var chunk := commits[at..stop];
      var reply := node.outputs(chunk);
      asked := asked + [chunk];
      if reply.Err? { return Err(reply.error), asked; }
      ghost var before := present;
      for k := 0 to |reply.value|
        invariant before <= present
        invariant forall c :: c in present ==> chain.Live(c)
        invariant forall c :: c in reply.value[..k] ==> c in present
      {
        present := present + {reply.value[k]};
      }
      assert commits[..stop] == commits[..at] + chunk;
      at := stop;
    }
    assert commits[..at] == commits;
    r := Ok(present);
  }

  // ---- the contract ----

  /** A listing tells the truth about the range it covers and stops early only when nothing is left. */
  ghost predicate PageTrue(chain: Chain, start: nat, end: Option<u64>, l: Listing) {
    var top := if end.Some? then Min(end.value, chain.Size()) else chain.Size();
    && l.highestIndex == chain.Size()
    && l.lastRetrievedIndex <= l.highestIndex
    && Usable(l.outputs) == chain.UnspentRange(start, Min(l.lastRetrievedIndex, top))
    && (l.lastRetrievedIndex < start ==> chain.UnspentRange(start, top) == [])
  }

  /** Every successful answer describes `chain`. */
  ghost predicate Serves(node: Node, chain: Chain) {
    && (node.tip.Ok? ==> node.tip.value == (chain.Tip(), chain.HashAt(chain.Tip())))
    && (forall h: nat :: node.header(h).Ok? ==> h <= chain.Tip() && node.header(h).value == chain.HashAt(h))
    && (forall s: u64, e: Option<u64>, m: nat :: s > 0 && m > 0 && node.listing(s, e, m).Ok? ==>
          PageTrue(chain, s, e, node.listing(s, e, m).value))
    && (forall cs: seq<string> :: node.outputs(cs).Ok? ==>
          && (forall c :: c in node.outputs(cs).value ==> chain.Live(c))
          && (forall c :: c in cs && chain.Live(c) ==> c in node.outputs(cs).value))
    && (forall h: nat :: node.pmmrIndex(h).Ok? ==> node.pmmrIndex(h).value == chain.FirstIndex(h))
  }

  /** In addition, no request about an existing block or index fails. */
  ghost predicate Healthy(node: Node, chain: Chain) {
    && Serves(node, chain)
    && node.tip.Ok?
    && (forall h: nat :: h <= chain.Tip() ==> node.header(h).Ok? && node.pmmrIndex(h).Ok?)
    && (forall s: u64, e: Option<u64>, m: nat :: node.listing(s, e, m).Ok?)
    && (forall cs: seq<string> :: node.outputs(cs).Ok?)
  }

  // ---- a concrete node: leaves walked from the start index until the page is full ----

  /** The index a page ends at: `budget` unspent leaves further on, or the end of the range. */
  function PageEnd(chain: Chain, start: nat, top: nat, budget: nat): (last: int)
    ensures start - 1 <= last
    ensures start <= top + 1 ==> last <= top
    decreases top + 1 - start
  {
    if budget == 0 || top < start then start - 1
    else PageEnd(chain, start + 1, top, if chain.Unspent(start) then budget - 1 else budget)
  }

  predicate FitsU64(outs: seq<ChainOutput>) {
    forall k :: 0 <= k < |outs| ==> outs[k].height < TWO_TO_THE_64 && outs[k].mmrIndex < TWO_TO_THE_64
  }

  function Printed(outs: seq<ChainOutput>): seq<Printable>
    requires FitsU64(outs)
  {
    seq(|outs|, k requires 0 <= k < |outs| =>
      Printable(outs[k].isCoinbase, outs[k].commit, false, Some(outs[k].proof), Some(outs[k].height), outs[k].mmrIndex))
  }

  lemma {:induction false} UsablePrinted(outs: seq<ChainOutput>)
    requires FitsU64(outs)
    ensures Usable(Printed(outs)) == outs
  {
    if |outs| > 0 {
      assert Printed(outs)[1..] == Printed(outs[1..]);
      UsablePrinted(outs[1..]);
    }
  }

  lemma RangeFitsU64(chain: Chain, lo: nat, hi: nat)
    requires chain.Valid()
    ensures FitsU64(chain.UnspentRange(lo, hi))
  {
    var outs := chain.UnspentRange(lo, hi);
    forall k | 0 <= k < |outs|
      ensures outs[k].height < TWO_TO_THE_64 && outs[k].mmrIndex < TWO_TO_THE_64
    {
      RangeMembers(chain, lo, hi, outs[k]);
    }
  }

  ghost function Page(chain: Chain, start: u64, end: Option<u64>, max: nat): Listing
    requires chain.Valid()
  {
    var top := if end.Some? then Min(end.value, chain.Size()) else chain.Size();
    var last := if start <= top + 1 then Max(PageEnd(chain, start, top, max), 0) else Min(start - 1, chain.Size());
    var shown := if start <= top then last else 0;
    RangeFitsU64(chain, start, shown);
    Listing(chain.Size(), last, Printed(chain.UnspentRange(start, shown)))
  }

  ghost function SnapshotNode(chain: Chain): Node
    requires chain.Valid()
  {
    Node(
      Ok((chain.Tip(), chain.HashAt(chain.Tip()))),
      (h: nat) => if h <= chain.Tip() then Ok(chain.HashAt(h)) else Err(NodeError),
      (s: u64, e: Option<u64>, m: nat) => Ok(Page(chain, s, e, m)),
      cs => Ok(Present(chain, cs)),
      (h: nat) => Ok(chain.FirstIndex(h)))
  }

  function Present(chain: Chain, cs: seq<string>): (r: seq<string>)
    ensures forall c :: c in r <==> c in cs && chain.Live(c)
  {
    if |cs| == 0 then []
    else (if chain.Live(cs[0]) then [cs[0]] else []) + Present(chain, cs[1..])
  }

  lemma PageIsTrue(chain: Chain, start: u64, end: Option<u64>, max: nat)
    requires chain.Valid() && start > 0 && max > 0
    ensures PageTrue(chain, start, end, Page(chain, start, end, max))
  {
    var top := if end.Some? then Min(end.value, chain.Size()) else chain.Size();
    var l := Page(chain, start, end, max);
    var shown := if start <= top then l.lastRetrievedIndex else 0;
    RangeFitsU64(chain, start, shown);
    UsablePrinted(chain.UnspentRange(start, shown));
  }

  /** The contract is satisfiable for every valid chain. */
  lemma SnapshotNodeHealthy(chain: Chain)
    requires chain.Valid()
    ensures Healthy(SnapshotNode(chain), chain)
  {
    forall s: u64, e: Option<u64>, m: nat | s > 0 && m > 0
      ensures PageTrue(chain, s, e, Page(chain, s, e, m))
    {
      PageIsTrue(chain, s, e, m);
    }
  }
}
