/** The chain a node serves: block hashes, output leaves in insertion order, and spends. */
module Chains {
  import opened Basics
  import opened Rewind

  datatype Leaf = Leaf(commit: string, proof: RangeProof, coinbase: bool, height: nat)

  /** An unspent output as the scanner receives it. */
  datatype ChainOutput = ChainOutput(commit: string, proof: RangeProof, isCoinbase: bool, height: nat, mmrIndex: nat)

  /** Leaf `i` (1-based, as in the output MMR) is `leaves[i - 1]`; `spentAt` maps a leaf to its spend height. */
  datatype Chain = Chain(hashes: seq<string>, leaves: seq<Leaf>, spentAt: map<nat, nat>) {

    function Tip(): nat {
      SaturatingSub(|hashes|, 1)
    }

    function HashAt(h: nat): string {
      if h < |hashes| then hashes[h] else ""
    }

    function Size(): nat {
      |leaves|
    }

    predicate Has(i: nat) {
      1 <= i <= |leaves|
    }

    function At(i: nat): Leaf
      requires Has(i)
    {
      leaves[i - 1]
    }

    predicate Unspent(i: nat) {
      Has(i) && i !in spentAt
    }

    function Output(i: nat): ChainOutput
      requires Has(i)
    {
      ChainOutput(At(i).commit, At(i).proof, At(i).coinbase, At(i).height, i)
    }

    /** Leaf `i` opens for this credential. */
    predicate Pays(rh: string, i: nat) {
      Has(i) && Opens(rh, At(i).proof)
    }

    /** A live output of this credential: what the wallet owns at this tip. */
    predicate Funds(rh: string, i: nat) {
      Unspent(i) && Pays(rh, i)
    }

    /** The commitment is in the unspent set. */
    predicate Live(commit: string) {
      exists i: nat | i <= Size() :: Unspent(i) && At(i).commit == commit
    }

    ghost predicate Valid() {
      && 0 < |hashes| <= TWO_TO_THE_63 && |leaves| < TWO_TO_THE_63
      && (forall i: nat, j: nat :: Has(i) && Has(j) && i <= j ==> At(i).height <= At(j).height)
      && (forall i: nat :: Has(i) ==> At(i).height <= Tip())
      && (forall i: nat :: i in spentAt ==> Has(i) && At(i).height <= spentAt[i] <= Tip())
      && (forall i: nat, j: nat :: Has(i) && Has(j) && At(i).commit == At(j).commit ==> i == j)
      && (forall i: nat :: Has(i) ==> SoleOwner(At(i).proof))
    }

    /** The first output index at or after block `h`. */
    function FirstIndex(h: nat): (i: nat)
      ensures 1 <= i <= Size() + 1
    {
      1 + CountBelow(leaves, h)
    }

    /** The unspent outputs with indices `lo..hi`, in insertion order. */
    function UnspentRange(lo: nat, hi: nat): seq<ChainOutput> {
      if hi < lo || hi == 0 then []
      else UnspentRange(lo, hi - 1) + if Unspent(hi) then [Output(hi)] else []
    }
  }

  /** How many leading leaves lie below height `h`. */
  function CountBelow(leaves: seq<Leaf>, h: nat): (n: nat)
    ensures n <= |leaves|
    ensures n > 0 ==> leaves[n - 1].height < h
    ensures forall k :: n <= k < |leaves| ==> leaves[k].height >= h
  {
    if |leaves| == 0 then 0
    else if leaves[|leaves| - 1].height < h then |leaves|
    else CountBelow(leaves[..|leaves| - 1], h)
  }

  /** `FirstIndex` cuts the leaves of a valid chain exactly at height `h`. */
  lemma FirstIndexCuts(c: Chain, h: nat, i: nat)
    requires c.Valid() && c.Has(i)
    ensures i < c.FirstIndex(h) <==> c.At(i).height < h
  {
    var n := CountBelow(c.leaves, h);
    if i <= n {
      assert c.At(i).height <= c.At(n).height;
    } else {
      assert c.leaves[i - 1].height >= h;
    }
  }

  // ---- two chains sharing a prefix ----

  /** Leaf `i` of `a`, if created by height `h`, is leaf `i` of `b`, with the same fate up to `h`. */
  ghost predicate SharesLeaf(a: Chain, b: Chain, i: nat, h: nat) {
    a.Has(i) && a.At(i).height <= h ==>
      && b.Has(i) && b.At(i) == a.At(i)
      && (i in a.spentAt && a.spentAt[i] <= h ==> i in b.spentAt && b.spentAt[i] == a.spentAt[i])
  }

  /** The two chains have the same blocks up to height `h`. */
  ghost predicate AgreeUpTo(a: Chain, b: Chain, h: nat) {
    && h <= a.Tip() && h <= b.Tip()
    && (forall k: nat :: k <= h ==> a.HashAt(k) == b.HashAt(k))
    && (forall i: nat :: SharesLeaf(a, b, i, h) && SharesLeaf(b, a, i, h))
  }

  /** `b` is `a` with more blocks on top. */
  ghost predicate Extends(a: Chain, b: Chain) {
    AgreeUpTo(a, b, a.Tip())
  }

  lemma ExtendsKeepsLeaf(a: Chain, b: Chain, i: nat)
    requires a.Valid() && Extends(a, b) && a.Has(i)
    ensures b.Has(i) && b.At(i) == a.At(i)
    ensures i in a.spentAt ==> i in b.spentAt && b.spentAt[i] == a.spentAt[i]
  {
    assert SharesLeaf(a, b, i, a.Tip());
  }

  lemma ExtendsOldLeaf(a: Chain, b: Chain, i: nat)
    requires a.Valid() && Extends(a, b) && b.Has(i) && b.At(i).height <= a.Tip()
    ensures a.Has(i) && b.At(i) == a.At(i)
    ensures b.Unspent(i) ==> a.Unspent(i)
  {
    assert SharesLeaf(b, a, i, a.Tip());
    ExtendsKeepsLeaf(a, b, i);
  }

  // ---- blocks ----

  datatype NewOutput = NewOutput(commit: string, proof: RangeProof, coinbase: bool)

  datatype Block = Block(hash: string, outputs: seq<NewOutput>, inputs: set<string>)

  /** The block spends live outputs and creates fresh, singly owned ones. */
  ghost predicate Fits(c: Chain, b: Block) {
    && |c.hashes| < TWO_TO_THE_63 && c.Size() + |b.outputs| < TWO_TO_THE_63
    && (forall k :: 0 <= k < |b.outputs| ==> SoleOwner(b.outputs[k].proof))
    && (forall k, i: nat :: 0 <= k < |b.outputs| && c.Has(i) ==> b.outputs[k].commit != c.At(i).commit)
    && (forall k, l :: 0 <= k < l < |b.outputs| ==> b.outputs[k].commit != b.outputs[l].commit)
    && (forall s :: s in b.inputs ==> c.Live(s))
  }

  function Append(c: Chain, b: Block): Chain {
    var h := |c.hashes|;
    Chain(c.hashes + [b.hash],
          c.leaves + seq(|b.outputs|, k requires 0 <= k < |b.outputs| =>
            Leaf(b.outputs[k].commit, b.outputs[k].proof, b.outputs[k].coinbase, h)),
          c.spentAt + map i: nat | i <= c.Size() && c.Unspent(i) && c.At(i).commit in b.inputs :: h)
  }

  lemma AppendLeaf(c: Chain, b: Block, i: nat)
    requires c.Valid() && Fits(c, b) && Append(c, b).Has(i)
    ensures c.Has(i) ==> Append(c, b).At(i) == c.At(i)
    ensures !c.Has(i) ==> var k := i - 1 - c.Size();
                          0 <= k < |b.outputs| && Append(c, b).At(i) ==
                          Leaf(b.outputs[k].commit, b.outputs[k].proof, b.outputs[k].coinbase, c.Tip() + 1)
  {
  }

  lemma AppendSpends(c: Chain, b: Block, i: nat)
    requires c.Valid() && Fits(c, b)
    ensures i in c.spentAt ==> i in Append(c, b).spentAt && Append(c, b).spentAt[i] == c.spentAt[i]
    ensures i in Append(c, b).spentAt && i !in c.spentAt ==> c.Has(i) && Append(c, b).spentAt[i] == c.Tip() + 1
  {
  }

  lemma AppendFresh(c: Chain, b: Block, i: nat, j: nat)
    requires c.Valid() && Fits(c, b) && Append(c, b).Has(i) && Append(c, b).Has(j) && i < j
    ensures Append(c, b).At(i).commit != Append(c, b).At(j).commit
    ensures Append(c, b).At(i).height <= Append(c, b).At(j).height
  {
    AppendLeaf(c, b, i);
    AppendLeaf(c, b, j);
  }

  lemma AppendShares(c: Chain, b: Block)
    requires c.Valid() && Fits(c, b)
    ensures Extends(c, Append(c, b))
  {
    var d := Append(c, b);
    forall i: nat ensures SharesLeaf(c, d, i, c.Tip()) && SharesLeaf(d, c, i, c.Tip()) {
      hide Append;
      AppendSpends(c, b, i);
      if d.Has(i) { AppendLeaf(c, b, i); }
    }
  }

  /** Chains really are sequences of blocks: a fitting block keeps a chain valid and extends it. */
  lemma AppendExtends(c: Chain, b: Block)
    requires c.Valid() && Fits(c, b)
    ensures Append(c, b).Valid() && Extends(c, Append(c, b)) && Append(c, b).Tip() == c.Tip() + 1
  {
    var d := Append(c, b);
    forall i: nat | d.Has(i) ensures d.At(i).height <= d.Tip() && SoleOwner(d.At(i).proof) {
      AppendLeaf(c, b, i);
    }
    forall i: nat, j: nat | d.Has(i) && d.Has(j) && i < j
      ensures d.At(i).commit != d.At(j).commit && d.At(i).height <= d.At(j).height
    {
      AppendFresh(c, b, i, j);
    }
    forall i: nat | i in d.spentAt ensures d.Has(i) && d.At(i).height <= d.spentAt[i] <= d.Tip() {
      AppendSpends(c, b, i);
      AppendLeaf(c, b, i);
    }
    AppendShares(c, b);
  }

  // ---- ranges of unspent outputs ----

  lemma {:induction false} RangeMembers(c: Chain, lo: nat, hi: nat, out: ChainOutput)
    ensures out in c.UnspentRange(lo, hi) <==>
            lo <= out.mmrIndex <= hi && c.Unspent(out.mmrIndex) && out == c.Output(out.mmrIndex)
  {
    if lo <= hi && hi > 0 {
      RangeMembers(c, lo, hi - 1, out);
    }
  }

  lemma {:induction false} RangeSplit(c: Chain, lo: nat, mid: nat, hi: nat)
    requires lo <= mid + 1 && mid <= hi
    ensures c.UnspentRange(lo, hi) == c.UnspentRange(lo, mid) + c.UnspentRange(mid + 1, hi)
    decreases hi
  {
    if mid < hi {
      RangeSplit(c, lo, mid, hi - 1);
      var last := if c.Unspent(hi) then [c.Output(hi)] else [];
      assert c.UnspentRange(lo, mid) + (c.UnspentRange(mid + 1, hi - 1) + last)
          == (c.UnspentRange(lo, mid) + c.UnspentRange(mid + 1, hi - 1)) + last;
    }
  }

  /** Outputs come in strictly increasing index order: each is visited once. */
  lemma {:induction false} RangeAscends(c: Chain, lo: nat, hi: nat, j: nat, k: nat)
    requires j < k < |c.UnspentRange(lo, hi)|
    ensures c.UnspentRange(lo, hi)[j].mmrIndex < c.UnspentRange(lo, hi)[k].mmrIndex
    decreases hi
  {
    var init := c.UnspentRange(lo, hi - 1);
    if k < |init| {
      RangeAscends(c, lo, hi - 1, j, k);
    } else {
      RangeMembers(c, lo, hi - 1, init[j]);
    }
  }
}
