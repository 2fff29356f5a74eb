/** Reading an organisation's chain block by block while the chain grows and its cache shrinks. */
module SparseReader {
  import opened Common
  import opened SparseRouting
  import opened SparseChain
  import opened SparseRuns
  import opened SparseServing

  /** The envelopes of an organisation's block, picked from the fat block in the order of the index list. */
  method RetrieveTxnList(blk: Block, indices: seq<nat>) returns (list: seq<Bytes>)
    requires InRange(indices, |blk.data|)
    ensures list == Retrieved(blk, indices)
  {
    list := [];
    for i := 0 to |indices|
      invariant list == Retrieved(blk, indices)[..i]
    {
      list := list + [blk.data[indices[i]]];
    }
  }

  method RetrieveOrgBlock(ledger: seq<Block>, st: Store, org: Org, n: nat) returns (b: Option<Block>)
    ensures b == Retrieve(ledger, st, org, n)
  {
    if (org, n) in st.cache {
      return Some(st.cache[(org, n)]);
    }
    var lastProcessed := 0;
    if st.savePoint.Some? {
      lastProcessed := st.savePoint.value;
    }
    if n <= lastProcessed {
      return if n < |ledger| then Some(ledger[n]) else None;
    }
    if (org, n) !in st.index {
      return None;
    }
    var f: nat := st.index[(org, n)];
    if f !in st.info || org !in st.info[f] || f >= |ledger| {
      return None;
    }
    var d := st.info[f][org];
    if !InRange(d.indices, |ledger[f].data|) {
      return None;
    }
    var data := RetrieveTxnList(ledger[f], d.indices);
    b := Some(Block(Header(d.number, d.previousHash, d.hash), data, d.lastConfig, d.signature, Bare(d.filter)));
  }

  class OrgCacheIterator {
    const org: Org
    var blockNumber: nat
    var maxAvailable: nat

    /** Every number up to the one taken as available has a block. */
    ghost predicate Sound(st: Store)
      reads this
    {
      maxAvailable < Height(st, org)
    }

    /** The subtraction wraps around for an organisation without a chain. */
    constructor (st: Store, org: Org, start: nat)
      requires Height(st, org) < UINT64
      ensures this.org == org && blockNumber == start
      ensures Sound(st) <==> Height(st, org) > 0
    {
      this.org, blockNumber := org, start;
      maxAvailable := MinusOne(Height(st, org));
    }

    /** `st` is the store once any waiting for the block is over. */
    method Next(ledger: seq<Block>, st: Store) returns (b: Option<Block>)
      requires maxAvailable < blockNumber ==> blockNumber < Height(st, org)
      modifies this
      ensures b == Retrieve(ledger, st, org, old(blockNumber))
      ensures blockNumber == old(blockNumber) + if b.Some? then 1 else 0
      ensures old(Sound(st)) ==> Sound(st) && old(blockNumber) < Height(st, org)
    {
      if maxAvailable < blockNumber {
        maxAvailable := Height(st, org) - 1;
      }
      b := RetrieveOrgBlock(ledger, st, org, blockNumber);
      if b.Some? {
        blockNumber := blockNumber + 1;
      }
    }
  }

  lemma {:induction false} NoSavePointBefore(w: World, channel: Org, steps: seq<Step>, k: nat)
    requires k <= |steps| && Run(w, channel, steps).Some? && Run(w, channel, steps[..k]).Some?
    requires Run(w, channel, steps).value.store.savePoint == None
    ensures Run(w, channel, steps[..k]).value.store.savePoint == None
    decreases |steps| - k
  {
    hide Apply;
    if k == |steps| {
      assert steps[..k] == steps;
    } else {
      RunContinues(w, channel, steps, k + 1);
      NoSavePointBefore(w, channel, steps, k + 1);
      assert steps[..k + 1][..k] == steps[..k];
      SavePointStays(w, channel, Run(w, channel, steps[..k]).value, steps[k]);
    }
  }

  lemma SavePointStays(w: World, channel: Org, s: State, step: Step)
    requires Apply(w, channel, s, step).Some?
    ensures s.store.savePoint.Some? ==> Apply(w, channel, s, step).value.store.savePoint.Some?
  {
    hide RoutedOrgs, NextBlock, NextDetails, NextHead, NextNumber, ExtendedHistory, LedgerOk, CanCreate;
  }

  lemma CleanBefore(w: World, channel: Org, steps: seq<Step>, k: nat, org: Org)
    requires k <= |steps| && Run(w, channel, steps).Some? && Run(w, channel, steps[..k]).Some?
    requires org in Run(w, channel, steps[..k]).value.hist
    requires org in Run(w, channel, steps).value.hist && StartsCleanly(Run(w, channel, steps).value, org)
    ensures StartsCleanly(Run(w, channel, steps[..k]).value, org)
  {
    hide Run, OrgOk, CachedOk, LedgerOk;
    var s, s' := Run(w, channel, steps[..k]).value, Run(w, channel, steps).value;
    RunContinues(w, channel, steps, k);
    RunInv(w, channel, steps[..k]);
    StartsBySavePoint(w, s, org);
    if s'.store.savePoint == None {
      NoSavePointBefore(w, channel, steps, k);
      LedgerReaches(w, s, org);
      assert s.hist[org].blocks != [] by { FirstIsMade(w, s, org); }
      assert s.hist[org].blocks[0] == s'.hist[org].blocks[0];
      assert s.ledger[0] == s'.ledger[0];
    }
  }

  lemma FirstIsMade(w: World, s: State, org: Org)
    requires Inv(w, s.ledger, s.store, s.hist) && org in s.hist && s.hist[org].first == 0
    ensures s.hist[org].blocks != []
  {
    assert OrgOk(w, s.ledger, s.store, org, s.hist[org]);
  }

  lemma CleanHeader(w: World, s: State, org: Org, n: nat)
    requires Inv(w, s.ledger, s.store, s.hist) && org in s.hist && StartsCleanly(s, org) && n < Height(s.store, org)
    ensures Retrieve(s.ledger, s.store, org, n).Some?
    ensures Made(s, org, n) || n < |s.ledger|
    ensures Retrieve(s.ledger, s.store, org, n).value.header
         == if Made(s, org, n) then MadeHeader(s, org, n) else s.ledger[n].header
  {
    hide Retrieve, OrgOk, CachedOk, Height;
    ServedHeader(w, s, org, n);
  }

  /** On a chain that starts cleanly, what is served under a number keeps its header for the rest of a run. */
  lemma HeadersAreStable(w: World, channel: Org, steps: seq<Step>, k: nat, org: Org, n: nat)
    requires k <= |steps| && Run(w, channel, steps).Some? && Run(w, channel, steps[..k]).Some?
    requires n < Height(Run(w, channel, steps[..k]).value.store, org)
    requires org in Run(w, channel, steps).value.hist ==> StartsCleanly(Run(w, channel, steps).value, org)
    ensures var s, s' := Run(w, channel, steps[..k]).value, Run(w, channel, steps).value;
            var b, b' := Retrieve(s.ledger, s.store, org, n), Retrieve(s'.ledger, s'.store, org, n);
            && Height(s.store, org) <= Height(s'.store, org)
            && b.Some? && b'.Some? && b.value.header == b'.value.header
  {
    hide Apply, LedgerOk, Run, Retrieve, OrgOk, CachedOk, StartsCleanly, Inv, Height;
    var s, s' := Run(w, channel, steps[..k]).value, Run(w, channel, steps).value;
    RunContinues(w, channel, steps, k);
    RunInv(w, channel, steps);
    RunInv(w, channel, steps[..k]);
    HeightIsLength(w, s, org);
    HeightIsLength(w, s', org);
    CleanBefore(w, channel, steps, k, org);
    CleanHeader(w, s, org, n);
    CleanHeader(w, s', org, n);
  }

  /** A block read later carries the hash of the block read before it, however much has happened in between. */
  lemma ReaderSeesOneChain(w: World, channel: Org, steps: seq<Step>, k: nat, org: Org, n: nat)
    requires k <= |steps| && Run(w, channel, steps).Some? && Run(w, channel, steps[..k]).Some?
    requires n < Height(Run(w, channel, steps[..k]).value.store, org)
    requires n + 1 < Height(Run(w, channel, steps).value.store, org)
    requires org in Run(w, channel, steps).value.hist ==> StartsCleanly(Run(w, channel, steps).value, org)
    ensures var s, s' := Run(w, channel, steps[..k]).value, Run(w, channel, steps).value;
            var b, b' := Retrieve(s.ledger, s.store, org, n), Retrieve(s'.ledger, s'.store, org, n + 1);
            b.Some? && b'.Some? && b'.value.header.previousHash == w.headerHash(b.value.header)
  {
    hide Run, Retrieve, Height, Inv, LedgerOk, StartsCleanly;
    var s' := Run(w, channel, steps).value;
    HeadersAreStable(w, channel, steps, k, org, n);
    RunInv(w, channel, steps);
    HeightIsLength(w, s', org);
    ServedFromStart(w, s', org, n + 1);
  }

  /** Every chain of every run starts cleanly, except on a channel named like the light peers' chain. */
  lemma RunStartsCleanly(w: World, channel: Org, steps: seq<Step>, org: Org)
    requires ConfigIsNotEndorsed(w) && channel != LITE_PEER && Run(w, channel, steps).Some?
    requires org in Run(w, channel, steps).value.hist
    ensures StartsCleanly(Run(w, channel, steps).value, org)
  {
    hide Run, Inv, ConfigIsNotEndorsed;
    RunSettled(w, channel, steps);
    RunInv(w, channel, steps);
    assert StartsAsCut(w, channel, Run(w, channel, steps).value, org);
  }
}
