/**
 Every block names the latest config block of its own chain or, before the first of them, what was
 taken over at the switch from the fat chain.
 */
module SparseConfig {
  import opened Common
  import opened SparseRouting
  import opened SparseChain
  import opened SparseRuns
  import opened SparseSwitch

  /** The block with this number was cut from a config block. */
  predicate FromConfig(w: World, ledger: seq<Block>, st: Store, org: Org, n: nat) {
    && (org, n) in st.index && st.index[(org, n)] < |ledger|
    && IsConfigBlock(w, ledger[st.index[(org, n)]])
  }

  /** The number of the latest config block up to `n`. */
  function LatestConfig(w: World, ledger: seq<Block>, st: Store, org: Org, n: nat): Option<nat> {
    if FromConfig(w, ledger, st, org, n) then Some(n)
    else if n == 0 then None
    else LatestConfig(w, ledger, st, org, n - 1)
  }

  /** It is a config block and none after it is. */
  lemma {:induction false} LatestConfigIs(w: World, ledger: seq<Block>, st: Store, org: Org, n: nat)
    requires LatestConfig(w, ledger, st, org, n).Some?
    ensures var c := LatestConfig(w, ledger, st, org, n).value;
            c <= n && FromConfig(w, ledger, st, org, c) && forall j | c < j <= n :: !FromConfig(w, ledger, st, org, j)
  {
    hide FromConfig;
    if !FromConfig(w, ledger, st, org, n) && n > 0 {
      LatestConfigIs(w, ledger, st, org, n - 1);
    }
  }

  /** The latest config block, or else what the chain began with. */
  function NamedNumber(w: World, ledger: seq<Block>, st: Store, org: Org, n: nat, begun: Option<nat>): Option<nat> {
    var c := LatestConfig(w, ledger, st, org, n);
    if c.Some? then c else begun
  }

  /** The block names `c` as the last config block and is signed over it. */
  predicate ConfigIs(w: World, b: Block, c: nat) {
    b.lastConfig == w.lastConfigBytes(c) && b.signatures == w.sign(b.header, c)
  }

  predicate NamedAt(w: World, ledger: seq<Block>, st: Store, org: Org, b: Block, n: nat, begun: Option<nat>) {
    var c := NamedNumber(w, ledger, st, org, n, begun);
    c.Some? && ConfigIs(w, b, c.value)
  }

  /** Every block of the chain, and its head, name the latest config block. */
  predicate Named(w: World, ledger: seq<Block>, st: Store, org: Org, h: OrgHistory, begun: Option<nat>) {
    var end := h.first + |h.blocks|;
    && end > 0 && org in st.head.heads
    && NamedNumber(w, ledger, st, org, end - 1, begun) == Some(st.head.heads[org].lastConfig)
    && forall i | 0 <= i < |h.blocks| :: NamedAt(w, ledger, st, org, h.blocks[i], h.first + i, begun)
  }

  /**
   What the chains begin with: nothing if they start with the genesis block, and otherwise what the
   fat block at the save point names, or the number of a fat block processed if that is a config block.
   */
  predicate BegunWith(w: World, s: State, begun: Option<nat>) {
    match s.store.savePoint
    case None => begun == None
    case Some(p) =>
      && begun.Some? && p < |s.ledger|
      && if IsConfigBlock(w, s.ledger[p]) then begun.value in s.store.info
         else begun.value == w.lastConfigIndex(s.ledger[p])
  }

  predicate AllNamed(w: World, s: State, begun: Option<nat>) {
    && BegunWith(w, s, begun)
    && forall org | org in s.hist :: Named(w, s.ledger, s.store, org, s.hist[org], begun)
  }

  /** Where neither the index nor the indexed blocks change, the latest config block does not either. */
  lemma {:induction false} SameLatest(
    w: World, ledger: seq<Block>, st: Store, ledger': seq<Block>, st': Store, org: Org, n: nat)
    requires forall j: nat | j <= n :: FromConfig(w, ledger, st, org, j) <==> FromConfig(w, ledger', st', org, j)
    ensures LatestConfig(w, ledger, st, org, n) == LatestConfig(w, ledger', st', org, n)
  {
    hide FromConfig;
    if n > 0 {
      SameLatest(w, ledger, st, ledger', st', org, n - 1);
    }
  }

  lemma SameNamed(
    w: World, ledger: seq<Block>, st: Store, ledger': seq<Block>, st': Store, org: Org, h: OrgHistory,
    begun: Option<nat>)
    requires Named(w, ledger, st, org, h, begun)
    requires org in st'.head.heads && st'.head.heads[org] == st.head.heads[org]
    requires forall j: nat | j < h.first + |h.blocks| ::
               FromConfig(w, ledger, st, org, j) <==> FromConfig(w, ledger', st', org, j)
    ensures Named(w, ledger', st', org, h, begun)
  {
    hide FromConfig, LatestConfig;
    forall i: nat | i < h.first + |h.blocks|
      ensures LatestConfig(w, ledger, st, org, i) == LatestConfig(w, ledger', st', org, i)
    {
      SameLatest(w, ledger, st, ledger', st', org, i);
    }
    forall i | 0 <= i < |h.blocks| ensures NamedAt(w, ledger', st', org, h.blocks[i], h.first + i, begun) {
      assert NamedAt(w, ledger, st, org, h.blocks[i], h.first + i, begun);
    }
  }

  /** A longer ledger changes nothing, for every entry points into the ledger that was. */
  lemma SameInLonger(w: World, channel: Org, s: State, more: seq<Block>, org: Org, j: nat)
    requires IndexOk(w, channel, s)
    ensures FromConfig(w, s.ledger, s.store, org, j) <==> FromConfig(w, s.ledger + more, s.store, org, j)
  {
    if (org, j) in s.store.index {
      assert IndexedFrom(w, channel, s, (org, j));
      var f := s.store.index[(org, j)];
      assert (s.ledger + more)[f] == s.ledger[f];
    }
  }

  /** Old blocks of a chain keep their source when a later fat block is stored. */
  lemma SameAfterExtending(w: World, channel: Org, ledger: seq<Block>, st: Store, blk: Block, org: Org, j: nat)
    requires CanCreate(w, channel, st.head, blk) && j < NextNumber(st.head, org)
    ensures FromConfig(w, ledger, st, org, j) <==> FromConfig(w, ledger, Extended(w, channel, st, blk), org, j)
  {
    hide IsConfigBlock, Extended, NextNumber, RoutedOrgs, CanCreate;
    ExtendedAt(w, channel, st, blk, (org, j));
  }

  lemma NextNames(w: World, channel: Org, head: ChannelHead, blk: Block, org: Org)
    requires IsConfigBlock(w, blk) || org in head.heads
    ensures var b, h := NextBlock(w, channel, head, blk, org), NextHead(w, channel, head, blk, org);
            && ConfigIs(w, b, h.lastConfig)
            && h.lastConfig == if IsConfigBlock(w, blk) then NextNumber(head, org) else head.heads[org].lastConfig
  {
    hide Routed, FilterOf, IsConfigBlock;
  }

  /** The new block of a routed organisation names the latest config block, itself included. */
  lemma NewBlockNamed(
    w: World, channel: Org, ledger: seq<Block>, st: Store, blk: Block, hist: History, org: Org, begun: Option<nat>)
    requires CanCreate(w, channel, st.head, blk) && org in RoutedOrgs(w, channel, blk)
    requires blk.header.number < |ledger| && ledger[blk.header.number] == blk
    requires org in hist <==> org in st.head.heads
    requires org in hist ==>
               && Named(w, ledger, st, org, hist[org], begun)
               && st.head.heads[org].lastNum + 1 == hist[org].first + |hist[org].blocks|
    ensures Named(
              w, ledger, Extended(w, channel, st, blk), org,
              ExtendedOne(hist, org, NextBlock(w, channel, st.head, blk, org)), begun)
  {
    hide RoutedOrgs, NextBlock, NextDetails, NextHead, Extended, IsConfigBlock, LatestConfig, CanCreate;
    assert IsConfigBlock(w, blk) || org in st.head.heads by { RoutedHasHead(w, channel, st.head, blk, org); }
    var n, st' := NextNumber(st.head, org), Extended(w, channel, st, blk);
    var b := NextBlock(w, channel, st.head, blk, org);
    var h := ExtendedOne(hist, org, b);
    ExtendedParts(w, channel, st, blk, org);
    NextNames(w, channel, st.head, blk, org);
    assert FromConfig(w, ledger, st', org, n) <==> IsConfigBlock(w, blk);
    LatestStep(w, ledger, st', org, n);
    forall i: nat | i < n ensures LatestConfig(w, ledger, st, org, i) == LatestConfig(w, ledger, st', org, i) {
      forall j: nat | j <= i ensures FromConfig(w, ledger, st, org, j) <==> FromConfig(w, ledger, st', org, j) {
        SameAfterExtending(w, channel, ledger, st, blk, org, j);
      }
      SameLatest(w, ledger, st, ledger, st', org, i);
    }
    forall i | 0 <= i < |h.blocks| ensures NamedAt(w, ledger, st', org, h.blocks[i], h.first + i, begun) {
      if i < |h.blocks| - 1 {
        assert NamedAt(w, ledger, st, org, hist[org].blocks[i], h.first + i, begun);
      }
    }
  }

  lemma LatestStep(w: World, ledger: seq<Block>, st: Store, org: Org, n: nat)
    ensures LatestConfig(w, ledger, st, org, n)
            == if FromConfig(w, ledger, st, org, n) then Some(n)
               else if n == 0 then None else LatestConfig(w, ledger, st, org, n - 1)
  {
    hide FromConfig;
  }

  lemma OtherNamed(
    w: World, channel: Org, ledger: seq<Block>, st: Store, blk: Block, org: Org, h: OrgHistory, begun: Option<nat>)
    requires CanCreate(w, channel, st.head, blk) && org !in RoutedOrgs(w, channel, blk)
    requires Named(w, ledger, st, org, h, begun) && st.head.heads[org].lastNum + 1 == h.first + |h.blocks|
    ensures Named(w, ledger, Extended(w, channel, st, blk), org, h, begun)
  {
    hide FromConfig, LatestConfig, Named, NextNumber, CanCreate;
    var st' := Extended(w, channel, st, blk);
    assert org in st.head.heads by { NamedHasHead(w, ledger, st, org, h, begun); }
    assert org in st'.head.heads && st'.head.heads[org] == st.head.heads[org] by {
      HeadStays(w, channel, st, blk, org);
    }
    forall j: nat | j < h.first + |h.blocks|
      ensures FromConfig(w, ledger, st, org, j) <==> FromConfig(w, ledger, st', org, j)
    {
      assert j < NextNumber(st.head, org) by { NextOf(st.head, org); }
      SameAfterExtending(w, channel, ledger, st, blk, org, j);
    }
    SameNamed(w, ledger, st, ledger, st', org, h, begun);
  }

  lemma NextOf(head: ChannelHead, org: Org)
    requires org in head.heads
    ensures NextNumber(head, org) == head.heads[org].lastNum + 1
  {
  }

  lemma NamedHasHead(w: World, ledger: seq<Block>, st: Store, org: Org, h: OrgHistory, begun: Option<nat>)
    requires Named(w, ledger, st, org, h, begun)
    ensures org in st.head.heads
  {
  }

  lemma HeadStays(w: World, channel: Org, st: Store, blk: Block, org: Org)
    requires CanCreate(w, channel, st.head, blk) && org !in RoutedOrgs(w, channel, blk) && org in st.head.heads
    ensures var st' := Extended(w, channel, st, blk);
            org in st'.head.heads && st'.head.heads[org] == st.head.heads[org]
  {
    hide RoutedOrgs, NextBlock, NextDetails, NextHead, NextNumber;
  }

  lemma {:induction false} NothingIndexed(w: World, ledger: seq<Block>, st: Store, org: Org, n: nat)
    requires st.index == map[]
    ensures LatestConfig(w, ledger, st, org, n) == None
  {
    if n > 0 { NothingIndexed(w, ledger, st, org, n - 1); }
  }

  /** What is taken over when the chains start. */
  function TakenOver(w: World, s: State, n: nat, begun: Option<nat>): Option<nat>
    requires n < |s.ledger|
  {
    if s.store.head.heads != map[] || n == 0 || |s.ledger| < 2 then begun
    else
      var last := s.ledger[|s.ledger| - 2];
      Some(if IsConfigBlock(w, last) then n else w.lastConfigIndex(last))
  }

  /** At the start no block is there yet, and the heads name what was taken over. */
  lemma StartNamed(w: World, channel: Org, s: State, n: nat, begun: Option<nat>)
    requires Inv(w, s.ledger, s.store, s.hist) && LedgerOk(w, s.ledger) && IndexOk(w, channel, s)
    requires AllNamed(w, s, begun) && n < |s.ledger|
    ensures var st0 := Started(w, channel, s.ledger, s.store, s.ledger[n]);
            var hist0 := StartedHistory(w, channel, s.ledger, s.store, s.ledger[n], s.hist);
            forall org | org in hist0 :: Named(w, s.ledger, st0, org, hist0[org], TakenOver(w, s, n, begun))
  {
    hide OrgOk, CachedOk, LedgerOk, IndexOk, LatestConfig, IsConfigBlock, SavePointWritten;
    NumberedLedger(w, s.ledger, n);
    var blk := s.ledger[n];
    var st0 := Started(w, channel, s.ledger, s.store, blk);
    var hist0 := StartedHistory(w, channel, s.ledger, s.store, blk, s.hist);
    if s.store.head.heads == map[] {
      ChainlessIndex(w, channel, s);
      forall org | org in hist0 ensures Named(w, s.ledger, st0, org, hist0[org], TakenOver(w, s, n, begun)) {
        NothingIndexed(w, s.ledger, st0, org, |s.ledger| - 2);
      }
    }
  }

  lemma ProcessNamed(w: World, channel: Org, s: State, n: nat, begun: Option<nat>)
    requires Inv(w, s.ledger, s.store, s.hist) && LedgerOk(w, s.ledger) && IndexOk(w, channel, s)
    requires AllNamed(w, s, begun)
    requires n < |s.ledger| && Processed(w, channel, s.ledger, s.store, s.ledger[n]).Some?
    ensures AllNamed(w, AfterProcess(w, channel, s, s.ledger[n]), TakenOver(w, s, n, begun))
  {
    hide NextBlock, RoutedOrgs, LedgerOk, Extended, ExtendedHistory, OrgOk, CachedOk, Named, ExtendedOne, CanCreate;
    hide Started, StartedHistory, IndexOk, BegunWith;
    NumberedLedger(w, s.ledger, n);
    var blk := s.ledger[n];
    var s', begun' := AfterProcess(w, channel, s, blk), TakenOver(w, s, n, begun);
    var st0 := Started(w, channel, s.ledger, s.store, blk);
    var hist0 := StartedHistory(w, channel, s.ledger, s.store, blk, s.hist);
    ExtendedKeys(w, channel, st0, blk, hist0);
    StartNamed(w, channel, s, n, begun);
    StartedInv(w, channel, s.ledger, s.store, blk, s.hist);
    forall org | org in s'.hist ensures Named(w, s'.ledger, s'.store, org, s'.hist[org], begun') {
      HistoryOfExtended(w, channel, st0, blk, hist0, org);
      if org in hist0 {
        assert OrgOk(w, s.ledger, st0, org, hist0[org]);
        LastIsEnd(w, s.ledger, st0, org, hist0[org]);
      }
      if org in RoutedOrgs(w, channel, blk) {
        NewBlockNamed(w, channel, s.ledger, st0, blk, hist0, org, begun');
      } else {
        OtherNamed(w, channel, s.ledger, st0, blk, org, hist0[org], begun');
      }
    }
    ProcessBegun(w, channel, s, n, begun);
  }

  lemma ProcessBegun(w: World, channel: Org, s: State, n: nat, begun: Option<nat>)
    requires Inv(w, s.ledger, s.store, s.hist) && LedgerOk(w, s.ledger) && BegunWith(w, s, begun)
    requires n < |s.ledger| && Processed(w, channel, s.ledger, s.store, s.ledger[n]).Some?
    ensures BegunWith(w, AfterProcess(w, channel, s, s.ledger[n]), TakenOver(w, s, n, begun))
  {
    hide NextBlock, RoutedOrgs, LedgerOk, Extended, ExtendedHistory, OrgOk, CachedOk, CanCreate, NextNumber;
    hide IsConfigBlock;
    NumberedLedger(w, s.ledger, n);
    var blk := s.ledger[n];
    var st0 := Started(w, channel, s.ledger, s.store, blk);
    IndexAfter(w, channel, st0, blk, (channel, 0));
    ProcessKeepsLedger(w, channel, s, n);
  }

  lemma LastIsEnd(w: World, ledger: seq<Block>, st: Store, org: Org, h: OrgHistory)
    requires OrgOk(w, ledger, st, org, h)
    ensures org in st.head.heads && st.head.heads[org].lastNum + 1 == h.first + |h.blocks|
  {
  }

  lemma StepNamed(w: World, channel: Org, s: State, step: Step, begun: Option<nat>) returns (begun': Option<nat>)
    requires Inv(w, s.ledger, s.store, s.hist) && LedgerOk(w, s.ledger) && IndexOk(w, channel, s)
    requires AllNamed(w, s, begun) && Apply(w, channel, s, step).Some?
    ensures AllNamed(w, Apply(w, channel, s, step).value, begun')
  {
    hide LedgerOk, Processed, AfterProcess, Inv, Named, FromConfig, Kept, IndexOk;
    if step.Process? {
      begun' := TakenOver(w, s, step.number, begun);
      ProcessNamed(w, channel, s, step.number, begun);
    } else {
      begun' := begun;
      var s' := Apply(w, channel, s, step).value;
      assert forall f: nat | f < |s.ledger| :: s'.ledger[f] == s.ledger[f];
      forall org | org in s'.hist ensures Named(w, s'.ledger, s'.store, org, s'.hist[org], begun) {
        assert Named(w, s.ledger, s.store, org, s.hist[org], begun);
        NamedHasHead(w, s.ledger, s.store, org, s.hist[org], begun);
        forall j: nat | j < s.hist[org].first + |s.hist[org].blocks|
          ensures FromConfig(w, s.ledger, s.store, org, j) <==> FromConfig(w, s'.ledger, s'.store, org, j)
        {
          if step.Append? {
            SameInLonger(w, channel, s, [step.block], org, j);
          } else {
            SameIndex(w, s.ledger, s.store, s'.store, org, j);
          }
        }
        SameNamed(w, s.ledger, s.store, s'.ledger, s'.store, org, s.hist[org], begun);
      }
    }
  }

  lemma SameIndex(w: World, ledger: seq<Block>, st: Store, st': Store, org: Org, j: nat)
    requires st.index == st'.index
    ensures FromConfig(w, ledger, st, org, j) <==> FromConfig(w, ledger, st', org, j)
  {
  }

  lemma {:induction false} RunNamed(w: World, channel: Org, steps: seq<Step>) returns (begun: Option<nat>)
    requires Run(w, channel, steps).Some?
    ensures AllNamed(w, Run(w, channel, steps).value, begun)
  {
    hide Inv, Apply, LedgerOk, Named, IndexOk;
    begun := None;
    if steps != [] {
      var before := steps[..|steps| - 1];
      begun := RunNamed(w, channel, before);
      RunInv(w, channel, before);
      RunIndexOk(w, channel, before);
      begun := StepNamed(w, channel, Run(w, channel, before).value, steps[|steps| - 1], begun);
    }
  }

  /**
   In every run, the last-config metadata of each block read above the save point, cached or
   rebuilt, names the latest config block of the same chain or, if there is none yet, what the
   chain began with; and it is signed over that and its header. A chain that starts with the
   genesis block always has a config block.
   */
  lemma LastConfigIsLatest(w: World, channel: Org, steps: seq<Step>, org: Org, n: nat) returns (begun: Option<nat>)
    requires Run(w, channel, steps).Some?
    requires var st := Run(w, channel, steps).value.store; SavePoint(st) < n < Height(st, org)
    ensures var s := Run(w, channel, steps).value;
            var b, c := Retrieve(s.ledger, s.store, org, n), LatestConfig(w, s.ledger, s.store, org, n);
            && BegunWith(w, s, begun) && b.Some?
            && (c.Some? ==> ConfigIs(w, b.value, c.value))
            && (c.None? ==> begun.Some? && ConfigIs(w, b.value, begun.value))
            && (c.Some? ==>
                  && c.value <= n && FromConfig(w, s.ledger, s.store, org, c.value)
                  && forall j | c.value < j <= n :: !FromConfig(w, s.ledger, s.store, org, j))
            && (s.store.savePoint == None ==> c.Some?)
  {
    hide LedgerOk, Run, Inv, Retrieve, FromConfig, LatestConfig, BegunWith, Named, Height, ConfigIs;
    RunInv(w, channel, steps);
    begun := RunNamed(w, channel, steps);
    var s := Run(w, channel, steps).value;
    ReadIsNamed(w, s, org, n, begun);
    if LatestConfig(w, s.ledger, s.store, org, n).Some? { LatestConfigIs(w, s.ledger, s.store, org, n); }
    assert s.store.savePoint == None ==> begun == None by { BegunByGenesis(w, s, begun); }
  }

  /** The block that is read names what the block that was made names. */
  lemma ReadIsNamed(w: World, s: State, org: Org, n: nat, begun: Option<nat>)
    requires Inv(w, s.ledger, s.store, s.hist) && SavePoint(s.store) < n < Height(s.store, org)
    requires forall o | o in s.hist :: Named(w, s.ledger, s.store, o, s.hist[o], begun)
    ensures var b, c := Retrieve(s.ledger, s.store, org, n), NamedNumber(w, s.ledger, s.store, org, n, begun);
            b.Some? && c.Some? && ConfigIs(w, b.value, c.value)
  {
    hide Inv, Retrieve, NamedNumber, SavePoint, Height, Named, OrgOk;
    ChainIsOk(w, s, org, n);
    var h := s.hist[org];
    AboveSavePoint(w, s.ledger, s.store, org, h, n);
    NamedBlock(w, s.ledger, s.store, org, h, begun, n);
    RebuiltIsOriginal(w, s, org, n);
  }

  lemma NamedBlock(w: World, ledger: seq<Block>, st: Store, org: Org, h: OrgHistory, begun: Option<nat>, n: nat)
    requires Named(w, ledger, st, org, h, begun) && h.first <= n < h.first + |h.blocks|
    ensures NamedAt(w, ledger, st, org, h.blocks[n - h.first], n, begun)
  {
    hide NamedAt, NamedNumber;
    assert NamedAt(w, ledger, st, org, h.blocks[n - h.first], h.first + (n - h.first), begun);
  }

  lemma BegunByGenesis(w: World, s: State, begun: Option<nat>)
    requires BegunWith(w, s, begun)
    ensures s.store.savePoint == None ==> begun == None
  {
  }
}
