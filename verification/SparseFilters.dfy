/** The filter of every organisation's block says where its envelopes are in the fat block, and the verdict on each. */
module SparseFilters {
  import opened Common
  import opened SparseRouting
  import opened SparseChain
  import opened SparseRuns

  /** Where an envelope is in the fat block, and whether it conflicts. */
  predicate DescribesAt(w: World, fat: Block, info: TxnInfo, envelope: Bytes) {
    && info.index < |fat.data| && fat.data[info.index] == envelope
    && info.status == if w.parse(envelope).ConfigTx? then 0 else w.status(fat.header.number, info.index)
  }

  predicate Describes(w: World, fat: Block, f: SparseTxnFilter, data: seq<Bytes>) {
    && f.fatBlockNumber == fat.header.number && |f.txns| == |data|
    && forall k | 0 <= k < |data| :: DescribesAt(w, fat, f.txns[k], data[k])
  }

  /** The block was made with a filter that describes its data in the fat block the index names. */
  predicate Filtered(w: World, ledger: seq<Block>, st: Store, org: Org, b: Block) {
    var k := (org, b.header.number);
    && k in st.index && st.index[k] < |ledger|
    && b.filter.Wrapped? && Describes(w, ledger[st.index[k]], b.filter.filter, b.data)
  }

  predicate AllFiltered(w: World, s: State) {
    forall org, i | org in s.hist && 0 <= i < |s.hist[org].blocks| ::
      Filtered(w, s.ledger, s.store, org, s.hist[org].blocks[i])
  }

  lemma NewFilter(w: World, channel: Org, head: ChannelHead, blk: Block, org: Org)
    requires IsConfigBlock(w, blk) || org in head.heads
    ensures var b := NextBlock(w, channel, head, blk, org);
            b.filter.Wrapped? && Describes(w, blk, b.filter.filter, b.data)
  {
    hide RoutedTo, Share, IsConfigBlock;
    var ds, b := Routed(w, channel, blk, org), NextBlock(w, channel, head, blk, org);
    forall k | 0 <= k < |ds| ensures DescribesAt(w, blk, b.filter.filter.txns[k], b.data[k]) {
      RoutedCarries(w, channel, blk, org, k);
    }
  }

  lemma NewFiltered(w: World, channel: Org, ledger: seq<Block>, st: Store, blk: Block, org: Org)
    requires CanCreate(w, channel, st.head, blk) && org in RoutedOrgs(w, channel, blk)
    requires blk.header.number < |ledger| && ledger[blk.header.number] == blk
    requires IsConfigBlock(w, blk) || org in st.head.heads
    ensures Filtered(w, ledger, Extended(w, channel, st, blk), org, NextBlock(w, channel, st.head, blk, org))
  {
    hide RoutedOrgs, NextBlock, NextDetails, NextHead, Extended, Describes, CanCreate, IsConfigBlock;
    ExtendedParts(w, channel, st, blk, org);
    NextBlockNumber(w, channel, st.head, blk, org);
    NewFilter(w, channel, st.head, blk, org);
  }

  lemma OldFiltered(w: World, channel: Org, ledger: seq<Block>, st: Store, blk: Block, org: Org, b: Block)
    requires CanCreate(w, channel, st.head, blk) && Filtered(w, ledger, st, org, b)
    requires b.header.number < NextNumber(st.head, org)
    ensures Filtered(w, ledger, Extended(w, channel, st, blk), org, b)
  {
    hide RoutedOrgs, NextNumber, Extended, Describes, CanCreate;
    ExtendedAt(w, channel, st, blk, (org, b.header.number));
  }

  lemma NumbersAreBelow(w: World, ledger: seq<Block>, st: Store, org: Org, h: OrgHistory, i: nat)
    requires OrgOk(w, ledger, st, org, h) && i < |h.blocks|
    ensures h.blocks[i].header.number < NextNumber(st.head, org)
  {
    hide StoredAt, StartsWell;
  }

  lemma ProcessFiltered(w: World, channel: Org, s: State, n: nat)
    requires Inv(w, s.ledger, s.store, s.hist) && LedgerOk(w, s.ledger) && AllFiltered(w, s)
    requires n < |s.ledger| && Processed(w, channel, s.ledger, s.store, s.ledger[n]).Some?
    ensures AllFiltered(w, AfterProcess(w, channel, s, s.ledger[n]))
  {
    hide NextBlock, RoutedOrgs, LedgerOk, Extended, ExtendedHistory, OrgOk, CachedOk, CanCreate, NextNumber, Filtered;
    hide Started, StartedHistory;
    NumberedLedger(w, s.ledger, n);
    var blk := s.ledger[n];
    var s' := AfterProcess(w, channel, s, blk);
    var st0 := Started(w, channel, s.ledger, s.store, blk);
    var hist0 := StartedHistory(w, channel, s.ledger, s.store, blk, s.hist);
    StartedInv(w, channel, s.ledger, s.store, blk, s.hist);
    ExtendedKeys(w, channel, st0, blk, hist0);
    forall org, i | org in s'.hist && 0 <= i < |s'.hist[org].blocks|
      ensures Filtered(w, s.ledger, s'.store, org, s'.hist[org].blocks[i])
    {
      HistoryOfExtended(w, channel, st0, blk, hist0, org);
      if org in hist0 && i < |hist0[org].blocks| {
        assert OrgOk(w, s.ledger, st0, org, hist0[org]);
        NumbersAreBelow(w, s.ledger, st0, org, hist0[org], i);
        OldFilteredHere(w, s, st0, hist0, org, i);
        OldFiltered(w, channel, s.ledger, st0, blk, org, hist0[org].blocks[i]);
      } else {
        RoutedHasHead(w, channel, st0.head, blk, org);
        NewFiltered(w, channel, s.ledger, st0, blk, org);
      }
    }
  }

  lemma OldFilteredHere(w: World, s: State, st0: Store, hist0: History, org: Org, i: nat)
    requires AllFiltered(w, s) && st0.index == s.store.index
    requires org in hist0 && i < |hist0[org].blocks|
    requires s.store.head.heads == map[] ==> hist0[org].blocks == []
    requires s.store.head.heads != map[] ==> hist0 == s.hist
    ensures Filtered(w, s.ledger, st0, org, hist0[org].blocks[i])
  {
    hide Describes;
    assert Filtered(w, s.ledger, s.store, org, s.hist[org].blocks[i]);
  }

  lemma StepFiltered(w: World, channel: Org, s: State, step: Step)
    requires Inv(w, s.ledger, s.store, s.hist) && LedgerOk(w, s.ledger) && AllFiltered(w, s)
    requires Apply(w, channel, s, step).Some?
    ensures AllFiltered(w, Apply(w, channel, s, step).value)
  {
    hide LedgerOk, Processed, AfterProcess, Inv, Kept, Describes;
    if step.Process? {
      ProcessFiltered(w, channel, s, step.number);
    } else {
      var s' := Apply(w, channel, s, step).value;
      assert forall f: nat | f < |s.ledger| :: s'.ledger[f] == s.ledger[f];
      forall org, i | org in s'.hist && 0 <= i < |s'.hist[org].blocks|
        ensures Filtered(w, s'.ledger, s'.store, org, s'.hist[org].blocks[i])
      {
        assert Filtered(w, s.ledger, s.store, org, s.hist[org].blocks[i]);
      }
    }
  }

  lemma {:induction false} RunFiltered(w: World, channel: Org, steps: seq<Step>)
    requires Run(w, channel, steps).Some?
    ensures AllFiltered(w, Run(w, channel, steps).value)
  {
    hide Inv, Apply, LedgerOk, Filtered;
    if steps != [] {
      var before := steps[..|steps| - 1];
      RunFiltered(w, channel, before);
      RunInv(w, channel, before);
      StepFiltered(w, channel, Run(w, channel, before).value, steps[|steps| - 1]);
    }
  }

  /**
   In every run, each block read above the save point, cached or rebuilt, carries a filter that
   names the fat block it was cut from and, envelope by envelope, the place there and the verdict.
   */
  lemma FiltersDescribe(w: World, channel: Org, steps: seq<Step>, org: Org, n: nat)
    requires Run(w, channel, steps).Some?
    requires var st := Run(w, channel, steps).value.store; SavePoint(st) < n < Height(st, org)
    ensures var s := Run(w, channel, steps).value;
            var b := Retrieve(s.ledger, s.store, org, n);
            && b.Some? && FilterIn(b.value).Some?
            && (org, n) in s.store.index && s.store.index[(org, n)] < |s.ledger|
            && Describes(w, s.ledger[s.store.index[(org, n)]], FilterIn(b.value).value, b.value.data)
  {
    hide Inv, LedgerOk, Run, Retrieve, Describes, OrgOk, Height, SavePoint;
    RunInv(w, channel, steps);
    RunFiltered(w, channel, steps);
    var s := Run(w, channel, steps).value;
    ChainIsOk(w, s, org, n);
    var h := s.hist[org];
    AboveSavePoint(w, s.ledger, s.store, org, h, n);
    assert h.blocks[n - h.first].header.number == n by { NumberOfBlock(w, s.ledger, s.store, org, h, n - h.first); }
    assert Filtered(w, s.ledger, s.store, org, h.blocks[n - h.first]);
    RebuiltIsOriginal(w, s, org, n);
  }

  lemma NumberOfBlock(w: World, ledger: seq<Block>, st: Store, org: Org, h: OrgHistory, i: nat)
    requires OrgOk(w, ledger, st, org, h) && i < |h.blocks|
    ensures h.blocks[i].header.number == h.first + i
  {
    hide StoredAt, StartsWell, HeadDescribes;
  }
}
