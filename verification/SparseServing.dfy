/** What a reader of an organisation's chain is served in every reachable state. */
module SparseServing {
  import opened Common
  import opened SparseRouting
  import opened SparseChain
  import opened SparseRuns

  /** The block served under `n` carries its number and the hash of the block served before it. */
  predicate ServedInChain(w: World, s: State, org: Org, n: nat) {
    var b := Retrieve(s.ledger, s.store, org, n);
    && b.Some? && b.value.header.number == n
    && (n == 0 ==> b.value.header.previousHash == "")
    && (n > 0 ==>
          var c := Retrieve(s.ledger, s.store, org, n - 1);
          c.Some? && b.value.header.previousHash == w.headerHash(c.value.header))
  }

  /** A number up to the save point whose block is not cached is served from the fat chain. */
  predicate FromFat(s: State, org: Org, n: nat) {
    (org, n) !in s.store.cache && n <= SavePoint(s.store)
  }

  /** The organisation has made a block with this number. */
  predicate Made(s: State, org: Org, n: nat) {
    org in s.hist && s.hist[org].first <= n < s.hist[org].first + |s.hist[org].blocks|
  }

  function MadeHeader(s: State, org: Org, n: nat): Header
    requires Made(s, org, n)
  {
    s.hist[org].blocks[n - s.hist[org].first].header
  }

  lemma HeightIsLength(w: World, s: State, org: Org)
    requires Inv(w, s.ledger, s.store, s.hist)
    ensures Height(s.store, org) == if org in s.hist then s.hist[org].first + |s.hist[org].blocks| else 0
  {
    if org in s.hist {
      assert OrgOk(w, s.ledger, s.store, org, s.hist[org]);
    }
  }

  lemma LedgerReaches(w: World, s: State, org: Org)
    requires Inv(w, s.ledger, s.store, s.hist) && org in s.hist
    ensures SavePoint(s.store) < |s.ledger|
  {
    hide CachedOk;
    assert OrgOk(w, s.ledger, s.store, org, s.hist[org]);
    if s.store.savePoint == None {
      assert s.hist[org].first == 0;
      assert StoredAt(s.ledger, s.store, org, s.hist[org].blocks[0]);
    }
  }

  /** The header that is served: of the fat chain, or of the block that was made. */
  lemma ServedHeader(w: World, s: State, org: Org, n: nat)
    requires Inv(w, s.ledger, s.store, s.hist) && n < Height(s.store, org)
    ensures Retrieve(s.ledger, s.store, org, n).Some? && org in s.hist
    ensures if FromFat(s, org, n) then n < |s.ledger| else Made(s, org, n)
    ensures Retrieve(s.ledger, s.store, org, n).value.header
         == if FromFat(s, org, n) then s.ledger[n].header else MadeHeader(s, org, n)
  {
    hide Rebuilt, StoredAt, OrgOk;
    HeightIsLength(w, s, org);
    LedgerReaches(w, s, org);
    if (org, n) in s.store.cache {
      assert CachedAt(s.store, s.hist, (org, n));
    } else if n > SavePoint(s.store) {
      assert s.hist[org].first <= SavePoint(s.store) + 1 by { StartsBySavePoint(w, s, org); }
      RebuiltIsOriginal(w, s, org, n);
    }
  }

  lemma StartsBySavePoint(w: World, s: State, org: Org)
    requires Inv(w, s.ledger, s.store, s.hist) && org in s.hist
    ensures s.hist[org].first == 0 || s.store.savePoint == Some(s.hist[org].first - 1)
  {
    hide StoredAt;
    assert OrgOk(w, s.ledger, s.store, org, s.hist[org]);
  }

  lemma MadeIsLinked(w: World, s: State, org: Org, n: nat)
    requires Inv(w, s.ledger, s.store, s.hist) && Made(s, org, n)
    ensures MadeHeader(s, org, n).number == n
    ensures n == 0 ==> MadeHeader(s, org, n).previousHash == ""
    ensures n > 0 ==>
              if Made(s, org, n - 1) then
                MadeHeader(s, org, n).previousHash == w.headerHash(MadeHeader(s, org, n - 1))
              else
                n <= |s.ledger| && MadeHeader(s, org, n).previousHash == w.headerHash(s.ledger[n - 1].header)
  {
    hide StoredAt, CachedOk;
    assert OrgOk(w, s.ledger, s.store, org, s.hist[org]);
  }

  lemma FatIsLinked(w: World, s: State, n: nat)
    requires LedgerOk(w, s.ledger) && n < |s.ledger|
    ensures s.ledger[n].header.number == n
    ensures n == 0 ==> s.ledger[n].header.previousHash == ""
    ensures n > 0 ==> s.ledger[n].header.previousHash == w.headerHash(s.ledger[n - 1].header)
  {
  }

  /**
   One of two neighbours is served from the fat chain and the other as it was made, although the
   organisation made both, and the fat block in between has another hash.
   */
  predicate Spliced(w: World, s: State, org: Org, n: nat) {
    && n > 0 && FromFat(s, org, n - 1) != FromFat(s, org, n) && Made(s, org, n - 1) && n <= |s.ledger|
    && w.headerHash(MadeHeader(s, org, n - 1)) != w.headerHash(s.ledger[n - 1].header)
  }

  lemma ServedInState(w: World, s: State, org: Org, n: nat)
    requires Inv(w, s.ledger, s.store, s.hist) && LedgerOk(w, s.ledger) && n < Height(s.store, org)
    ensures ServedInChain(w, s, org, n) <==> !Spliced(w, s, org, n)
  {
    hide Retrieve, Inv, LedgerOk, Height, FromFat, MadeHeader;
    ServedHeader(w, s, org, n);
    assert FromFat(s, org, n) ==> n < |s.ledger|;
    if FromFat(s, org, n) { FatIsLinked(w, s, n); } else { MadeIsLinked(w, s, org, n); }
    if n > 0 {
      ServedHeader(w, s, org, n - 1);
      HeightIsLength(w, s, org);
      if FromFat(s, org, n - 1) { LedgerReaches(w, s, org); }
    }
  }

  /**
   In every reachable state of every run, each number below the height of a chain is served a
   block with that number and the hash of its data, linked to the block served before it exactly
   unless the two are spliced.
   */
  lemma ServedExactlyWhen(w: World, channel: Org, steps: seq<Step>, org: Org, n: nat)
    requires Run(w, channel, steps).Some? && n < Height(Run(w, channel, steps).value.store, org)
    ensures var s := Run(w, channel, steps).value;
            var b := Retrieve(s.ledger, s.store, org, n);
            b.Some? && b.value.header.number == n && b.value.header.dataHash == w.dataHash(b.value.data)
    ensures ServedInChain(w, Run(w, channel, steps).value, org, n)
       <==> !Spliced(w, Run(w, channel, steps).value, org, n)
  {
    hide Run, Inv, LedgerOk, ServedInChain, Spliced, Height, Retrieve;
    RunInv(w, channel, steps);
    ServedInState(w, Run(w, channel, steps).value, org, n);
    ServedHash(w, Run(w, channel, steps).value, org, n);
  }

  lemma ServedHash(w: World, s: State, org: Org, n: nat)
    requires Inv(w, s.ledger, s.store, s.hist) && LedgerOk(w, s.ledger) && n < Height(s.store, org)
    ensures var b := Retrieve(s.ledger, s.store, org, n);
            b.Some? && b.value.header.number == n && b.value.header.dataHash == w.dataHash(b.value.data)
  {
    hide Rebuilt, StoredAt, StartsWell, HeadDescribes;
    ServedHeader(w, s, org, n);
    assert OrgOk(w, s.ledger, s.store, org, s.hist[org]);
    if (org, n) in s.store.cache {
      assert CachedAt(s.store, s.hist, (org, n));
    } else if n > SavePoint(s.store) {
      RebuiltIsOriginal(w, s, org, n);
    }
  }

  /** The chain starts right after the save point, or with a block that has the genesis header. */
  predicate StartsCleanly(s: State, org: Org)
    requires org in s.hist
  {
    var h := s.hist[org];
    match s.store.savePoint
    case Some(p) => h.first == p + 1
    case None => h.first == 0 && h.blocks != [] && s.ledger != [] && h.blocks[0].header == s.ledger[0].header
  }

  /** A chain that starts cleanly is served whole from zero to its height. */
  lemma ServedFromStart(w: World, s: State, org: Org, n: nat)
    requires Inv(w, s.ledger, s.store, s.hist) && LedgerOk(w, s.ledger)
    requires org in s.hist && StartsCleanly(s, org) && n < Height(s.store, org)
    ensures ServedInChain(w, s, org, n)
  {
    hide LedgerOk, Retrieve, OrgOk, Height, ServedInChain;
    ServedInState(w, s, org, n);
    if n > 0 {
      NeverCachedBelow(w, s, org, n);
    }
  }

  lemma NeverCachedBelow(w: World, s: State, org: Org, n: nat)
    requires Inv(w, s.ledger, s.store, s.hist) && org in s.hist && StartsCleanly(s, org) && n > 0
    ensures FromFat(s, org, n - 1) != FromFat(s, org, n) && Made(s, org, n - 1) ==>
              n == 1 && s.store.savePoint == None
  {
    hide OrgOk;
    if (org, n - 1) in s.store.cache { assert CachedAt(s.store, s.hist, (org, n - 1)); }
    if (org, n) in s.store.cache { assert CachedAt(s.store, s.hist, (org, n)); }
  }

  // --------------------------------------------------------------- which chains there are

  /** Config blocks are not routed like endorser transactions. */
  ghost predicate ConfigIsNotEndorsed(w: World) {
    forall e :: w.configEnvelope(e) ==> !w.parse(e).EndorserTx?
  }

  /**
   The header of the first block cut from a genesis block: on a channel named like the light
   peers' chain, its data is there twice.
   */
  function FirstHeader(w: World, channel: Org, genesis: Block): Header {
    Header(0, "", w.dataHash(if channel == LITE_PEER then genesis.data + genesis.data else genesis.data))
  }

  predicate StartsAsCut(w: World, channel: Org, s: State, org: Org)
    requires org in s.hist
  {
    var h := s.hist[org];
    match s.store.savePoint
    case Some(p) => h.first == p + 1
    case None =>
      h.first == 0 && h.blocks != [] && s.ledger != [] && h.blocks[0].header == FirstHeader(w, channel, s.ledger[0])
  }

  /** Only the channel's own chain and the light peers' chain ever come to be. */
  predicate Settled(w: World, channel: Org, s: State) {
    && (s.hist.Keys == {} || s.hist.Keys == ConfigOrgs(channel))
    && (forall org | org in s.hist :: StartsAsCut(w, channel, s, org))
    && (s.hist.Keys == {} ==> s.store.savePoint == None)
  }

  lemma ConfigRoutes(w: World, channel: Org, blk: Block)
    requires ConfigIsNotEndorsed(w) && IsConfigBlock(w, blk)
    ensures RoutedOrgs(w, channel, blk) == {} || RoutedOrgs(w, channel, blk) == ConfigOrgs(channel)
  {
    var orgs := Routes(w, channel, blk.data[0]);
    assert orgs == [] || orgs == [channel, LITE_PEER];
    if orgs != [] {
      assert orgs[0] == channel && orgs[1] == LITE_PEER;
      assert channel in Routes(w, channel, blk.data[0]) && LITE_PEER in Routes(w, channel, blk.data[0]);
    }
  }

  lemma CopiesOfPair(a: Org, b: Org, org: Org)
    requires org in [a, b]
    ensures Copies(org, [a, b]) == if a == b then 2 else 1
  {
    assert [a, b][..1] == [a] && [a][..0] == [];
    assert Copies(org, [a]) == if org == a then 1 else 0;
  }

  /** A config block is carried once, or twice on a channel named like the light peers' chain. */
  lemma ConfigCarried(w: World, channel: Org, blk: Block, org: Org)
    requires ConfigIsNotEndorsed(w) && IsConfigBlock(w, blk)
    requires org in RoutedOrgs(w, channel, blk)
    ensures Payloads(Routed(w, channel, blk, org)) == if channel == LITE_PEER then blk.data + blk.data else blk.data
  {
    var orgs := Routes(w, channel, blk.data[0]);
    assert orgs == [channel, LITE_PEER];
    var copies := if channel == LITE_PEER then 2 else 1;
    assert Copies(org, orgs) == copies by { CopiesOfPair(channel, LITE_PEER, org); }
    assert Routed(w, channel, blk, org) == RoutedTo(w, channel, blk, org, 0) + Repeat(DetailsOf(w, blk, 0), copies);
    DetailsIndex(w, blk, 0);
  }

  /** The first block of a chain that starts with the genesis block, and when it has the genesis header. */
  lemma GenesisHeader(w: World, channel: Org, ledger: seq<Block>, head: ChannelHead, org: Org)
    requires ConfigIsNotEndorsed(w) && LedgerOk(w, ledger) && ledger != []
    requires IsConfigBlock(w, ledger[0]) && org in RoutedOrgs(w, channel, ledger[0]) && org !in head.heads
    ensures NextBlock(w, channel, head, ledger[0], org).header == FirstHeader(w, channel, ledger[0])
    ensures FirstHeader(w, channel, ledger[0]) == ledger[0].header
       <==> channel != LITE_PEER || w.dataHash(ledger[0].data + ledger[0].data) == w.dataHash(ledger[0].data)
  {
    hide RoutedOrgs, Routed, Payloads, FilterOf;
    ConfigCarried(w, channel, ledger[0], org);
  }

  /** The genesis block is a config block that starts both chains, or starts none. */
  lemma GenesisSettled(w: World, channel: Org, s: State)
    requires ConfigIsNotEndorsed(w)
    requires Inv(w, s.ledger, s.store, s.hist) && LedgerOk(w, s.ledger) && s.hist.Keys == {}
    requires s.ledger != [] && Processed(w, channel, s.ledger, s.store, s.ledger[0]).Some?
    ensures Settled(w, channel, AfterProcess(w, channel, s, s.ledger[0]))
  {
    hide NextBlock, RoutedOrgs, LedgerOk, ConfigIsNotEndorsed, Extended, ExtendedHistory, OrgOk, CachedOk, FirstHeader;
    NumberedLedger(w, s.ledger, 0);
    var blk := s.ledger[0];
    var s' := AfterProcess(w, channel, s, blk);
    var st0 := Started(w, channel, s.ledger, s.store, blk);
    assert st0.head.heads == map[] && StartedHistory(w, channel, s.ledger, s.store, blk, s.hist) == s.hist;
    ExtendedKeys(w, channel, st0, blk, s.hist);
    if s'.hist.Keys != {} {
      var one :| one in s'.hist;
      assert IsConfigBlock(w, blk);
      ConfigRoutes(w, channel, blk);
      forall org | org in s'.hist ensures StartsAsCut(w, channel, s', org) {
        HistoryOfExtended(w, channel, st0, blk, s.hist, org);
        GenesisHeader(w, channel, s.ledger, st0.head, org);
      }
    }
  }

  /** A switch from the fat chain starts both chains after the save point. */
  lemma SwitchSettled(w: World, channel: Org, s: State, n: nat)
    requires ConfigIsNotEndorsed(w)
    requires Inv(w, s.ledger, s.store, s.hist) && LedgerOk(w, s.ledger) && s.hist.Keys == {}
    requires 0 < n < |s.ledger| && Processed(w, channel, s.ledger, s.store, s.ledger[n]).Some?
    ensures Settled(w, channel, AfterProcess(w, channel, s, s.ledger[n]))
  {
    hide NextBlock, RoutedOrgs, LedgerOk, ConfigIsNotEndorsed, Extended, ExtendedHistory, OrgOk, CachedOk, FirstHeader;
    NumberedLedger(w, s.ledger, n);
    var blk := s.ledger[n];
    var s' := AfterProcess(w, channel, s, blk);
    var st0 := Started(w, channel, s.ledger, s.store, blk);
    var hist0 := StartedHistory(w, channel, s.ledger, s.store, blk, s.hist);
    assert st0.head.heads.Keys == hist0.Keys == ConfigOrgs(channel);
    RoutedToConfigOrgs(w, channel, st0.head, blk);
    ExtendedKeys(w, channel, st0, blk, hist0);
    forall org | org in s'.hist ensures StartsAsCut(w, channel, s', org) {
      HistoryOfExtended(w, channel, st0, blk, hist0, org);
    }
  }

  lemma RoutedToConfigOrgs(w: World, channel: Org, head: ChannelHead, blk: Block)
    requires ConfigIsNotEndorsed(w) && CanCreate(w, channel, head, blk) && head.heads.Keys == ConfigOrgs(channel)
    ensures RoutedOrgs(w, channel, blk) <= ConfigOrgs(channel)
  {
    hide RoutedOrgs;
    if IsConfigBlock(w, blk) { ConfigRoutes(w, channel, blk); }
  }

  lemma LaterProcessSettled(w: World, channel: Org, s: State, n: nat)
    requires ConfigIsNotEndorsed(w)
    requires Inv(w, s.ledger, s.store, s.hist) && Settled(w, channel, s) && s.hist.Keys != {}
    requires n < |s.ledger| && Processed(w, channel, s.ledger, s.store, s.ledger[n]).Some?
    ensures Settled(w, channel, AfterProcess(w, channel, s, s.ledger[n]))
  {
    hide NextBlock, RoutedOrgs, ConfigIsNotEndorsed, Extended, ExtendedHistory, OrgOk, CachedOk, FirstHeader;
    var blk := s.ledger[n];
    var s' := AfterProcess(w, channel, s, blk);
    assert s.store.head.heads.Keys == s.hist.Keys == ConfigOrgs(channel);
    RoutedToConfigOrgs(w, channel, s.store.head, blk);
    ExtendedKeys(w, channel, s.store, blk, s.hist);
    forall org | org in s'.hist ensures StartsAsCut(w, channel, s', org) {
      assert StartsAsCut(w, channel, s, org);
      HistoryOfExtended(w, channel, s.store, blk, s.hist, org);
    }
  }

  lemma StepSettled(w: World, channel: Org, s: State, step: Step)
    requires ConfigIsNotEndorsed(w)
    requires Inv(w, s.ledger, s.store, s.hist) && LedgerOk(w, s.ledger) && Settled(w, channel, s)
    requires Apply(w, channel, s, step).Some?
    ensures Settled(w, channel, Apply(w, channel, s, step).value)
  {
    hide Inv, LedgerOk, Processed, AfterProcess, ConfigOrgs, ConfigIsNotEndorsed, Kept, FirstHeader;
    if step.Process? {
      if s.hist.Keys == {} && step.number == 0 {
        GenesisSettled(w, channel, s);
      } else if s.hist.Keys == {} {
        SwitchSettled(w, channel, s, step.number);
      } else {
        LaterProcessSettled(w, channel, s, step.number);
      }
    } else {
      var s' := Apply(w, channel, s, step).value;
      forall org | org in s'.hist ensures StartsAsCut(w, channel, s', org) {
        assert StartsAsCut(w, channel, s, org);
      }
    }
  }

  /** In every run no chain exists or both do, and both start after the save point or from the genesis block. */
  lemma {:induction false} RunSettled(w: World, channel: Org, steps: seq<Step>)
    requires ConfigIsNotEndorsed(w) && Run(w, channel, steps).Some?
    ensures Settled(w, channel, Run(w, channel, steps).value)
  {
    hide Inv, Apply, LedgerOk, ConfigIsNotEndorsed;
    if steps != [] {
      var before := steps[..|steps| - 1];
      RunSettled(w, channel, before);
      RunInv(w, channel, before);
      StepSettled(w, channel, Run(w, channel, before).value, steps[|steps| - 1]);
    }
  }

  /** The fat genesis block is served in place of a first block with another hash. */
  predicate GenesisMisfits(w: World, channel: Org, s: State, org: Org, n: nat) {
    && n == 1 && s.store.savePoint == None && (org, 0) !in s.store.cache && s.ledger != []
    && w.headerHash(FirstHeader(w, channel, s.ledger[0])) != w.headerHash(s.ledger[0].header)
  }

  /**
   In every reachable state, and whatever has been evicted, the chain served to an organisation
   is whole from zero to its height: fat blocks up to the save point, then its own blocks, every
   block carrying its number and the hash of the block served before it. The one exception is on
   a channel named like the light peers' chain, between an evicted first block and the second.
   */
  lemma ServedChain(w: World, channel: Org, steps: seq<Step>, org: Org, n: nat)
    requires ConfigIsNotEndorsed(w) && Run(w, channel, steps).Some?
    requires n < Height(Run(w, channel, steps).value.store, org)
    ensures var s := Run(w, channel, steps).value;
            && (ServedInChain(w, s, org, n) <==> !GenesisMisfits(w, channel, s, org, n))
            && (channel != LITE_PEER ==> !GenesisMisfits(w, channel, s, org, n))
  {
    hide Apply, ConfigIsNotEndorsed, Run, ServedInChain, OrgOk, Retrieve;
    RunInv(w, channel, steps);
    RunSettled(w, channel, steps);
    var s := Run(w, channel, steps).value;
    HeightIsLength(w, s, org);
    assert StartsAsCut(w, channel, s, org);
    ServedInState(w, s, org, n);
    if n > 0 {
      SplicedAtStart(w, channel, s, org, n);
    }
  }

  lemma SplicedAtStart(w: World, channel: Org, s: State, org: Org, n: nat)
    requires Inv(w, s.ledger, s.store, s.hist) && org in s.hist && StartsAsCut(w, channel, s, org)
    requires 0 < n < Height(s.store, org)
    ensures Spliced(w, s, org, n) <==> GenesisMisfits(w, channel, s, org, n)
  {
    hide OrgOk, FirstHeader;
    HeightIsLength(w, s, org);
    if (org, n - 1) in s.store.cache { assert CachedAt(s.store, s.hist, (org, n - 1)); }
    if (org, n) in s.store.cache { assert CachedAt(s.store, s.hist, (org, n)); }
  }
}
