/**
 Runs of the sparse chain: the fat ledger grows, fat blocks are processed, cached blocks are lost.
 What every reachable state keeps, and which fat blocks stop a run.
 */
module SparseRuns {
  import opened Common
  import opened SparseRouting
  import opened SparseChain

  /** The history records every block ever made; nothing reads it but the proofs. */
  datatype State = State(ledger: seq<Block>, store: Store, hist: History)

  /** A restart keeps nothing of the cache. */
  datatype Step = Append(block: Block) | Process(number: nat) | Evict(keep: set<(Org, nat)>)

  const INITIAL := State([], EMPTY_STORE, map[])

  function Kept(cache: map<(Org, nat), Block>, keep: set<(Org, nat)>): map<(Org, nat), Block> {
    map k | k in cache && k in keep :: cache[k]
  }

  function Apply(w: World, channel: Org, s: State, step: Step): Option<State> {
    match step
    case Append(b) =>
      if LedgerOk(w, s.ledger + [b]) then Some(s.(ledger := s.ledger + [b])) else None
    case Process(n) =>
      if n < |s.ledger| && InOrder(s.store, n) && Processed(w, channel, s.ledger, s.store, s.ledger[n]).Some? then
        Some(AfterProcess(w, channel, s, s.ledger[n]))
      else None
    case Evict(keep) =>
      Some(s.(store := s.store.(cache := Kept(s.store.cache, keep))))
  }

  function AfterProcess(w: World, channel: Org, s: State, blk: Block): State
    requires Processed(w, channel, s.ledger, s.store, blk).Some?
  {
    var st0 := Started(w, channel, s.ledger, s.store, blk);
    var hist0 := StartedHistory(w, channel, s.ledger, s.store, blk, s.hist);
    State(s.ledger, Extended(w, channel, st0, blk), ExtendedHistory(w, channel, st0, blk, hist0))
  }

  /** The state after all steps, if each of them was possible. */
  function Run(w: World, channel: Org, steps: seq<Step>): Option<State> {
    if steps == [] then Some(INITIAL)
    else
      var before := Run(w, channel, steps[..|steps| - 1]);
      if before.None? then None else Apply(w, channel, before.value, steps[|steps| - 1])
  }

  lemma ProcessKeepsLedger(w: World, channel: Org, s: State, n: nat)
    requires n < |s.ledger| && Processed(w, channel, s.ledger, s.store, s.ledger[n]).Some?
    ensures AfterProcess(w, channel, s, s.ledger[n]).ledger == s.ledger
  {
    hide Processed, Extended, ExtendedHistory;
  }

  // ------------------------------------------------------------- every step keeps Inv

  lemma StoredInLonger(ledger: seq<Block>, more: seq<Block>, st: Store, org: Org, b: Block)
    requires StoredAt(ledger, st, org, b)
    ensures StoredAt(ledger + more, st, org, b)
  {
    hide SameContent, Assembled, InRange;
    var f := st.index[(org, b.header.number)];
    assert (ledger + more)[f] == ledger[f];
  }

  lemma OrgOkInLonger(w: World, ledger: seq<Block>, more: seq<Block>, st: Store, org: Org, h: OrgHistory)
    requires OrgOk(w, ledger, st, org, h)
    ensures OrgOk(w, ledger + more, st, org, h)
  {
    hide StoredAt;
    forall i | 0 <= i < |h.blocks| ensures StoredAt(ledger + more, st, org, h.blocks[i]) {
      StoredInLonger(ledger, more, st, org, h.blocks[i]);
    }
  }

  lemma AppendInv(w: World, ledger: seq<Block>, more: seq<Block>, st: Store, hist: History)
    requires Inv(w, ledger, st, hist)
    ensures Inv(w, ledger + more, st, hist)
  {
    hide OrgOk, CachedOk;
    forall org | org in hist ensures OrgOk(w, ledger + more, st, org, hist[org]) {
      OrgOkInLonger(w, ledger, more, st, org, hist[org]);
    }
  }

  lemma StoredWithoutCache(ledger: seq<Block>, st: Store, cache: map<(Org, nat), Block>, org: Org, b: Block)
    requires StoredAt(ledger, st, org, b)
    ensures StoredAt(ledger, st.(cache := cache), org, b)
  {
    hide SameContent, Assembled, InRange;
  }

  lemma OrgOkWithoutCache(
    w: World, ledger: seq<Block>, st: Store, cache: map<(Org, nat), Block>, org: Org, h: OrgHistory)
    requires OrgOk(w, ledger, st, org, h)
    ensures OrgOk(w, ledger, st.(cache := cache), org, h)
  {
    hide StoredAt;
    forall i | 0 <= i < |h.blocks| ensures StoredAt(ledger, st.(cache := cache), org, h.blocks[i]) {
      StoredWithoutCache(ledger, st, cache, org, h.blocks[i]);
    }
  }

  lemma EvictInv(w: World, ledger: seq<Block>, st: Store, hist: History, keep: set<(Org, nat)>)
    requires Inv(w, ledger, st, hist)
    ensures Inv(w, ledger, st.(cache := Kept(st.cache, keep)), hist)
  {
    hide OrgOk;
    var st' := st.(cache := Kept(st.cache, keep));
    forall org | org in hist ensures OrgOk(w, ledger, st', org, hist[org]) {
      OrgOkWithoutCache(w, ledger, st, Kept(st.cache, keep), org, hist[org]);
    }
    forall k | k in st'.cache ensures CachedAt(st', hist, k) {
      assert CachedAt(st, hist, k);
    }
  }

  lemma StepInv(w: World, channel: Org, s: State, step: Step)
    requires Inv(w, s.ledger, s.store, s.hist) && LedgerOk(w, s.ledger)
    requires Apply(w, channel, s, step).Some?
    ensures var s' := Apply(w, channel, s, step).value;
            Inv(w, s'.ledger, s'.store, s'.hist) && LedgerOk(w, s'.ledger)
  {
    hide Inv, Extended, ExtendedHistory, Started, StartedHistory, InOrder, CanCreate;
    match step {
      case Append(b) => AppendInv(w, s.ledger, [b], s.store, s.hist);
      case Process(n) => ProcessedInv(w, channel, s.ledger, s.store, s.ledger[n], s.hist);
      case Evict(keep) => EvictInv(w, s.ledger, s.store, s.hist, keep);
    }
  }

  /** In every reachable state each chain is gapless, hash-linked, described by its head and stored. */
  lemma {:induction false} RunInv(w: World, channel: Org, steps: seq<Step>)
    requires Run(w, channel, steps).Some?
    ensures var s := Run(w, channel, steps).value;
            Inv(w, s.ledger, s.store, s.hist) && LedgerOk(w, s.ledger)
  {
    hide Inv, Apply, LedgerOk;
    if steps == [] {
      InitialInv(w);
    } else {
      RunInv(w, channel, steps[..|steps| - 1]);
      StepInv(w, channel, Run(w, channel, steps[..|steps| - 1]).value, steps[|steps| - 1]);
    }
  }

  lemma InitialInv(w: World)
    ensures Inv(w, INITIAL.ledger, INITIAL.store, INITIAL.hist) && LedgerOk(w, INITIAL.ledger)
  {
  }

  // ---------------------------------------------------------------- blocks are for good

  predicate Continues(h: History, h': History) {
    forall org | org in h ::
      org in h' && h[org].first == h'[org].first && h[org].blocks <= h'[org].blocks
  }

  lemma StepContinues(w: World, channel: Org, s: State, step: Step)
    requires Inv(w, s.ledger, s.store, s.hist) && Apply(w, channel, s, step).Some?
    ensures var s' := Apply(w, channel, s, step).value;
            Continues(s.hist, s'.hist) && s.ledger <= s'.ledger
  {
    hide OrgOk, CachedOk, NextBlock, RoutedOrgs, Extended, CanCreate, LedgerOk;
    if step.Process? {
      var blk := s.ledger[step.number];
      var st0 := Started(w, channel, s.ledger, s.store, blk);
      assert s.store.head.heads == map[] ==> s.hist.Keys == {};
      assert StartedHistory(w, channel, s.ledger, s.store, blk, s.hist) == s.hist || s.hist.Keys == {};
    }
  }

  lemma ContinuesTransitive(a: History, b: History, c: History)
    requires Continues(a, b) && Continues(b, c)
    ensures Continues(a, c)
  {
    forall org | org in a
      ensures org in c && a[org].first == c[org].first && a[org].blocks <= c[org].blocks
    {
      assert org in b;
    }
  }

  /** A later state only adds blocks to what an earlier one had. */
  lemma {:induction false} RunContinues(w: World, channel: Org, steps: seq<Step>, k: nat)
    requires k <= |steps| && Run(w, channel, steps).Some?
    ensures Run(w, channel, steps[..k]).Some?
    ensures var s, s' := Run(w, channel, steps[..k]).value, Run(w, channel, steps).value;
            Continues(s.hist, s'.hist) && s.ledger <= s'.ledger
    decreases |steps| - k
  {
    hide Inv, Apply, LedgerOk;
    if k == |steps| {
      assert steps[..k] == steps;
    } else {
      RunContinues(w, channel, steps, k + 1);
      assert steps[..k + 1][..k] == steps[..k];
      RunInv(w, channel, steps[..k]);
      var s := Run(w, channel, steps[..k]).value;
      StepContinues(w, channel, s, steps[k]);
      ContinuesTransitive(s.hist, Run(w, channel, steps[..k + 1]).value.hist, Run(w, channel, steps).value.hist);
    }
  }

  lemma StoredIsRebuilt(ledger: seq<Block>, st: Store, org: Org, b: Block)
    requires StoredAt(ledger, st, org, b)
    ensures var r := Rebuilt(ledger, st, org, b.header.number); r.Some? && SameContent(r.value, b)
  {
    hide Rebuilt, SameContent;
  }

  lemma ChainIsOk(w: World, s: State, org: Org, n: nat)
    requires Inv(w, s.ledger, s.store, s.hist) && n < Height(s.store, org)
    ensures org in s.hist && OrgOk(w, s.ledger, s.store, org, s.hist[org])
  {
    hide OrgOk, CachedOk;
  }

  lemma AboveSavePoint(w: World, ledger: seq<Block>, st: Store, org: Org, h: OrgHistory, n: nat)
    requires OrgOk(w, ledger, st, org, h) && SavePoint(st) < n < Height(st, org)
    ensures h.first <= n < h.first + |h.blocks|
  {
    hide StoredAt, Linked;
  }

  /** A block above the save point reads the same whether it is cached or has to be rebuilt. */
  lemma RebuiltIsOriginal(w: World, s: State, org: Org, n: nat)
    requires Inv(w, s.ledger, s.store, s.hist) && org in s.hist && n > SavePoint(s.store)
    requires s.hist[org].first <= n < s.hist[org].first + |s.hist[org].blocks|
    ensures Retrieve(s.ledger, s.store, org, n).Some?
    ensures SameContent(Retrieve(s.ledger, s.store, org, n).value, s.hist[org].blocks[n - s.hist[org].first])
  {
    hide Rebuilt, SavePoint, StoredAt, HeadDescribes, StartsWell;
    var h := s.hist[org];
    assert OrgOk(w, s.ledger, s.store, org, h);
    StoredIsRebuilt(s.ledger, s.store, org, h.blocks[n - h.first]);
    if (org, n) in s.store.cache {
      assert CachedAt(s.store, s.hist, (org, n));
    }
  }

  /** What was made at one point of a run is what is read at any later point. */
  lemma BlocksAreForGood(w: World, channel: Org, steps: seq<Step>, k: nat, org: Org, n: nat)
    requires k <= |steps| && Run(w, channel, steps).Some? && Run(w, channel, steps[..k]).Some?
    requires var s := Run(w, channel, steps[..k]).value;
             org in s.hist && s.hist[org].first <= n < s.hist[org].first + |s.hist[org].blocks|
    requires n > SavePoint(Run(w, channel, steps).value.store)
    ensures var s, s' := Run(w, channel, steps[..k]).value, Run(w, channel, steps).value;
            && Retrieve(s'.ledger, s'.store, org, n).Some?
            && SameContent(Retrieve(s'.ledger, s'.store, org, n).value, s.hist[org].blocks[n - s.hist[org].first])
  {
    hide Inv, Apply, LedgerOk, Retrieve, SavePoint, SameContent, Run;
    RunContinues(w, channel, steps, k);
    RunInv(w, channel, steps);
    var s' := Run(w, channel, steps).value;
    RebuiltIsOriginal(w, s', org, n);
  }

  // ---------------------------------------------------------------- where a run stops

  lemma NumberedLedger(w: World, ledger: seq<Block>, n: nat)
    requires LedgerOk(w, ledger) && n < |ledger|
    ensures ledger[n].header.number == n
  {
  }

  function ConfigOrgs(channel: Org): set<Org> {
    {channel, LITE_PEER}
  }

  /** The organisations with a chain when block `n` is cut up: those there are, or those a switch starts. */
  function Chains(channel: Org, s: State, n: nat): set<Org> {
    if s.hist.Keys != {} then s.hist.Keys else if n == 0 then {} else ConfigOrgs(channel)
  }

  /**
   Which fat blocks stop the generator: those with an envelope that does not decode, and those
   that are not config blocks and involve an organisation without a chain.
   */
  lemma PanicsExactlyWhen(w: World, channel: Org, steps: seq<Step>, n: nat)
    requires Run(w, channel, steps).Some?
    requires var s := Run(w, channel, steps).value; n < |s.ledger| && InOrder(s.store, n)
    ensures var s := Run(w, channel, steps).value;
            var blk := s.ledger[n];
            Apply(w, channel, s, Process(n)) == None <==>
              || !Decodable(w, blk)
              || (!IsConfigBlock(w, blk) && !(RoutedOrgs(w, channel, blk) <= Chains(channel, s, n)))
  {
    hide OrgOk, CachedOk, Run, RoutedOrgs, LedgerOk, Extended, ExtendedHistory, Decodable;
    RunInv(w, channel, steps);
    var s := Run(w, channel, steps).value;
    var blk := s.ledger[n];
    NumberedLedger(w, s.ledger, n);
    var heads := Started(w, channel, s.ledger, s.store, blk).head.heads;
    assert heads.Keys == Chains(channel, s, n);
    assert (RoutedOrgs(w, channel, blk) <= heads.Keys)
      <==> forall org | org in RoutedOrgs(w, channel, blk) :: org in heads;
  }

  /** A genesis config block starts both chains, so there are runs with something to serve. */
  lemma GenesisStarts(w: World, channel: Org, genesis: Block)
    requires LedgerOk(w, [genesis]) && IsConfigBlock(w, genesis) && w.parse(genesis.data[0]).ConfigTx?
    ensures var s := Run(w, channel, [Append(genesis), Process(0)]);
            && s.Some? && s.value.ledger == [genesis] && s.value.store.savePoint == None
            && Height(s.value.store, channel) == 1 && Height(s.value.store, LITE_PEER) == 1
  {
    hide LedgerOk, NextBlock, NextDetails, NextHead, RoutedOrgs, Extended, ExtendedHistory;
    assert [Append(genesis), Process(0)][..1] == [Append(genesis)] && [Append(genesis)][..0] == [];
    assert [] + [genesis] == [genesis];
    var s := INITIAL.(ledger := [genesis]);
    assert Run(w, channel, [Append(genesis)]) == Some(s);
    NumberedLedger(w, [genesis], 0);
    assert Started(w, channel, s.ledger, s.store, genesis) == EMPTY_STORE;
    BothRouted(w, channel, genesis);
    ExtendedParts(w, channel, EMPTY_STORE, genesis, channel);
    ExtendedParts(w, channel, EMPTY_STORE, genesis, LITE_PEER);
    NextBlockNumber(w, channel, EMPTY_STORE.head, genesis, channel);
    NextBlockNumber(w, channel, EMPTY_STORE.head, genesis, LITE_PEER);
  }

  lemma BothRouted(w: World, channel: Org, blk: Block)
    requires |blk.data| == 1 && w.parse(blk.data[0]).ConfigTx?
    ensures channel in RoutedOrgs(w, channel, blk) && LITE_PEER in RoutedOrgs(w, channel, blk)
  {
    var orgs := Routes(w, channel, blk.data[0]);
    assert orgs[0] == channel && orgs[1] == LITE_PEER;
    assert channel in Routes(w, channel, blk.data[0]) && LITE_PEER in Routes(w, channel, blk.data[0]);
  }

  /** A block with an envelope that does not decode stops the generator, whatever else it holds. */
  lemma UndecodableStops(w: World, channel: Org, genesis: Block, blk: Block, i: nat)
    requires LedgerOk(w, [genesis, blk]) && IsConfigBlock(w, genesis) && w.parse(genesis.data[0]).ConfigTx?
    requires i < |blk.data| && w.parse(blk.data[i]).Undecodable?
    ensures Run(w, channel, [Append(genesis), Process(0), Append(blk)]).Some?
    ensures Run(w, channel, [Append(genesis), Process(0), Append(blk), Process(1)]) == None
  {
    hide LedgerOk, Extended, ExtendedHistory, RoutedOrgs;
    var two, three := [Append(genesis), Process(0)], [Append(genesis), Process(0), Append(blk)];
    assert [genesis, blk][..1] == [genesis];
    assert LedgerOk(w, [genesis]) by { PrefixOk(w, [genesis, blk], 1); }
    GenesisStarts(w, channel, genesis);
    assert [genesis] + [blk] == [genesis, blk];
    assert three[..2] == two && (three + [Process(1)])[..3] == three;
    assert three + [Process(1)] == [Append(genesis), Process(0), Append(blk), Process(1)];
  }

  lemma PrefixOk(w: World, ledger: seq<Block>, n: nat)
    requires LedgerOk(w, ledger) && n <= |ledger|
    ensures LedgerOk(w, ledger[..n])
  {
  }
}
