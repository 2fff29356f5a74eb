/** The switch from the fat chain: when the served chain repeats nothing. */
module SparseSwitch {
  import opened Common
  import opened SparseRouting
  import opened SparseChain
  import opened SparseRuns

  /** No block of an organisation repeats envelopes of the fat chain served before it. */
  predicate NothingServedTwice(s: State) {
    s.store.savePoint.Some? ==> forall k | k in s.store.index :: s.store.index[k] > s.store.savePoint.value
  }

  predicate RoutesNothing(w: World, channel: Org, blk: Block) {
    RoutedOrgs(w, channel, blk) == {}
  }

  /** Every index entry belongs to a chain and to a processed fat block that routes something. */
  predicate IndexedFrom(w: World, channel: Org, s: State, k: (Org, nat))
    requires k in s.store.index
  {
    var f := s.store.index[k];
    && k.0 in s.hist && k.1 < NextNumber(s.store.head, k.0)
    && f in s.store.info && f < |s.ledger| && !RoutesNothing(w, channel, s.ledger[f])
  }

  /** Every processed fat block that routes something has an index entry. */
  ghost predicate IndexesSome(w: World, channel: Org, s: State, f: nat) {
    && f < |s.ledger|
    && (RoutesNothing(w, channel, s.ledger[f]) || exists k :: k in s.store.index && s.store.index[k] == f)
  }

  ghost predicate IndexOk(w: World, channel: Org, s: State) {
    && (forall k | k in s.store.index :: IndexedFrom(w, channel, s, k))
    && (forall f | f in s.store.info :: IndexesSome(w, channel, s, f))
    && (s.hist.Keys == {} ==> forall f | f in s.store.info :: f == 0)
  }

  lemma HeadsAfter(w: World, channel: Org, st: Store, blk: Block)
    requires CanCreate(w, channel, st.head, blk)
    ensures var st' := Extended(w, channel, st, blk);
            && st'.info.Keys == st.info.Keys + {blk.header.number}
            && st'.head.lastFat == blk.header.number && st'.savePoint == st.savePoint
            && st'.head.heads.Keys == st.head.heads.Keys + RoutedOrgs(w, channel, blk)
            && forall org | org in st.head.heads && org !in RoutedOrgs(w, channel, blk) ::
                 st'.head.heads[org] == st.head.heads[org]
  {
    hide RoutedOrgs, NextBlock, NextDetails, NextHead, NextNumber;
  }

  lemma IndexAfter(w: World, channel: Org, st: Store, blk: Block, k: (Org, nat))
    requires CanCreate(w, channel, st.head, blk)
    ensures var st' := Extended(w, channel, st, blk);
            var made := k.0 in RoutedOrgs(w, channel, blk) && k.1 == NextNumber(st.head, k.0);
            && (k in st'.index <==> k in st.index || made)
            && (k in st'.index ==> st'.index[k] == if made then blk.header.number else st.index[k])
            && st'.info.Keys == st.info.Keys + {blk.header.number}
            && st'.head.lastFat == blk.header.number && st'.savePoint == st.savePoint
            && st'.head.heads.Keys == st.head.heads.Keys + RoutedOrgs(w, channel, blk)
            && NextNumber(st'.head, k.0)
               == NextNumber(st.head, k.0) + if k.0 in RoutedOrgs(w, channel, blk) then 1 else 0
  {
    hide RoutedOrgs, NextBlock, NextDetails, NextHead, NextNumber, Extended, CanCreate;
    ExtendedAt(w, channel, st, blk, k);
    HeadsAfter(w, channel, st, blk);
    if k.0 in RoutedOrgs(w, channel, blk) {
      ExtendedParts(w, channel, st, blk, k.0);
      assert IsConfigBlock(w, blk) || k.0 in st.head.heads by { RoutedHasHead(w, channel, st.head, blk, k.0); }
      NextBlockNumber(w, channel, st.head, blk, k.0);
    }
    NextOfHead(Extended(w, channel, st, blk).head, k.0);
    NextOfHead(st.head, k.0);
  }

  lemma NextOfHead(head: ChannelHead, org: Org)
    ensures NextNumber(head, org) == if org in head.heads then head.heads[org].lastNum + 1 else 0
  {
  }

  /** Processing a block enters it in the index exactly if it routes something. */
  lemma ProcessIndexOk(w: World, channel: Org, s: State, n: nat)
    requires Inv(w, s.ledger, s.store, s.hist) && LedgerOk(w, s.ledger) && IndexOk(w, channel, s)
    requires n < |s.ledger| && Processed(w, channel, s.ledger, s.store, s.ledger[n]).Some?
    ensures IndexOk(w, channel, AfterProcess(w, channel, s, s.ledger[n]))
  {
    hide NextBlock, RoutedOrgs, LedgerOk, Extended, ExtendedHistory, OrgOk, CachedOk, NextNumber, CanCreate;
    NumberedLedger(w, s.ledger, n);
    var blk := s.ledger[n];
    var s' := AfterProcess(w, channel, s, blk);
    var st0 := Started(w, channel, s.ledger, s.store, blk);
    var hist0 := StartedHistory(w, channel, s.ledger, s.store, blk, s.hist);
    ExtendedKeys(w, channel, st0, blk, hist0);
    if s.hist.Keys == {} { ChainlessIndex(w, channel, s); }
    assert s.hist.Keys != {} ==> st0 == s.store && hist0 == s.hist;
    assert st0.index == s.store.index && st0.info == s.store.info && s.hist.Keys <= hist0.Keys;
    forall k | k in s'.store.index ensures IndexedFrom(w, channel, s', k) {
      IndexAfter(w, channel, st0, blk, k);
      if k.0 in RoutedOrgs(w, channel, blk) && k.1 == NextNumber(st0.head, k.0) {
        assert !RoutesNothing(w, channel, blk);
      } else {
        assert IndexedFrom(w, channel, s, k);
      }
    }
    forall f | f in s'.store.info ensures IndexesSome(w, channel, s', f) {
      IndexAfter(w, channel, st0, blk, (channel, 0));
      if f == n {
        if org :| org in RoutedOrgs(w, channel, blk) {
          IndexAfter(w, channel, st0, blk, (org, NextNumber(st0.head, org)));
          assert (org, NextNumber(st0.head, org)) in s'.store.index;
        }
      } else if !RoutesNothing(w, channel, s.ledger[f]) {
        assert IndexesSome(w, channel, s, f);
        var k :| k in s.store.index && s.store.index[k] == f;
        assert IndexedFrom(w, channel, s, k);
        IndexAfter(w, channel, st0, blk, k);
        assert k in s'.store.index;
      }
    }
    IndexAfter(w, channel, st0, blk, (channel, 0));
    assert s'.hist.Keys == {} ==> n == 0 by { assert n > 0 ==> hist0.Keys != {}; }
  }

  lemma ChainlessIndex(w: World, channel: Org, s: State)
    requires IndexOk(w, channel, s) && s.hist.Keys == {}
    ensures s.store.index == map[]
  {
    hide NextNumber, RoutesNothing;
    assert forall k | k in s.store.index :: IndexedFrom(w, channel, s, k);
  }

  lemma StepIndexOk(w: World, channel: Org, s: State, step: Step)
    requires Inv(w, s.ledger, s.store, s.hist) && LedgerOk(w, s.ledger) && IndexOk(w, channel, s)
    requires Apply(w, channel, s, step).Some?
    ensures IndexOk(w, channel, Apply(w, channel, s, step).value)
  {
    hide Inv, LedgerOk, Processed, AfterProcess, Kept, RoutesNothing, NextNumber;
    if step.Process? {
      ProcessIndexOk(w, channel, s, step.number);
    } else {
      var s' := Apply(w, channel, s, step).value;
      assert forall f: nat | f < |s.ledger| :: s'.ledger[f] == s.ledger[f];
      forall k | k in s'.store.index ensures IndexedFrom(w, channel, s', k) {
        assert IndexedFrom(w, channel, s, k);
      }
      forall f | f in s'.store.info ensures IndexesSome(w, channel, s', f) {
        assert IndexesSome(w, channel, s, f);
      }
    }
  }

  /** Over every run; in particular the index is empty as long as there is no chain. */
  lemma {:induction false} RunIndexOk(w: World, channel: Org, steps: seq<Step>)
    requires Run(w, channel, steps).Some?
    ensures IndexOk(w, channel, Run(w, channel, steps).value)
    ensures Run(w, channel, steps).value.hist.Keys == {} ==> Run(w, channel, steps).value.store.index == map[]
  {
    hide Inv, Apply, LedgerOk, RoutesNothing, NextNumber;
    if steps != [] {
      var before := steps[..|steps| - 1];
      RunIndexOk(w, channel, before);
      RunInv(w, channel, before);
      StepIndexOk(w, channel, Run(w, channel, before).value, steps[|steps| - 1]);
    }
    if Run(w, channel, steps).value.hist.Keys == {} { ChainlessIndex(w, channel, Run(w, channel, steps).value); }
  }

  /**
   In every reachable state the served chain repeats nothing exactly when no fat block up to the
   save point that has been processed routes anything.
   */
  lemma RepeatsExactlyWhen(w: World, channel: Org, steps: seq<Step>)
    requires Run(w, channel, steps).Some?
    ensures var s := Run(w, channel, steps).value;
            NothingServedTwice(s) <==>
              forall f |
                f in s.store.info && f < |s.ledger| && s.store.savePoint.Some? && f <= s.store.savePoint.value ::
                RoutesNothing(w, channel, s.ledger[f])
  {
    hide Run, RoutesNothing, NextNumber;
    RunIndexOk(w, channel, steps);
    var s := Run(w, channel, steps).value;
    if s.store.savePoint.Some? {
      var p := s.store.savePoint.value;
      forall k | k in s.store.index && s.store.index[k] <= p
        ensures s.store.index[k] in s.store.info && s.store.index[k] < |s.ledger|
        ensures !RoutesNothing(w, channel, s.ledger[s.store.index[k]])
      {
        assert IndexedFrom(w, channel, s, k);
      }
      forall f | f in s.store.info && f <= p && f < |s.ledger| && !RoutesNothing(w, channel, s.ledger[f])
        ensures exists k :: k in s.store.index && s.store.index[k] <= p
      {
        assert IndexesSome(w, channel, s, f);
        var k :| k in s.store.index && s.store.index[k] == f;
      }
    }
  }

  // ---------------------------------------------------------------- known before the switch

  /** The generator can cut the block once both chains exist, and something comes of it. */
  predicate CutsSomething(w: World, channel: Org, blk: Block) {
    && Decodable(w, blk) && !RoutesNothing(w, channel, blk)
    && (IsConfigBlock(w, blk) || RoutedOrgs(w, channel, blk) <= ConfigOrgs(channel))
  }

  /** A block from `n` to `f` has been cut into something. */
  predicate HasCut(w: World, channel: Org, s: State, n: nat, f: nat) {
    exists g | n <= g <= f && g < |s.ledger| :: g in s.store.info && CutsSomething(w, channel, s.ledger[g])
  }

  /** What holds from a switch at block `n` with save point `p` on, until the first block is cut. */
  predicate SwitchedAt(w: World, channel: Org, s: State, n: nat, p: nat) {
    && s.store.savePoint == Some(p) && ConfigOrgs(channel) <= s.hist.Keys && s.store.head.lastFat >= n
    && (s.hist.Keys == ConfigOrgs(channel) || HasCut(w, channel, s, n, s.store.head.lastFat))
    && forall f | f in s.store.info ::
         f < |s.ledger| && (RoutesNothing(w, channel, s.ledger[f]) || HasCut(w, channel, s, n, f))
  }

  lemma HasCutStays(w: World, channel: Org, s: State, s': State, n: nat, f: nat, f': nat)
    requires HasCut(w, channel, s, n, f) && f <= f' && s.ledger <= s'.ledger
    requires s.store.info.Keys <= s'.store.info.Keys
    ensures HasCut(w, channel, s', n, f')
  {
    hide CutsSomething;
    var g :| n <= g <= f && g < |s.ledger| && g in s.store.info && CutsSomething(w, channel, s.ledger[g]);
    assert g in s'.store.info && CutsSomething(w, channel, s'.ledger[g]);
  }

  /** Over the two chains, a block that routes something and can be cut is cut into something. */
  lemma FirstCut(w: World, channel: Org, head: ChannelHead, s': State, n: nat, f: nat)
    requires n <= f < |s'.ledger| && f in s'.store.info && head.heads.Keys == ConfigOrgs(channel)
    requires CanCreate(w, channel, head, s'.ledger[f])
    ensures RoutesNothing(w, channel, s'.ledger[f]) || HasCut(w, channel, s', n, f)
  {
    hide RoutedOrgs, Decodable;
  }

  lemma SwitchIsAt(w: World, channel: Org, s: State, n: nat)
    requires Inv(w, s.ledger, s.store, s.hist) && LedgerOk(w, s.ledger)
    requires IndexOk(w, channel, s) && s.hist.Keys == {} && 0 < n < |s.ledger|
    requires Processed(w, channel, s.ledger, s.store, s.ledger[n]).Some?
    ensures var s1 := AfterProcess(w, channel, s, s.ledger[n]);
            && SwitchedAt(w, channel, s1, n, |s.ledger| - 2) && n in s1.store.info && s1.store.head.lastFat == n
  {
    hide NextBlock, RoutedOrgs, LedgerOk, Extended, ExtendedHistory, OrgOk, CachedOk, NextNumber, CanCreate;
    hide Decodable, HasCut;
    NumberedLedger(w, s.ledger, n);
    var blk := s.ledger[n];
    var st0 := Started(w, channel, s.ledger, s.store, blk);
    var hist0 := StartedHistory(w, channel, s.ledger, s.store, blk, s.hist);
    assert st0.head.heads.Keys == hist0.Keys == ConfigOrgs(channel);
    ExtendedKeys(w, channel, st0, blk, hist0);
    IndexAfter(w, channel, st0, blk, (channel, 0));
    ChainlessIndex(w, channel, s);
    forall f | f in s.store.info ensures f < |s.ledger| && RoutesNothing(w, channel, s.ledger[f]) {
      assert IndexesSome(w, channel, s, f);
    }
    FirstCut(w, channel, st0.head, AfterProcess(w, channel, s, blk), n, n);
  }

  lemma StaysSwitched(w: World, channel: Org, s: State, step: Step, n: nat, p: nat)
    requires Inv(w, s.ledger, s.store, s.hist) && LedgerOk(w, s.ledger)
    requires SwitchedAt(w, channel, s, n, p) && Apply(w, channel, s, step).Some?
    ensures SwitchedAt(w, channel, Apply(w, channel, s, step).value, n, p)
  {
    hide NextBlock, RoutedOrgs, LedgerOk, Extended, ExtendedHistory, OrgOk, CachedOk, NextNumber, CanCreate;
    hide Decodable, Kept, HasCut, RoutesNothing;
    var s' := Apply(w, channel, s, step).value;
    assert forall f: nat | f < |s.ledger| :: s'.ledger[f] == s.ledger[f];
    if step.Process? {
      var blk := s.ledger[step.number];
      NumberedLedger(w, s.ledger, step.number);
      assert s.store.head.heads.Keys == s.hist.Keys;
      assert channel in s.store.head.heads;
      ExtendedKeys(w, channel, s.store, blk, s.hist);
      IndexAfter(w, channel, s.store, blk, (channel, 0));
      if s.hist.Keys == ConfigOrgs(channel) {
        FirstCut(w, channel, s.store.head, s', n, step.number);
        NoNewChain(w, channel, blk, s.hist.Keys);
      } else {
        HasCutStays(w, channel, s, s', n, s.store.head.lastFat, step.number);
      }
    } else if s.hist.Keys != ConfigOrgs(channel) {
      HasCutStays(w, channel, s, s', n, s.store.head.lastFat, s.store.head.lastFat);
    }
    forall f | f in s.store.info && HasCut(w, channel, s, n, f) ensures HasCut(w, channel, s', n, f) {
      HasCutStays(w, channel, s, s', n, f, f);
    }
  }

  lemma NoNewChain(w: World, channel: Org, blk: Block, orgs: set<Org>)
    ensures RoutesNothing(w, channel, blk) ==> orgs + RoutedOrgs(w, channel, blk) == orgs
  {
    hide RoutedOrgs;
  }

  lemma {:induction false} RunStaysSwitched(
    w: World, channel: Org, steps: seq<Step>, more: seq<Step>, n: nat, p: nat)
    requires Run(w, channel, steps).Some? && Run(w, channel, steps + more).Some?
    requires SwitchedAt(w, channel, Run(w, channel, steps).value, n, p)
    ensures SwitchedAt(w, channel, Run(w, channel, steps + more).value, n, p)
    decreases |more|
  {
    hide Inv, Apply, LedgerOk, SwitchedAt;
    if more == [] {
      assert steps + more == steps;
    } else {
      var init := more[..|more| - 1];
      assert (steps + more)[..|steps + more| - 1] == steps + init;
      RunStaysSwitched(w, channel, steps, init, n, p);
      RunInv(w, channel, steps + init);
      StaysSwitched(w, channel, Run(w, channel, steps + init).value, more[|more| - 1], n, p);
    }
  }

  /** After the switch at `n`, nothing is served twice, however the run goes on. */
  ghost predicate AlwaysClean(w: World, channel: Org, steps: seq<Step>, n: nat) {
    forall more: seq<Step> :: CleanAfter(w, channel, steps + [Process(n)] + more)
  }

  ghost predicate CleanAfter(w: World, channel: Org, steps: seq<Step>) {
    Run(w, channel, steps).Some? ==> NothingServedTwice(Run(w, channel, steps).value)
  }

  /**
   A switch serves nothing twice, however the run goes on, exactly when none of the fat blocks
   from the one processed up to the one before the newest can be cut into anything; in particular
   when the block processed is the newest.
   */
  lemma SwitchIsClean(w: World, channel: Org, steps: seq<Step>, n: nat)
    requires Run(w, channel, steps).Some?
    requires Run(w, channel, steps).value.hist.Keys == {} && 0 < n < |Run(w, channel, steps).value.ledger|
    requires Run(w, channel, steps + [Process(n)]).Some?
    ensures var ledger := Run(w, channel, steps).value.ledger;
            AlwaysClean(w, channel, steps, n) <==>
              forall f | n <= f < |ledger| - 1 :: !CutsSomething(w, channel, ledger[f])
  {
    hide Run, Inv, LedgerOk, CutsSomething, SwitchedAt, CleanAfter;
    var ledger, now := Run(w, channel, steps).value.ledger, steps + [Process(n)];
    AfterSwitch(w, channel, steps, n);
    if forall f | n <= f < |ledger| - 1 :: !CutsSomething(w, channel, ledger[f]) {
      forall more: seq<Step> ensures CleanAfter(w, channel, now + more) {
        CleanMeans(w, channel, now + more);
        if Run(w, channel, now + more).Some? {
          RunStaysSwitched(w, channel, now, more, n, |ledger| - 2);
          RunContinues(w, channel, now + more, |now|);
          assert (now + more)[..|now|] == now;
          NothingCut(w, channel, now + more, ledger, n);
        }
      }
    } else {
      var f :| n <= f < |ledger| - 1 && CutsSomething(w, channel, ledger[f]);
      assert now + [] == now;
      if CutsSomething(w, channel, ledger[n]) {
        CutRepeats(w, channel, now + [], n, |ledger| - 2);
        CleanMeans(w, channel, now + []);
        assert !CleanAfter(w, channel, now + []);
      } else {
        AnotherCut(w, channel, now, ledger, n, f);
        CutRepeats(w, channel, now + [Process(f)], f, |ledger| - 2);
        CleanMeans(w, channel, now + [Process(f)]);
        assert !CleanAfter(w, channel, now + [Process(f)]);
      }
    }
  }

  lemma AfterSwitch(w: World, channel: Org, steps: seq<Step>, n: nat)
    requires Run(w, channel, steps).Some?
    requires Run(w, channel, steps).value.hist.Keys == {} && 0 < n < |Run(w, channel, steps).value.ledger|
    requires Run(w, channel, steps + [Process(n)]).Some?
    ensures var s, s1 := Run(w, channel, steps).value, Run(w, channel, steps + [Process(n)]).value;
            && SwitchedAt(w, channel, s1, n, |s.ledger| - 2) && s1.ledger == s.ledger && n in s1.store.info
            && s1.store.head.lastFat == n && s1.store.savePoint == Some(|s.ledger| - 2)
  {
    hide Inv, LedgerOk, Processed, AfterProcess, IndexOk, CutsSomething;
    var s, now := Run(w, channel, steps).value, steps + [Process(n)];
    assert now[..|now| - 1] == steps;
    RunInv(w, channel, steps);
    RunIndexOk(w, channel, steps);
    SwitchIsAt(w, channel, s, n);
    ProcessKeepsLedger(w, channel, s, n);
  }

  lemma CleanMeans(w: World, channel: Org, steps: seq<Step>)
    ensures CleanAfter(w, channel, steps) <==>
              (Run(w, channel, steps).Some? ==> NothingServedTwice(Run(w, channel, steps).value))
  {
  }

  lemma NothingCut(w: World, channel: Org, steps: seq<Step>, ledger: seq<Block>, n: nat)
    requires Run(w, channel, steps).Some? && |ledger| >= 2 && ledger <= Run(w, channel, steps).value.ledger
    requires SwitchedAt(w, channel, Run(w, channel, steps).value, n, |ledger| - 2)
    requires forall f | n <= f < |ledger| - 1 :: !CutsSomething(w, channel, ledger[f])
    ensures NothingServedTwice(Run(w, channel, steps).value)
  {
    hide Run, CutsSomething, RoutesNothing;
    RepeatsExactlyWhen(w, channel, steps);
    var s := Run(w, channel, steps).value;
    forall f | f in s.store.info && f < |s.ledger| && f <= |ledger| - 2
      ensures RoutesNothing(w, channel, s.ledger[f])
    {
      assert !HasCut(w, channel, s, n, f);
    }
  }

  lemma CutRepeats(w: World, channel: Org, steps: seq<Step>, f: nat, p: nat)
    requires Run(w, channel, steps).Some?
    requires var s := Run(w, channel, steps).value;
             && s.store.savePoint == Some(p) && f <= p && f in s.store.info && f < |s.ledger|
             && CutsSomething(w, channel, s.ledger[f])
    ensures !NothingServedTwice(Run(w, channel, steps).value)
  {
    hide Run, RoutesNothing, Decodable, RoutedOrgs;
    RepeatsExactlyWhen(w, channel, steps);
  }

  /** The generator may go on with any later block it can cut. */
  lemma AnotherCut(w: World, channel: Org, steps: seq<Step>, ledger: seq<Block>, n: nat, f: nat)
    requires Run(w, channel, steps).Some? && Run(w, channel, steps).value.ledger == ledger && |ledger| >= 2
    requires SwitchedAt(w, channel, Run(w, channel, steps).value, n, |ledger| - 2)
    requires Run(w, channel, steps).value.store.head.lastFat == n
    requires n < f < |ledger| - 1 && CutsSomething(w, channel, ledger[f]) && !CutsSomething(w, channel, ledger[n])
    ensures var s := Run(w, channel, steps + [Process(f)]);
            && s.Some? && s.value.ledger == ledger && s.value.store.savePoint == Some(|ledger| - 2)
            && f in s.value.store.info
  {
    hide LedgerOk, Inv, CanCreate, Extended, ExtendedHistory, CutsSomething, Kept;
    var s := Run(w, channel, steps).value;
    assert (steps + [Process(f)])[..|steps|] == steps;
    RunInv(w, channel, steps);
    NumberedLedger(w, ledger, f);
    assert s.hist.Keys == ConfigOrgs(channel) by { assert !HasCut(w, channel, s, n, n); }
    CanCutNext(w, channel, s, f);
    IndexAfter(w, channel, s.store, ledger[f], (channel, 0));
  }

  lemma CanCutNext(w: World, channel: Org, s: State, f: nat)
    requires Inv(w, s.ledger, s.store, s.hist) && s.hist.Keys == ConfigOrgs(channel)
    requires f < |s.ledger| && CutsSomething(w, channel, s.ledger[f])
    ensures s.store.head.heads != map[] && CanCreate(w, channel, s.store.head, s.ledger[f])
  {
    hide RoutedOrgs, Decodable, OrgOk, CachedOk;
    assert s.store.head.heads.Keys == ConfigOrgs(channel);
    assert channel in s.store.head.heads;
  }
}
