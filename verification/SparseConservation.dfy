/** Nothing that is routed is lost or repeated between the fat chain and an organisation's chain. */
module SparseConservation {
  import opened Common
  import opened SparseRouting
  import opened SparseChain
  import opened SparseRuns

  /** The numbers of the fat blocks processed in a run, in order. */
  function Taken(steps: seq<Step>): seq<nat> {
    if steps == [] then []
    else
      var last := steps[|steps| - 1];
      Taken(steps[..|steps| - 1]) + if last.Process? then [last.number] else []
  }

  predicate AllBelow(ns: seq<nat>, n: nat) {
    forall i | 0 <= i < |ns| :: ns[i] < n
  }

  /** The envelopes of the listed fat blocks that are routed to an organisation, one block after the other. */
  function RoutedData(w: World, channel: Org, ledger: seq<Block>, ns: seq<nat>, org: Org): seq<Bytes>
    requires AllBelow(ns, |ledger|)
  {
    if ns == [] then []
    else
      var k := |ns| - 1;
      RoutedData(w, channel, ledger, ns[..k], org) + Payloads(Routed(w, channel, ledger[ns[k]], org))
  }

  /** The data of the blocks, one after the other. */
  function DataOf(blocks: seq<Block>): seq<Bytes> {
    if blocks == [] then [] else DataOf(blocks[..|blocks| - 1]) + blocks[|blocks| - 1].data
  }

  function MadeFor(hist: History, org: Org): seq<Block> {
    if org in hist then hist[org].blocks else []
  }

  lemma {:induction false} RoutedDataInLonger(
    w: World, channel: Org, ledger: seq<Block>, more: seq<Block>, ns: seq<nat>, org: Org)
    requires AllBelow(ns, |ledger|)
    ensures RoutedData(w, channel, ledger + more, ns, org) == RoutedData(w, channel, ledger, ns, org)
  {
    hide Routed, Payloads;
    if ns != [] {
      var k := |ns| - 1;
      RoutedDataInLonger(w, channel, ledger, more, ns[..k], org);
      assert (ledger + more)[ns[k]] == ledger[ns[k]];
    }
  }

  lemma NextData(w: World, channel: Org, head: ChannelHead, blk: Block, org: Org)
    requires IsConfigBlock(w, blk) || org in head.heads
    ensures NextBlock(w, channel, head, blk, org).data == Payloads(Routed(w, channel, blk, org))
  {
    hide Routed, Payloads, FilterOf;
  }

  lemma NothingRoutedNoData(w: World, channel: Org, blk: Block, org: Org)
    requires org !in RoutedOrgs(w, channel, blk)
    ensures Payloads(Routed(w, channel, blk, org)) == []
  {
    hide RoutedOrgs, Routed;
    RoutedExactlyWhen(w, channel, blk, org);
  }

  /** A processed block adds to a chain exactly what it routes there. */
  lemma ProcessAdds(w: World, channel: Org, s: State, blk: Block, org: Org)
    requires Inv(w, s.ledger, s.store, s.hist) && Processed(w, channel, s.ledger, s.store, blk).Some?
    ensures DataOf(MadeFor(AfterProcess(w, channel, s, blk).hist, org))
         == DataOf(MadeFor(s.hist, org)) + Payloads(Routed(w, channel, blk, org))
  {
    hide RoutedOrgs, Routed, Payloads, NextBlock, Extended, ExtendedHistory, CanCreate, OrgOk, CachedOk;
    var st0 := Started(w, channel, s.ledger, s.store, blk);
    var hist0 := StartedHistory(w, channel, s.ledger, s.store, blk, s.hist);
    assert MadeFor(hist0, org) == MadeFor(s.hist, org) by {
      assert s.hist.Keys == s.store.head.heads.Keys;
    }
    HistoryOfExtended(w, channel, st0, blk, hist0, org);
    if org in RoutedOrgs(w, channel, blk) {
      assert IsConfigBlock(w, blk) || org in st0.head.heads by { RoutedHasHead(w, channel, st0.head, blk, org); }
      var b := NextBlock(w, channel, st0.head, blk, org);
      NextData(w, channel, st0.head, blk, org);
      DataOfMore(MadeFor(hist0, org), b);
      assert [] + [b] == [b];
    } else {
      NothingRoutedNoData(w, channel, blk, org);
      assert org !in hist0 ==> org !in ExtendedHistory(w, channel, st0, blk, hist0) by {
        ExtendedKeys(w, channel, st0, blk, hist0);
      }
    }
  }

  lemma DataOfMore(blocks: seq<Block>, b: Block)
    ensures DataOf(blocks + [b]) == DataOf(blocks) + b.data
  {
    assert (blocks + [b])[..|blocks|] == blocks;
  }

  /**
   In every run, the data of all blocks of an organisation, one after the other, is what the
   processed fat blocks route to it, in the order they were processed.
   */
  lemma {:induction false} NothingIsLost(w: World, channel: Org, steps: seq<Step>, org: Org)
    requires Run(w, channel, steps).Some?
    ensures var s := Run(w, channel, steps).value;
            && AllBelow(Taken(steps), |s.ledger|)
            && DataOf(MadeFor(s.hist, org)) == RoutedData(w, channel, s.ledger, Taken(steps), org)
  {
    hide Routed, Payloads, Inv, LedgerOk, Processed, AfterProcess, InOrder, Kept, DataOf;
    if steps == [] {
      NoData(w, channel, org);
    } else {
      var before, last := steps[..|steps| - 1], steps[|steps| - 1];
      NothingIsLost(w, channel, before, org);
      RunInv(w, channel, before);
      var s := Run(w, channel, before).value;
      match last {
        case Append(b) =>
          RoutedDataInLonger(w, channel, s.ledger, [b], Taken(before), org);
          assert Taken(steps) == Taken(before);
        case Process(n) =>
          ProcessAdds(w, channel, s, s.ledger[n], org);
          ProcessKeepsLedger(w, channel, s, n);
          assert Taken(steps)[..|Taken(before)|] == Taken(before);
        case Evict(_) =>
          assert Taken(steps) == Taken(before);
      }
    }
  }

  lemma NoData(w: World, channel: Org, org: Org)
    ensures DataOf(MadeFor(INITIAL.hist, org)) == [] == RoutedData(w, channel, INITIAL.ledger, [], org)
  {
  }

  /** The envelopes the first `m` fat blocks route to an organisation. */
  function AllRouted(w: World, channel: Org, ledger: seq<Block>, m: nat, org: Org): seq<Bytes>
    requires m <= |ledger|
  {
    if m == 0 then []
    else AllRouted(w, channel, ledger, m - 1, org) + Payloads(Routed(w, channel, ledger[m - 1], org))
  }

  /**
   A run from the genesis block that takes the first `m` fat blocks once each and in order loses
   and repeats nothing.
   */
  lemma NothingIsLostFromGenesis(w: World, channel: Org, steps: seq<Step>, org: Org, m: nat)
    requires Run(w, channel, steps).Some? && Taken(steps) == Range(0, m)
    ensures m <= |Run(w, channel, steps).value.ledger|
    ensures DataOf(MadeFor(Run(w, channel, steps).value.hist, org))
         == AllRouted(w, channel, Run(w, channel, steps).value.ledger, m, org)
  {
    hide Run, Routed, Payloads, DataOf, RoutedData;
    NothingIsLost(w, channel, steps, org);
    var ledger := Run(w, channel, steps).value.ledger;
    if m > 0 { assert Range(0, m)[m - 1] == m - 1; }
    RoutedFromZero(w, channel, ledger, m, org);
  }

  lemma {:induction false} RoutedFromZero(w: World, channel: Org, ledger: seq<Block>, m: nat, org: Org)
    requires m <= |ledger|
    ensures AllBelow(Range(0, m), |ledger|)
    ensures RoutedData(w, channel, ledger, Range(0, m), org) == AllRouted(w, channel, ledger, m, org)
  {
    hide Routed, Payloads;
    if m > 0 {
      RoutedFromZero(w, channel, ledger, m - 1, org);
      assert Range(0, m)[..m - 1] == Range(0, m - 1);
    }
  }

  // ----------------------------------------------------------------- envelope by envelope

  lemma PayloadIsThere(w: World, channel: Org, blk: Block, org: Org, i: nat)
    requires i < |blk.data| && Share(w, channel, blk.data[i], org) > 0
    ensures blk.data[i] in Payloads(Routed(w, channel, blk, org))
  {
    hide Occurrences, Share, RoutedTo;
    var ds := Routed(w, channel, blk, org);
    RoutedExactly(w, channel, blk, org, |blk.data|, i);
    var k := OccurringIsThere(ds, i);
    RoutedCarries(w, channel, blk, org, k);
    assert Payloads(ds)[k] == blk.data[i];
  }

  lemma PayloadIsFrom(w: World, channel: Org, blk: Block, org: Org, x: Bytes) returns (i: nat)
    requires x in Payloads(Routed(w, channel, blk, org))
    ensures i < |blk.data| && blk.data[i] == x && Share(w, channel, x, org) > 0
  {
    hide Share, RoutedTo;
    var ds := Routed(w, channel, blk, org);
    var k :| 0 <= k < |ds| && Payloads(ds)[k] == x;
    RoutedCarries(w, channel, blk, org, k);
    i := ds[k].index;
  }

  lemma {:induction false} RoutedDataHolds(
    w: World, channel: Org, ledger: seq<Block>, ns: seq<nat>, org: Org, k: nat, x: Bytes)
    requires AllBelow(ns, |ledger|) && k < |ns| && x in Payloads(Routed(w, channel, ledger[ns[k]], org))
    ensures x in RoutedData(w, channel, ledger, ns, org)
  {
    hide Routed, Payloads;
    if k < |ns| - 1 { RoutedDataHolds(w, channel, ledger, ns[..|ns| - 1], org, k, x); }
  }

  lemma {:induction false} RoutedDataFrom(
    w: World, channel: Org, ledger: seq<Block>, ns: seq<nat>, org: Org, x: Bytes) returns (k: nat)
    requires AllBelow(ns, |ledger|) && x in RoutedData(w, channel, ledger, ns, org)
    ensures k < |ns| && x in Payloads(Routed(w, channel, ledger[ns[k]], org))
  {
    hide Routed, Payloads;
    k := |ns| - 1;
    if x !in Payloads(Routed(w, channel, ledger[ns[k]], org)) {
      k := RoutedDataFrom(w, channel, ledger, ns[..k], org, x);
    }
  }

  /** An envelope of a type that is routed. */
  predicate IsRoutable(w: World, envelope: Bytes) {
    var tx := w.parse(envelope);
    tx.ConfigTx? || tx.LifecycleTx? || tx.EndorserTx?
  }

  /** Every such envelope is meant for somebody. */
  lemma RoutableHasShare(w: World, channel: Org, envelope: Bytes) returns (org: Org)
    requires IsRoutable(w, envelope)
    ensures Share(w, channel, envelope, org) > 0
  {
    var tx := w.parse(envelope);
    org := if tx.EndorserTx? && tx.orgs != [] then tx.orgs[0] else channel;
  }

  /**
   In every run, every config, lifecycle and endorser envelope of a processed block is in the
   chain of everybody it is meant for, and it is meant for somebody.
   */
  lemma EveryEnvelopeIsServed(w: World, channel: Org, steps: seq<Step>, f: nat, i: nat) returns (someone: Org)
    requires Run(w, channel, steps).Some? && f in Taken(steps)
    requires var ledger := Run(w, channel, steps).value.ledger;
             f < |ledger| && i < |ledger[f].data| && IsRoutable(w, ledger[f].data[i])
    ensures var s := Run(w, channel, steps).value;
            var x := s.ledger[f].data[i];
            && Share(w, channel, x, someone) > 0
            && forall org | Share(w, channel, x, org) > 0 :: x in DataOf(MadeFor(s.hist, org))
  {
    hide Run, Routed, Payloads, DataOf, RoutedData, Share;
    var s := Run(w, channel, steps).value;
    var x := s.ledger[f].data[i];
    someone := RoutableHasShare(w, channel, x);
    var k :| 0 <= k < |Taken(steps)| && Taken(steps)[k] == f;
    forall org | Share(w, channel, x, org) > 0 ensures x in DataOf(MadeFor(s.hist, org)) {
      NothingIsLost(w, channel, steps, org);
      PayloadIsThere(w, channel, s.ledger[f], org, i);
      RoutedDataHolds(w, channel, s.ledger, Taken(steps), org, k, x);
    }
  }

  /** And nothing else is there: what a chain holds is an envelope of a processed block meant for it. */
  lemma NothingElseIsServed(w: World, channel: Org, steps: seq<Step>, org: Org, x: Bytes) returns (f: nat, i: nat)
    requires Run(w, channel, steps).Some? && x in DataOf(MadeFor(Run(w, channel, steps).value.hist, org))
    ensures var ledger := Run(w, channel, steps).value.ledger;
            && f in Taken(steps) && f < |ledger| && i < |ledger[f].data|
            && ledger[f].data[i] == x && Share(w, channel, x, org) > 0
  {
    hide Run, Routed, Payloads, DataOf, RoutedData, Share;
    NothingIsLost(w, channel, steps, org);
    var s := Run(w, channel, steps).value;
    var k := RoutedDataFrom(w, channel, s.ledger, Taken(steps), org, x);
    f := Taken(steps)[k];
    i := PayloadIsFrom(w, channel, s.ledger[f], org, x);
  }
}
