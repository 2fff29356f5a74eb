/** The main loop takes every fat block exactly once, and takes only steps of a run. */
module SparseCatchUp {
  import opened Common
  import opened SparseRouting
  import opened SparseChain
  import opened SparseRuns
  import opened SparseGenerator

  // ------------------------------------------------------------- every block exactly once

  lemma {:induction false} HandledLast(last: nat, ns: seq<nat>)
    requires ns != []
    ensures HandledAll(last, ns) != [] && HandledAll(last, ns)[|HandledAll(last, ns)| - 1] == ns[|ns| - 1]
  {
  }

  /** Turns that catch up take every block after `last`, once and in order, exactly over increasing numbers above it. */
  lemma {:induction false} TurnsTakeOnce(last: nat, ns: seq<nat>)
    requires ns != []
    ensures HandledAll(last, ns) == Range(last + 1, ns[|ns| - 1] + 1)
            <==> Increasing(ns) && ns[0] > last
  {
    hide Handled, Range, Increasing;
    var k := |ns| - 1;
    assert ns[..k] + [ns[k]] == ns;
    if k == 0 {
      TakesFirst(last, ns[0]);
      assert HandledAll(last, ns) == [] + Handled(last, ns[0]);
      assert Increasing(ns) by { IncreasingOne(ns); }
    } else {
      TurnsTakeOnce(last, ns[..k]);
      HandledLast(last, ns[..k]);
      TakesOneMore(last, ns[k - 1], ns[k], HandledAll(last, ns[..k]));
      IncreasingOneMore(ns);
    }
  }

  lemma TakesFirst(last: nat, n: nat)
    ensures Handled(last, n) == Range(last + 1, n + 1) <==> n > last
  {
  }

  lemma IncreasingOne(ns: seq<nat>)
    requires |ns| <= 1
    ensures Increasing(ns)
  {
  }

  lemma IncreasingOneMore(ns: seq<nat>)
    requires |ns| >= 2
    ensures Increasing(ns) <==> Increasing(ns[..|ns| - 1]) && ns[|ns| - 1] > ns[|ns| - 2]
  {
    if Increasing(ns[..|ns| - 1]) && ns[|ns| - 1] > ns[|ns| - 2] {
      forall k, l | 0 <= k < l < |ns| ensures ns[k] < ns[l] {
        var init := ns[..|ns| - 1];
        assert l < |init| ==> init[k] < init[l];
        assert k < |init| - 1 ==> init[k] < init[|init| - 1];
      }
    }
  }

  lemma HandledLater(m: nat, n: nat)
    ensures Handled(m, n) == if n > m then Range(m + 1, n + 1) else [n]
  {
  }

  lemma RangesJoin(a: nat, m: nat, n: nat)
    requires a <= m + 1 && m < n
    ensures Range(a, m + 1) + Range(m + 1, n + 1) == Range(a, n + 1)
  {
  }

  /** A range that goes on after `m` has the range up to `m` in front. */
  lemma RangeUpTo(a: nat, end: nat, before: seq<nat>, rest: seq<nat>, m: nat)
    requires before != [] && before[|before| - 1] == m && before + rest == Range(a, end)
    ensures before == Range(a, m + 1) && a <= m + 1 && (rest != [] ==> rest[0] == m + 1)
  {
    var whole := before + rest;
    assert whole[|before| - 1] == m;
    assert forall i | 0 <= i < |before| :: before[i] == whole[i];
    if rest != [] { assert whole[|before|] == rest[0]; }
  }

  lemma TakesOneMore(last: nat, m: nat, n: nat, before: seq<nat>)
    requires before != [] && before[|before| - 1] == m
    ensures before + Handled(m, n) == Range(last + 1, n + 1) <==> before == Range(last + 1, m + 1) && n > m
  {
    hide Handled, Range;
    HandledLater(m, n);
    if before + Handled(m, n) == Range(last + 1, n + 1) {
      RangeUpTo(last + 1, n + 1, before, Handled(m, n), m);
    }
    if before == Range(last + 1, m + 1) && n > m {
      RangesJoin(last + 1, m, n);
    }
  }

  lemma {:induction false} HandledFirst(last: nat, n: nat, ns: seq<nat>)
    ensures HandledAll(last, [n] + ns) == Handled(last, n) + HandledAll(n, ns)
    decreases |ns|
  {
    hide Handled;
    if ns == [] {
      assert [n] + ns == [n] && [n][..0] == [];
      assert HandledAll(last, [n]) == [] + Handled(last, n);
    } else {
      var k := |ns| - 1;
      var all := [n] + ns;
      HandledFirst(last, n, ns[..k]);
      assert all[..k + 1] == [n] + ns[..k] && all[k + 1] == ns[k];
      assert all[k] == if k > 0 then ns[k - 1] else n;
      assert HandledAll(last, all)
          == (Handled(last, n) + HandledAll(n, ns[..k])) + Handled(if k > 0 then ns[k - 1] else n, ns[k]);
    }
  }

  /** The number taken last in each turn. */
  function Incoming(st: Store, found: nat, turns: seq<Turn>): (r: seq<nat>)
    ensures |r| == |turns|
  {
    if st.head.heads == map[] && found >= 2 && turns != [] then [found - 1] + Numbers(turns[1..])
    else Numbers(turns)
  }

  /** Where the loop begins: at the newest block it finds, at the genesis block, or after the last one processed. */
  function Beginning(st: Store, found: nat, turns: seq<Turn>): nat
    requires turns != []
  {
    if st.head.heads == map[] && found >= 2 then found - 1
    else if st.head.heads == map[] && turns[0].number == 0 then 0
    else st.head.lastFat + 1
  }

  lemma TakesFrom(n: nat, ns: seq<nat>)
    ensures [n] + HandledAll(n, ns) == Range(n, (if ns == [] then n else ns[|ns| - 1]) + 1) <==> Increasing([n] + ns)
  {
    hide HandledAll, Increasing, Range;
    if ns == [] {
      TakesNone(n);
    } else {
      TurnsTakeOnce(n, ns);
      HandledLast(n, ns);
      IncreasingFront(n, ns);
      RangeFront(n, HandledAll(n, ns), ns[|ns| - 1]);
    }
  }

  lemma TakesNone(n: nat)
    ensures [n] + HandledAll(n, []) == [n] == Range(n, n + 1) && Increasing([n] + [])
  {
  }

  lemma RangeFront(n: nat, rest: seq<nat>, last: nat)
    requires rest != []
    ensures [n] + rest == Range(n, last + 1) <==> rest == Range(n + 1, last + 1)
  {
    if [n] + rest == Range(n, last + 1) {
      assert rest == Range(n, last + 1)[1..];
    }
  }

  lemma IncreasingFront(n: nat, ns: seq<nat>)
    requires ns != []
    ensures Increasing([n] + ns) <==> Increasing(ns) && ns[0] > n
  {
    var all := [n] + ns;
    if Increasing(all) {
      forall k, l | 0 <= k < l < |ns| ensures ns[k] < ns[l] {
        assert all[k + 1] < all[l + 1];
      }
      assert all[0] < all[1];
    }
    if Increasing(ns) && ns[0] > n {
      forall k, l | 0 <= k < l < |all| ensures all[k] < all[l] {
        assert k > 0 ==> ns[k - 1] < ns[l - 1];
        assert l > 1 ==> ns[0] < ns[l - 1];
      }
    }
  }

  /**
   The whole loop takes every fat block from where it begins to the last one incoming, once and in
   order, exactly when the numbers of its turns increase from there.
   */
  lemma TakesEveryBlockOnce(st: Store, found: nat, turns: seq<Turn>)
    requires turns != []
    ensures var ns := Incoming(st, found, turns);
            LoopLog(st, found, turns) == Range(Beginning(st, found, turns), LoopLast(st, found, turns) + 1)
            <==> Increasing(ns) && ns[0] >= Beginning(st, found, turns)
  {
    hide HandledAll, Handled, Range, Increasing;
    if Starts(st, found) {
      LastNumber(turns);
      TakesFrom(found - 1, Numbers(turns[1..]));
    } else if st.head.heads == map[] && turns[0].number == 0 {
      TakesFromGenesis(st.head.lastFat, turns);
    } else {
      TurnsTakeOnce(st.head.lastFat, Numbers(turns));
    }
  }

  lemma LastNumber(turns: seq<Turn>)
    requires turns != []
    ensures Numbers(turns) == [turns[0].number] + Numbers(turns[1..])
    ensures |turns| > 1 ==> Numbers(turns[1..])[|turns| - 2] == turns[|turns| - 1].number
  {
  }

  lemma TakesFromGenesis(last: nat, turns: seq<Turn>)
    requires turns != [] && turns[0].number == 0
    ensures HandledAll(last, Numbers(turns)) == Range(0, turns[|turns| - 1].number + 1) <==> Increasing(Numbers(turns))
  {
    hide HandledAll, Handled, Range, Increasing;
    LastNumber(turns);
    HandledFirst(last, 0, Numbers(turns[1..]));
    assert Handled(last, 0) == [0] by { HandledZero(last); }
    TakesFrom(0, Numbers(turns[1..]));
  }

  lemma HandledZero(last: nat)
    ensures Handled(last, 0) == [0]
  {
  }

  // ------------------------------------------------------- a ledger that grows in a turn

  /** Blocks cut one after the other while the ledger grows: `views[i]` is the ledger when block `from + i` is cut. */
  function FoldedOver(w: World, channel: Org, views: seq<seq<Block>>, st: Store, from: nat): Option<Store>
    requires forall i | 0 <= i < |views| :: from + i < |views[i]|
  {
    if views == [] then Some(st)
    else
      var k := |views| - 1;
      var before := FoldedOver(w, channel, views[..k], st, from);
      if before.None? then None else Processed(w, channel, views[k], before.value, views[k][from + k])
  }

  predicate Views(views: seq<seq<Block>>, ledger: seq<Block>) {
    (views != [] ==> views[0] == ledger) && forall i | 0 <= i < |views| :: ledger <= views[i]
  }

  lemma ChainsExistAfter(w: World, channel: Org, ledger: seq<Block>, st: Store, blk: Block)
    requires Processed(w, channel, ledger, st, blk).Some? && blk.header.number > 0 && |ledger| >= 2
    ensures Processed(w, channel, ledger, st, blk).value.head.heads != map[]
  {
    hide RoutedOrgs, NextBlock, NextDetails, NextHead, NextNumber, CanCreate;
    var st0 := Started(w, channel, ledger, st, blk);
    assert st0.head.heads != map[] by { assert st.head.heads == map[] ==> channel in st0.head.heads; }
    var org :| org in st0.head.heads;
    assert org in Extended(w, channel, st0, blk).head.heads;
  }

  lemma LedgerNotSeen(w: World, channel: Org, ledger: seq<Block>, more: seq<Block>, st: Store, blk: Block)
    requires st.head.heads != map[]
    ensures Processed(w, channel, ledger, st, blk) == Processed(w, channel, more, st, blk)
  {
    hide Extended, CanCreate;
  }

  lemma {:induction false} GrowthNotSeen(
    w: World, channel: Org, ledger: seq<Block>, views: seq<seq<Block>>, st: Store, from: nat)
    requires Views(views, ledger) && from > 0 && from + |views| <= |ledger| && Numbered(ledger)
    ensures FoldedOver(w, channel, views, st, from) == Folded(w, channel, ledger, st, from, from + |views|)
    ensures views != [] && Folded(w, channel, ledger, st, from, from + |views|).Some? ==>
              Folded(w, channel, ledger, st, from, from + |views|).value.head.heads != map[]
    decreases |views|
  {
    hide Processed;
    if views != [] {
      var k := |views| - 1;
      GrowthNotSeen(w, channel, ledger, views[..k], st, from);
      var before := Folded(w, channel, ledger, st, from, from + k);
      if before.Some? {
        var blk := ledger[from + k];
        assert views[k][from + k] == blk;
        if k > 0 { LedgerNotSeen(w, channel, ledger, views[k], before.value, blk); }
        if Processed(w, channel, ledger, before.value, blk).Some? {
          ChainsExistAfter(w, channel, ledger, before.value, blk);
        }
      }
    }
  }

  /** A turn gives the same if the ledger grows while it lasts: only the first block it cuts looks at the height. */
  lemma TurnMayGrow(w: World, channel: Org, st: Store, t: Turn, views: seq<seq<Block>>)
    requires InLedger(t) && Numbered(t.ledger) && Views(views, t.ledger)
    requires t.number > st.head.lastFat && |views| == t.number - st.head.lastFat
    ensures FoldedOver(w, channel, views, st, st.head.lastFat + 1) == AfterTurn(w, channel, st, t)
  {
    hide Processed, FoldedOver;
    var from := st.head.lastFat + 1;
    GrowthNotSeen(w, channel, t.ledger, views, st, from);
    FoldedOneMore(w, channel, t.ledger, st, from, t.number);
    FoldedNothing(w, channel, t.ledger, st, from);
  }

  // ---------------------------------------------------------------- the loop is a run

  lemma RunOneMore(w: World, channel: Org, steps: seq<Step>, step: Step)
    ensures var before := Run(w, channel, steps);
            Run(w, channel, steps + [step]) == if before.None? then None else Apply(w, channel, before.value, step)
  {
    hide Apply;
    assert (steps + [step])[..|steps|] == steps;
  }

  /** The state of a run: its ledger and store, whatever its history. */
  predicate At(w: World, channel: Org, steps: seq<Step>, ledger: seq<Block>, st: Store) {
    var s := Run(w, channel, steps);
    s.Some? && s.value.ledger == ledger && s.value.store == st
  }

  lemma AppendingReaches(w: World, channel: Org, steps: seq<Step>, ledger: seq<Block>, st: Store, more: seq<Block>)
    returns (steps': seq<Step>)
    requires At(w, channel, steps, ledger, st) && ledger <= more && LedgerOk(w, more)
    ensures At(w, channel, steps', more, st)
    decreases |more| - |ledger|
  {
    if ledger == more {
      steps' := steps;
    } else {
      var b := more[|ledger|];
      assert ledger + [b] == more[..|ledger| + 1];
      PrefixOk(w, more, |ledger| + 1);
      RunOneMore(w, channel, steps, Append(b));
      steps' := AppendingReaches(w, channel, steps + [Append(b)], ledger + [b], st, more);
    }
  }

  lemma ProcessReaches(w: World, channel: Org, steps: seq<Step>, ledger: seq<Block>, st: Store, n: nat)
    requires At(w, channel, steps, ledger, st) && n < |ledger| && InOrder(st, n) && LedgerOk(w, ledger)
    requires Processed(w, channel, ledger, st, ledger[n]).Some?
    ensures At(w, channel, steps + [Process(n)], ledger, Processed(w, channel, ledger, st, ledger[n]).value)
    ensures Processed(w, channel, ledger, st, ledger[n]).value.head.lastFat == n
  {
    hide Started, Extended, CanCreate, ExtendedHistory, StartedHistory, InOrder;
    RunOneMore(w, channel, steps, Process(n));
    ProcessedNames(w, channel, ledger, st, ledger[n]);
    NumberedLedger(w, ledger, n);
  }

  lemma {:induction false} FoldReaches(
    w: World, channel: Org, steps: seq<Step>, ledger: seq<Block>, st: Store, from: nat, n: nat)
    returns (steps': seq<Step>)
    requires At(w, channel, steps, ledger, st) && n <= |ledger| && from <= n && LedgerOk(w, ledger)
    requires InOrder(st, from) && Folded(w, channel, ledger, st, from, n).Some?
    ensures At(w, channel, steps', ledger, Folded(w, channel, ledger, st, from, n).value)
    ensures from < n ==> Folded(w, channel, ledger, st, from, n).value.head.lastFat == n - 1
    decreases n
  {
    hide Processed, At, LedgerOk;
    if from == n {
      steps' := steps;
    } else {
      var before := FoldReaches(w, channel, steps, ledger, st, from, n - 1);
      var st' := Folded(w, channel, ledger, st, from, n - 1).value;
      ProcessReaches(w, channel, before, ledger, st', n - 1);
      steps' := before + [Process(n - 1)];
    }
  }

  /** A turn whose number exceeds the last one processed takes only steps of a run. */
  lemma TurnReaches(w: World, channel: Org, steps: seq<Step>, ledger: seq<Block>, st: Store, t: Turn)
    returns (steps': seq<Step>)
    requires At(w, channel, steps, ledger, st) && ledger <= t.ledger && LedgerOk(w, t.ledger) && InLedger(t)
    requires InOrder(st, t.number) && AfterTurn(w, channel, st, t).Some?
    ensures At(w, channel, steps', t.ledger, AfterTurn(w, channel, st, t).value)
    ensures AfterTurn(w, channel, st, t).value.head.lastFat == t.number
  {
    hide Processed, At, LedgerOk, Folded;
    var before := AppendingReaches(w, channel, steps, ledger, st, t.ledger);
    var caught := st;
    if t.number > st.head.lastFat + 1 {
      caught := Folded(w, channel, t.ledger, st, st.head.lastFat + 1, t.number).value;
      before := FoldReaches(w, channel, before, t.ledger, st, st.head.lastFat + 1, t.number);
    }
    ProcessReaches(w, channel, before, t.ledger, caught, t.number);
    steps' := before + [Process(t.number)];
  }

  /** The ledger only grows from turn to turn. */
  predicate Growing(w: World, ledger: seq<Block>, turns: seq<Turn>) {
    && (forall i | 0 <= i < |turns| :: InLedger(turns[i]) && LedgerOk(w, turns[i].ledger))
    && (forall i | 0 < i < |turns| :: turns[i - 1].ledger <= turns[i].ledger)
    && (turns != [] ==> ledger <= turns[0].ledger)
  }

  lemma {:induction false} TurnsReach(
    w: World, channel: Org, steps: seq<Step>, ledger: seq<Block>, st: Store, turns: seq<Turn>)
    returns (steps': seq<Step>)
    requires At(w, channel, steps, ledger, st) && Growing(w, ledger, turns)
    requires turns != [] ==> InOrder(st, turns[0].number)
    requires Increasing(Numbers(turns)) && AfterTurns(w, channel, st, turns).Some?
    ensures At(
              w, channel, steps', if turns == [] then ledger else turns[|turns| - 1].ledger,
              AfterTurns(w, channel, st, turns).value)
    ensures turns != [] ==> AfterTurns(w, channel, st, turns).value.head.lastFat == turns[|turns| - 1].number
    decreases |turns|
  {
    hide At, LedgerOk, AfterTurn, InLedger;
    if turns == [] {
      steps' := steps;
    } else {
      var k := |turns| - 1;
      assert Numbers(turns)[..k] == Numbers(turns[..k]);
      var before := TurnsReach(w, channel, steps, ledger, st, turns[..k]);
      var st' := AfterTurns(w, channel, st, turns[..k]).value;
      assert k > 0 ==> Numbers(turns)[k - 1] < Numbers(turns)[k];
      steps' := TurnReaches(w, channel, before, if k == 0 then ledger else turns[k - 1].ledger, st', turns[k]);
    }
  }

  /** Over increasing numbers the whole loop is a run, its start included, so everything proved of runs holds of it. */
  lemma LoopReaches(w: World, channel: Org, steps: seq<Step>, ledger: seq<Block>, st: Store, turns: seq<Turn>)
    returns (steps': seq<Step>)
    requires At(w, channel, steps, ledger, st) && Growing(w, ledger, turns)
    requires var ns := Incoming(st, |ledger|, turns); Increasing(ns) && (ns != [] ==> InOrder(st, ns[0]))
    requires AfterLoop(w, channel, st, |ledger|, turns).Some?
    ensures At(
              w, channel, steps', if turns == [] then ledger else turns[|turns| - 1].ledger,
              AfterLoop(w, channel, st, |ledger|, turns).value)
    ensures turns != [] ==>
              AfterLoop(w, channel, st, |ledger|, turns).value.head.lastFat == LoopLast(st, |ledger|, turns)
  {
    hide At, LedgerOk, AfterTurns, InLedger, Processed, Growing;
    if Starts(st, |ledger|) && turns != [] {
      steps' := StartReaches(w, channel, steps, ledger, st, turns);
    } else {
      steps' := TurnsReach(w, channel, steps, ledger, st, turns);
    }
  }

  lemma LaterNumbers(n: nat, ns: seq<nat>)
    requires Increasing([n] + ns)
    ensures Increasing(ns) && (ns != [] ==> n < ns[0])
  {
    var all := [n] + ns;
    assert forall k | 0 <= k < |ns| :: all[k + 1] == ns[k];
    if ns != [] { assert all[0] < all[1]; }
    forall k, l | 0 <= k < l < |ns| ensures ns[k] < ns[l] { assert all[k + 1] < all[l + 1]; }
  }

  /** The start on a fat chain that is already there: its newest block first, then the later turns. */
  lemma StartReaches(w: World, channel: Org, steps: seq<Step>, ledger: seq<Block>, st: Store, turns: seq<Turn>)
    returns (steps': seq<Step>)
    requires At(w, channel, steps, ledger, st) && Growing(w, ledger, turns)
    requires Starts(st, |ledger|) && turns != [] && Increasing([|ledger| - 1] + Numbers(turns[1..]))
    requires AfterLoop(w, channel, st, |ledger|, turns).Some?
    ensures At(w, channel, steps', turns[|turns| - 1].ledger, AfterLoop(w, channel, st, |ledger|, turns).value)
    ensures AfterLoop(w, channel, st, |ledger|, turns).value.head.lastFat == LoopLast(st, |ledger|, turns)
  {
    hide At, LedgerOk, AfterTurns, InLedger, Processed;
    var n, first := |ledger| - 1, turns[0].ledger;
    LaterNumbers(n, Numbers(turns[1..]));
    var before := AppendingReaches(w, channel, steps, ledger, st, first);
    ProcessReaches(w, channel, before, first, st, n);
    var st' := Processed(w, channel, first, st, first[n]).value;
    assert Growing(w, first, turns[1..]);
    steps' := TurnsReach(w, channel, before + [Process(n)], first, st', turns[1..]);
    if |turns| == 1 {
      assert AfterTurns(w, channel, st', turns[1..]) == Some(st') by { NoTurns(w, channel, st', 0); }
    }
  }
}
