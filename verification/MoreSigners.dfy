/**
 What a further signer does to a verdict: where it can never hurt, where it can, and exactly which
 policies may stand before others without harm.
 */
module MoreSigners {
  import opened Common
  import opened SignaturePolicies
  import opened SignedIdentities

  // ------------------------------------------- an identity that is used is not there

  function Without<T>(s: seq<T>, p: nat): (r: seq<T>)
    requires p < |s|
    ensures |r| == |s| - 1
    ensures forall i | 0 <= i < |r| :: r[i] == if i < p then s[i] else s[i + 1]
  {
    s[..p] + s[p + 1..]
  }

  function Inserted<T>(s: seq<T>, p: nat, x: T): (r: seq<T>)
    requires p <= |s|
    ensures |r| == |s| + 1
    ensures forall i | 0 <= i < |r| :: r[i] == if i < p then s[i] else if i == p then x else s[i - 1]
  {
    s[..p] + [x] + s[p..]
  }

  /** Evaluation with an identity flagged as used, and without that identity. */
  predicate SameWithout(r: Outcome, r': Outcome, p: nat)
    requires p < |r.used|
  {
    r.ok == r'.ok && r.used[p] && r'.used == Without(r.used, p)
  }

  lemma LeafUsedIsAbsent(msp: Msp, q: Principal, ids: seq<Identity>, used: seq<bool>, p: nat)
    requires |used| == |ids| && p < |ids| && used[p]
    ensures SameWithout(
              Evaluate(msp, Leaf(q), ids, used), Evaluate(msp, Leaf(q), Without(ids, p), Without(used, p)), p)
  {
    var ids', used' := Without(ids, p), Without(used, p);
    var i, i' := FirstEligible(msp, q, ids, used, 0), FirstEligible(msp, q, ids', used', 0);
    forall k | 0 <= k < |ids'|
      ensures Eligible(msp, q, ids', used', k) <==> Eligible(msp, q, ids, used, if k < p then k else k + 1)
    {
    }
    if i.Some? {
      var k := if i.value < p then i.value else i.value - 1;
      assert Eligible(msp, q, ids', used', k);
      assert i'.Some? && i'.value == k;
      assert Without(used[i.value := true], p) == used'[k := true];
    }
  }

  /** Flagging an identity as used from the start is leaving it out. */
  lemma {:induction false} UsedIsAbsent(msp: Msp, c: Compiled, ids: seq<Identity>, used: seq<bool>, p: nat)
    requires |used| == |ids| && p < |ids| && used[p]
    ensures SameWithout(Evaluate(msp, c, ids, used), Evaluate(msp, c, Without(ids, p), Without(used, p)), p)
    decreases c, 1
  {
    hide Without;
    match c
    case Leaf(q) => LeafUsedIsAbsent(msp, q, ids, used, p);
    case Gate(_, rules) => RulesUsedIsAbsent(msp, rules, ids, used, p);
  }

  lemma {:induction false} RulesUsedIsAbsent(
    msp: Msp, rules: seq<Compiled>, ids: seq<Identity>, used: seq<bool>, p: nat)
    requires |used| == |ids| && p < |ids| && used[p]
    ensures var t := EvaluateRules(msp, rules, ids, used);
            var t' := EvaluateRules(msp, rules, Without(ids, p), Without(used, p));
            t.verified == t'.verified && t.used[p] && t'.used == Without(t.used, p)
    decreases rules, 0
  {
    hide Without;
    if rules != [] {
      UsedIsAbsent(msp, rules[0], ids, used, p);
      var first := Evaluate(msp, rules[0], ids, used);
      RulesUsedIsAbsent(msp, rules[1..], ids, if first.ok then first.used else used, p);
    }
  }

  // ----------------------------------------------------------- shapes that never suffer

  /** Gates ask for at most one, so a rule that fails has set no flag. */
  predicate Steady(c: Compiled) {
    match c
    case Leaf(_) => true
    case Gate(n, rules) => n <= 1 && forall i | 0 <= i < |rules| :: Steady(rules[i])
  }

  /** A rule that holds goes on to hold and takes no more than before. */
  predicate Firm(c: Compiled) {
    match c
    case Leaf(_) => true
    case Gate(n, rules) =>
      || (forall i | 0 <= i < |rules| :: Steady(rules[i]))
      || (n >= |rules| && forall i | 0 <= i < |rules| :: Firm(rules[i]))
  }

  /**
   A gate that asks for at most one, or whose rules before the last are steady, or that asks for
   all of its rules and whose rules before the last are firm.
   */
  predicate Orderly(c: Compiled) {
    match c
    case Leaf(_) => true
    case Gate(n, rules) =>
      || (n <= 1 && forall i | 0 <= i < |rules| :: Orderly(rules[i]))
      || rules == []
      || (Orderly(rules[|rules| - 1])
          && ((forall i | 0 <= i < |rules| - 1 :: Steady(rules[i]))
              || (n >= |rules| && forall i | 0 <= i < |rules| - 1 :: Firm(rules[i]))))
  }

  /** No flag is set that was not set before. */
  predicate Fewer(used': seq<bool>, used: seq<bool>) {
    |used'| == |used| && forall i | 0 <= i < |used| :: used'[i] ==> used[i]
  }

  /** The flags a rule leaves to the rules after it. */
  function Left(msp: Msp, c: Compiled, ids: seq<Identity>, used: seq<bool>): (r: seq<bool>)
    requires |used| == |ids|
    ensures |r| == |used|
  {
    var r := Evaluate(msp, c, ids, used);
    if r.ok then r.used else used
  }

  lemma LeafFreed(msp: Msp, q: Principal, ids: seq<Identity>, used: seq<bool>, used': seq<bool>)
    requires |used| == |ids| && Fewer(used', used)
    ensures var r, r' := Evaluate(msp, Leaf(q), ids, used), Evaluate(msp, Leaf(q), ids, used');
            (r.ok ==> r'.ok) && Fewer(r'.used, r.used)
  {
    var i, i' := FirstEligible(msp, q, ids, used, 0), FirstEligible(msp, q, ids, used', 0);
    if i.Some? {
      assert Eligible(msp, q, ids, used', i.value);
      if i'.value != i.value {
        assert !Eligible(msp, q, ids, used, i'.value);
      }
    } else if i'.Some? {
      assert !Eligible(msp, q, ids, used, i'.value);
    }
  }

  lemma {:induction false} NoneVerified(msp: Msp, rules: seq<Compiled>, ids: seq<Identity>, used: seq<bool>)
    requires |used| == |ids|
    ensures EvaluateRules(msp, rules, ids, used).verified <= |rules|
    ensures EvaluateRules(msp, rules, ids, used).verified == 0 ==> EvaluateRules(msp, rules, ids, used).used == used
  {
    if rules != [] {
      NoneVerified(msp, rules[1..], ids, Left(msp, rules[0], ids, used));
    }
  }

  lemma {:induction false} SteadyFreed(msp: Msp, c: Compiled, ids: seq<Identity>, used: seq<bool>, used': seq<bool>)
    requires Steady(c) && |used| == |ids| && Fewer(used', used)
    ensures Evaluate(msp, c, ids, used).ok ==> Evaluate(msp, c, ids, used').ok
    ensures Fewer(Left(msp, c, ids, used'), Left(msp, c, ids, used))
    decreases c, 1
  {
    match c
    case Leaf(q) => LeafFreed(msp, q, ids, used, used');
    case Gate(n, rules) =>
      SteadyRulesFreed(msp, rules, ids, used, used');
      NoneVerified(msp, rules, ids, used);
      NoneVerified(msp, rules, ids, used');
  }

  /** Over steady rules, freeing identities never lowers the count and never uses up more. */
  lemma {:induction false} SteadyRulesFreed(
    msp: Msp, rules: seq<Compiled>, ids: seq<Identity>, used: seq<bool>, used': seq<bool>)
    requires (forall i | 0 <= i < |rules| :: Steady(rules[i])) && |used| == |ids| && Fewer(used', used)
    ensures var t, t' := EvaluateRules(msp, rules, ids, used), EvaluateRules(msp, rules, ids, used');
            t.verified <= t'.verified && Fewer(t'.used, t.used)
    decreases rules, 0
  {
    hide Evaluate, Fewer, Steady;
    if rules != [] {
      SteadyFreed(msp, rules[0], ids, used, used');
      SteadyRulesFreed(msp, rules[1..], ids, Left(msp, rules[0], ids, used), Left(msp, rules[0], ids, used'));
    }
  }

  lemma {:induction false} FirmFreed(msp: Msp, c: Compiled, ids: seq<Identity>, used: seq<bool>, used': seq<bool>)
    requires Firm(c) && |used| == |ids| && Fewer(used', used) && Evaluate(msp, c, ids, used).ok
    ensures Evaluate(msp, c, ids, used').ok
    ensures Fewer(Evaluate(msp, c, ids, used').used, Evaluate(msp, c, ids, used).used)
    decreases c, 1
  {
    match c
    case Leaf(q) => LeafFreed(msp, q, ids, used, used');
    case Gate(n, rules) =>
      NoneVerified(msp, rules, ids, used);
      if forall i | 0 <= i < |rules| :: Steady(rules[i]) {
        SteadyRulesFreed(msp, rules, ids, used, used');
      } else {
        FirmRulesFreed(msp, rules, ids, used, used');
      }
  }

  lemma {:induction false} FirmRulesFreed(
    msp: Msp, rules: seq<Compiled>, ids: seq<Identity>, used: seq<bool>, used': seq<bool>)
    requires (forall i | 0 <= i < |rules| :: Firm(rules[i])) && |used| == |ids| && Fewer(used', used)
    requires EvaluateRules(msp, rules, ids, used).verified == |rules|
    ensures var t, t' := EvaluateRules(msp, rules, ids, used), EvaluateRules(msp, rules, ids, used');
            t'.verified == |rules| && Fewer(t'.used, t.used)
    decreases rules, 0
  {
    hide Fewer, Firm;
    if rules != [] {
      NoneVerified(msp, rules[1..], ids, Left(msp, rules[0], ids, used));
      FirmFreed(msp, rules[0], ids, used, used');
      FirmRulesFreed(msp, rules[1..], ids, Left(msp, rules[0], ids, used), Left(msp, rules[0], ids, used'));
    }
  }

  /** Freeing identities never makes an orderly policy reject. */
  lemma {:induction false} OrderlyFreed(msp: Msp, c: Compiled, ids: seq<Identity>, used: seq<bool>, used': seq<bool>)
    requires Orderly(c) && |used| == |ids| && Fewer(used', used) && Evaluate(msp, c, ids, used).ok
    ensures Evaluate(msp, c, ids, used').ok
    decreases c, 1
  {
    match c
    case Leaf(q) => LeafFreed(msp, q, ids, used, used');
    case Gate(n, rules) =>
      NoneVerified(msp, rules, ids, used);
      if n <= 1 && forall i | 0 <= i < |rules| :: Orderly(rules[i]) {
        if n == 1 { SomeRuleFreed(msp, rules, ids, used, used'); }
      } else if rules != [] {
        if forall i | 0 <= i < |rules| - 1 :: Steady(rules[i]) {
          LastRuleFreed(msp, rules, ids, used, used');
        } else {
          AllRulesFreed(msp, rules, ids, used, used');
        }
      }
  }

  lemma {:induction false} SomeRuleFreed(
    msp: Msp, rules: seq<Compiled>, ids: seq<Identity>, used: seq<bool>, used': seq<bool>)
    requires (forall i | 0 <= i < |rules| :: Orderly(rules[i])) && |used| == |ids| && Fewer(used', used)
    requires EvaluateRules(msp, rules, ids, used).verified >= 1
    ensures EvaluateRules(msp, rules, ids, used').verified >= 1
    decreases rules, 0
  {
    hide Orderly;
    if Evaluate(msp, rules[0], ids, used).ok {
      OrderlyFreed(msp, rules[0], ids, used, used');
    } else if !Evaluate(msp, rules[0], ids, used').ok {
      SomeRuleFreed(msp, rules[1..], ids, used, used');
    }
  }

  lemma {:induction false} LastRuleFreed(
    msp: Msp, rules: seq<Compiled>, ids: seq<Identity>, used: seq<bool>, used': seq<bool>)
    requires rules != [] && Orderly(rules[|rules| - 1]) && forall i | 0 <= i < |rules| - 1 :: Steady(rules[i])
    requires |used| == |ids| && Fewer(used', used)
    ensures EvaluateRules(msp, rules, ids, used).verified <= EvaluateRules(msp, rules, ids, used').verified
    decreases rules, 0
  {
    hide Fewer, Orderly, Steady;
    if |rules| == 1 {
      assert rules[1..] == [];
      if Evaluate(msp, rules[0], ids, used).ok { OrderlyFreed(msp, rules[0], ids, used, used'); }
    } else {
      SteadyFreed(msp, rules[0], ids, used, used');
      LastRuleFreed(msp, rules[1..], ids, Left(msp, rules[0], ids, used), Left(msp, rules[0], ids, used'));
    }
  }

  lemma {:induction false} AllRulesFreed(
    msp: Msp, rules: seq<Compiled>, ids: seq<Identity>, used: seq<bool>, used': seq<bool>)
    requires rules != [] && Orderly(rules[|rules| - 1]) && forall i | 0 <= i < |rules| - 1 :: Firm(rules[i])
    requires |used| == |ids| && Fewer(used', used)
    requires EvaluateRules(msp, rules, ids, used).verified == |rules|
    ensures EvaluateRules(msp, rules, ids, used').verified == |rules|
    decreases rules, 0
  {
    hide Fewer, Orderly, Firm;
    NoneVerified(msp, rules[1..], ids, Left(msp, rules[0], ids, used));
    if |rules| == 1 {
      assert rules[1..] == [];
      OrderlyFreed(msp, rules[0], ids, used, used');
    } else {
      FirmFreed(msp, rules[0], ids, used, used');
      AllRulesFreed(msp, rules[1..], ids, Left(msp, rules[0], ids, used), Left(msp, rules[0], ids, used'));
    }
  }

  // ------------------------------------------------------------- where a signer never hurts

  /** The policy rejects once a signer is added that it accepted without. */
  predicate Hurts(msp: Msp, c: Compiled, ids: seq<Identity>, p: nat, x: Identity) {
    && p <= |ids|
    && AcceptsIdentities(msp, Some(c), ids) && !AcceptsIdentities(msp, Some(c), Inserted(ids, p, x))
  }

  /** An orderly policy never suffers from a further signer, whoever it is and wherever it comes in the list. */
  lemma SignerNeverHurts(msp: Msp, c: Compiled, ids: seq<Identity>, p: nat, x: Identity)
    requires Orderly(c)
    ensures !Hurts(msp, c, ids, p, x)
  {
    hide Evaluate, Orderly;
    if p <= |ids| && AcceptsIdentities(msp, Some(c), ids) {
      var all := Inserted(ids, p, x);
      var flagged := Unused(|all|)[p := true];
      UsedIsAbsent(msp, c, all, flagged, p);
      assert Without(all, p) == ids && Without(flagged, p) == Unused(|ids|);
      OrderlyFreed(msp, c, all, flagged, Unused(|all|));
    }
  }

  lemma {:induction false} PlainMore(msp: Msp, c: Compiled, ids: seq<Identity>, p: nat, x: Identity)
    requires p <= |ids| && Plain(msp, c, ids)
    ensures Plain(msp, c, Inserted(ids, p, x))
    decreases c, 1
  {
    match c
    case Leaf(q) =>
      var i :| 0 <= i < |ids| && msp.satisfies(ids[i], q);
      assert Inserted(ids, p, x)[if i < p then i else i + 1] == ids[i];
    case Gate(_, rules) => PlainCountMore(msp, rules, ids, p, x);
  }

  lemma {:induction false} PlainCountMore(msp: Msp, rules: seq<Compiled>, ids: seq<Identity>, p: nat, x: Identity)
    requires p <= |ids|
    ensures PlainCount(msp, rules, ids) <= PlainCount(msp, rules, Inserted(ids, p, x))
    decreases rules, 0
  {
    hide Inserted;
    if rules != [] {
      if Plain(msp, rules[0], ids) { PlainMore(msp, rules[0], ids, p, x); }
      PlainCountMore(msp, rules[1..], ids, p, x);
    }
  }

  /** Nor does any policy, if with the new signer no identity satisfies two of its leaves. */
  lemma SignerNeverHurtsOneLeaf(msp: Msp, c: Compiled, ids: seq<Identity>, p: nat, x: Identity)
    requires p <= |ids| && OneLeafEach(msp, Principals(c), Inserted(ids, p, x))
    ensures !Hurts(msp, c, ids, p, x)
  {
    hide Evaluate, Principals, OneLeafEach, Plain;
    if AcceptsIdentities(msp, Some(c), ids) {
      GreedyIsSound(msp, c, ids, Unused(|ids|));
      PlainMore(msp, c, ids, p, x);
      AcceptanceIsPlain(msp, c, Inserted(ids, p, x));
    }
  }

  /** A further signature adds its signer to the end of the list if it is the first verified one with its key. */
  lemma IdentitiesOfMore(msp: Msp, signed: seq<SignedData>, sd: SignedData)
    ensures ValidIdentities(msp, signed + [sd])
         == ValidIdentities(msp, signed)
            + if IsKept(msp, signed + [sd], |signed|) then [IdentityOf(msp, sd)] else []
  {
    hide IsKept;
    var all := signed + [sd];
    KeptInMore(msp, signed, sd, |signed|);
    var p, q := Positions(msp, signed), Positions(msp, all);
    assert q == p + if IsKept(msp, all, |signed|) then [|signed|] else [];
    forall k | 0 <= k < |p| ensures ValidIdentities(msp, all)[k] == ValidIdentities(msp, signed)[k] {
      assert all[q[k]] == signed[p[k]];
    }
  }

  lemma {:induction false} KeptInMore(msp: Msp, signed: seq<SignedData>, sd: SignedData, n: nat)
    requires n <= |signed|
    ensures KeptPositions(msp, signed + [sd], n) == KeptPositions(msp, signed, n)
  {
    if n > 0 {
      KeptInMore(msp, signed, sd, n - 1);
      assert IsKept(msp, signed + [sd], n - 1) <==> IsKept(msp, signed, n - 1) by {
        assert forall j | 0 <= j < n :: (signed + [sd])[j] == signed[j];
      }
    }
  }

  /** A set of signatures accepted by an orderly policy stays accepted when a signature is added. */
  lemma SignatureNeverHurts(msp: Msp, c: Compiled, signed: seq<SignedData>, sd: SignedData)
    requires AcceptsSignedData(msp, Some(c), signed)
    requires Orderly(c) || OneLeafEach(msp, Principals(c), ValidIdentities(msp, signed + [sd]))
    ensures AcceptsSignedData(msp, Some(c), signed + [sd])
  {
    hide ValidIdentities, Orderly, OneLeafEach, Evaluate;
    var ids := ValidIdentities(msp, signed);
    IdentitiesOfMore(msp, signed, sd);
    if IsKept(msp, signed + [sd], |signed|) {
      var x := IdentityOf(msp, sd);
      assert ids + [x] == Inserted(ids, |ids|, x);
      if Orderly(c) {
        SignerNeverHurts(msp, c, ids, |ids|, x);
      } else {
        SignerNeverHurtsOneLeaf(msp, c, ids, |ids|, x);
      }
    } else {
      assert ids + [] == ids;
    }
  }

  // ---------------------------------------------------------------- where a signer can hurt

  /** Every gate can be passed, and not by nobody. */
  predicate Proper(c: Compiled) {
    match c
    case Leaf(_) => true
    case Gate(n, rules) => 1 <= n <= |rules| && forall i | 0 <= i < |rules| :: Proper(rules[i])
  }

  /** Identity `o + j` is the only one to satisfy principal `j`. */
  predicate Matched(msp: Msp, ps: seq<Principal>, ids: seq<Identity>, o: nat) {
    && o + |ps| <= |ids|
    && forall k, j | 0 <= k < |ids| && 0 <= j < |ps| :: msp.satisfies(ids[k], ps[j]) <==> k == o + j
  }

  lemma MatchedParts(msp: Msp, ps: seq<Principal>, qs: seq<Principal>, ids: seq<Identity>, o: nat)
    requires Matched(msp, ps + qs, ids, o)
    ensures Matched(msp, ps, ids, o) && Matched(msp, qs, ids, o + |ps|)
  {
    var all := ps + qs;
    forall k, j | 0 <= k < |ids| && 0 <= j < |ps| ensures msp.satisfies(ids[k], ps[j]) <==> k == o + j {
      assert all[j] == ps[j];
    }
    forall k, j | 0 <= k < |ids| && 0 <= j < |qs| ensures msp.satisfies(ids[k], qs[j]) <==> k == o + |ps| + j {
      assert all[|ps| + j] == qs[j];
    }
  }

  /** All flags from `from` up to `end` are set, or none. */
  predicate AllAre(used: seq<bool>, from: nat, end: nat, value: bool) {
    end <= |used| && forall k | from <= k < end :: used[k] == value
  }

  predicate SameOutside(used: seq<bool>, used': seq<bool>, from: nat, end: nat) {
    && |used| == |used'|
    && (forall k | 0 <= k < |used| && !(from <= k < end) :: used[k] == used'[k])
    && forall k | 0 <= k < |used| && used[k] :: used'[k]
  }

  /** A policy only sets flags, and only of its own identities. */
  lemma {:induction false} StaysInside(msp: Msp, c: Compiled, ids: seq<Identity>, used: seq<bool>, o: nat)
    requires |used| == |ids| && Matched(msp, Principals(c), ids, o)
    ensures SameOutside(used, Evaluate(msp, c, ids, used).used, o, o + |Principals(c)|)
    decreases c, 1
  {
    match c
    case Leaf(q) =>
      var i := FirstEligible(msp, q, ids, used, 0);
      if i.Some? { assert msp.satisfies(ids[i.value], Principals(c)[0]); }
    case Gate(_, rules) => RulesStayInside(msp, rules, ids, used, o);
  }

  lemma {:induction false} RulesStayInside(msp: Msp, rules: seq<Compiled>, ids: seq<Identity>, used: seq<bool>, o: nat)
    requires |used| == |ids| && Matched(msp, PrincipalsOf(rules), ids, o)
    ensures SameOutside(used, EvaluateRules(msp, rules, ids, used).used, o, o + |PrincipalsOf(rules)|)
    decreases rules, 0
  {
    hide Matched;
    if rules != [] {
      var ps, qs := Principals(rules[0]), PrincipalsOf(rules[1..]);
      MatchedParts(msp, ps, qs, ids, o);
      StaysInside(msp, rules[0], ids, used, o);
      RulesStayInside(msp, rules[1..], ids, Left(msp, rules[0], ids, used), o + |ps|);
    }
  }

  /** With all of its identities free a proper policy holds and takes them all. */
  lemma {:induction false} HoldsWhenFree(msp: Msp, c: Compiled, ids: seq<Identity>, used: seq<bool>, o: nat)
    requires Proper(c) && |used| == |ids| && Matched(msp, Principals(c), ids, o)
    requires AllAre(used, o, o + |Principals(c)|, false)
    ensures Evaluate(msp, c, ids, used).ok
    ensures AllAre(Evaluate(msp, c, ids, used).used, o, o + |Principals(c)|, true) && |Principals(c)| >= 1
    decreases c, 1
  {
    match c
    case Leaf(q) =>
      assert Principals(c)[0] == q;
      assert Eligible(msp, q, ids, used, o);
      var i := FirstEligible(msp, q, ids, used, 0);
      assert msp.satisfies(ids[i.value], Principals(c)[0]);
    case Gate(_, rules) =>
      RulesHoldWhenFree(msp, rules, ids, used, o);
  }

  lemma {:induction false} RulesHoldWhenFree(
    msp: Msp, rules: seq<Compiled>, ids: seq<Identity>, used: seq<bool>, o: nat)
    requires (forall i | 0 <= i < |rules| :: Proper(rules[i])) && |used| == |ids|
    requires Matched(msp, PrincipalsOf(rules), ids, o) && AllAre(used, o, o + |PrincipalsOf(rules)|, false)
    ensures EvaluateRules(msp, rules, ids, used).verified == |rules|
    ensures AllAre(EvaluateRules(msp, rules, ids, used).used, o, o + |PrincipalsOf(rules)|, true)
    ensures |PrincipalsOf(rules)| >= |rules|
    decreases rules, 0
  {
    hide Matched, Proper;
    if rules != [] {
      var ps, qs := Principals(rules[0]), PrincipalsOf(rules[1..]);
      MatchedParts(msp, ps, qs, ids, o);
      HoldsWhenFree(msp, rules[0], ids, used, o);
      StaysInside(msp, rules[0], ids, used, o);
      var next := Left(msp, rules[0], ids, used);
      RulesHoldWhenFree(msp, rules[1..], ids, next, o + |ps|);
      RulesStayInside(msp, rules[1..], ids, next, o + |ps|);
    }
  }

  /** With none of its identities free it fails and changes nothing. */
  lemma {:induction false} FailsWhenUsed(msp: Msp, c: Compiled, ids: seq<Identity>, used: seq<bool>, o: nat)
    requires Proper(c) && |used| == |ids| && Matched(msp, Principals(c), ids, o)
    requires AllAre(used, o, o + |Principals(c)|, true)
    ensures Evaluate(msp, c, ids, used) == Outcome(false, used)
    decreases c, 1
  {
    match c
    case Leaf(q) =>
      assert Principals(c)[0] == q;
      forall j | 0 <= j < |ids| ensures !Eligible(msp, q, ids, used, j) {
        assert msp.satisfies(ids[j], Principals(c)[0]) <==> j == o + 0;
      }
    case Gate(_, rules) => RulesFailWhenUsed(msp, rules, ids, used, o);
  }

  lemma {:induction false} RulesFailWhenUsed(
    msp: Msp, rules: seq<Compiled>, ids: seq<Identity>, used: seq<bool>, o: nat)
    requires (forall i | 0 <= i < |rules| :: Proper(rules[i])) && |used| == |ids|
    requires Matched(msp, PrincipalsOf(rules), ids, o) && AllAre(used, o, o + |PrincipalsOf(rules)|, true)
    ensures EvaluateRules(msp, rules, ids, used) == Tally(0, used)
    decreases rules, 0
  {
    hide Matched, Proper;
    if rules != [] {
      var ps, qs := Principals(rules[0]), PrincipalsOf(rules[1..]);
      MatchedParts(msp, ps, qs, ids, o);
      FailsWhenUsed(msp, rules[0], ids, used, o);
      RulesFailWhenUsed(msp, rules[1..], ids, used, o + |ps|);
    }
  }

  lemma {:induction false} ProperHasPrincipals(c: Compiled)
    requires Proper(c)
    ensures |Principals(c)| >= 1
  {
    if c.Gate? {
      ProperHasPrincipals(c.rules[0]);
    }
  }

  lemma {:induction false} RulesConcat(
    msp: Msp, rules: seq<Compiled>, more: seq<Compiled>, ids: seq<Identity>, used: seq<bool>)
    requires |used| == |ids|
    ensures var t := EvaluateRules(msp, rules, ids, used);
            var t' := EvaluateRules(msp, more, ids, t.used);
            EvaluateRules(msp, rules + more, ids, used) == Tally(t.verified + t'.verified, t'.used)
    decreases |rules|
  {
    hide Evaluate, EvaluateRules, Left;
    if rules == [] {
      assert rules + more == more;
      NoRules(msp, ids, used);
    } else {
      assert (rules + more)[0] == rules[0] && (rules + more)[1..] == rules[1..] + more;
      FirstRule(msp, rules, ids, used);
      FirstRule(msp, rules + more, ids, used);
      RulesConcat(msp, rules[1..], more, ids, Left(msp, rules[0], ids, used));
    }
  }

  lemma NoRules(msp: Msp, ids: seq<Identity>, used: seq<bool>)
    requires |used| == |ids|
    ensures EvaluateRules(msp, [], ids, used) == Tally(0, used)
  {
  }

  lemma FirstRule(msp: Msp, rules: seq<Compiled>, ids: seq<Identity>, used: seq<bool>)
    requires rules != [] && |used| == |ids|
    ensures var rest := EvaluateRules(msp, rules[1..], ids, Left(msp, rules[0], ids, used));
            EvaluateRules(msp, rules, ids, used)
            == Tally((if Evaluate(msp, rules[0], ids, used).ok then 1 else 0) + rest.verified, rest.used)
  {
    hide Evaluate;
  }

  lemma {:induction false} PrincipalsConcat(rules: seq<Compiled>, more: seq<Compiled>)
    ensures PrincipalsOf(rules + more) == PrincipalsOf(rules) + PrincipalsOf(more)
    decreases |rules|
  {
    hide Principals;
    if rules == [] {
      assert rules + more == more;
    } else {
      assert (rules + more)[0] == rules[0] && (rules + more)[1..] == rules[1..] + more;
      PrincipalsConcat(rules[1..], more);
    }
  }

  /** One rule among others that are all free before it and all used after it, or all used throughout. */
  lemma RuleAmongOthers(
    msp: Msp, before: seq<Compiled>, r: Compiled, after: seq<Compiled>, ids: seq<Identity>, used: seq<bool>,
    o: nat, free: bool)
    requires forall i | 0 <= i < |before| :: Proper(before[i])
    requires forall i | 0 <= i < |after| :: Proper(after[i])
    requires |used| == |ids| && Matched(msp, PrincipalsOf(before + [r] + after), ids, o)
    requires var a := o + |PrincipalsOf(before)|;
             var b := a + |Principals(r)|;
             AllAre(used, o, a, !free) && AllAre(used, b, b + |PrincipalsOf(after)|, true)
    ensures var a := o + |PrincipalsOf(before)|;
            var first := EvaluateRules(msp, before, ids, used);
            && Matched(msp, Principals(r), ids, a)
            && (free ==> first.verified == |before| && AllAre(first.used, o, a, true))
            && (!free ==> first == Tally(0, used))
            && SameOutside(used, first.used, o, a)
            && EvaluateRules(msp, before + [r] + after, ids, used)
               == Tally(
                    first.verified + (if Evaluate(msp, r, ids, first.used).ok then 1 else 0),
                    Left(msp, r, ids, first.used))
  {
    hide Proper, Matched, Evaluate, EvaluateRules, AllAre, PrincipalsOf, Principals, SameOutside, Left;
    var qs, rs := Principals(r), PrincipalsOf(after);
    var a := o + |PrincipalsOf(before)|;
    var first := EvaluateRules(msp, before, ids, used);
    var then_ := Left(msp, r, ids, first.used);
    ThreeParts(msp, before, r, after, ids, used, o);
    RulesStayInside(msp, before, ids, used, o);
    if free {
      RulesHoldWhenFree(msp, before, ids, used, o);
    } else {
      RulesFailWhenUsed(msp, before, ids, used, o);
    }
    assert AllAre(then_, a + |qs|, a + |qs| + |rs|, true) by {
      LeftInside(msp, r, ids, first.used, a);
      AllAreKept(used, first.used, o, a, a + |qs|, a + |qs| + |rs|);
      AllAreKept(first.used, then_, a, a + |qs|, a + |qs|, a + |qs| + |rs|);
    }
    RulesFailWhenUsed(msp, after, ids, then_, a + |qs|);
  }

  lemma LeftInside(msp: Msp, c: Compiled, ids: seq<Identity>, used: seq<bool>, o: nat)
    requires |used| == |ids| && Matched(msp, Principals(c), ids, o)
    ensures SameOutside(used, Left(msp, c, ids, used), o, o + |Principals(c)|)
  {
    hide Evaluate, Matched;
    StaysInside(msp, c, ids, used, o);
  }

  lemma ThreeParts(
    msp: Msp, before: seq<Compiled>, r: Compiled, after: seq<Compiled>, ids: seq<Identity>, used: seq<bool>, o: nat)
    requires |used| == |ids| && Matched(msp, PrincipalsOf(before + [r] + after), ids, o)
    ensures var a := o + |PrincipalsOf(before)|;
            && Matched(msp, PrincipalsOf(before), ids, o) && Matched(msp, Principals(r), ids, a)
            && Matched(msp, PrincipalsOf(after), ids, a + |Principals(r)|)
    ensures var first := EvaluateRules(msp, before, ids, used);
            var then_ := Left(msp, r, ids, first.used);
            var last := EvaluateRules(msp, after, ids, then_);
            EvaluateRules(msp, before + [r] + after, ids, used)
            == Tally(
                 first.verified + (if Evaluate(msp, r, ids, first.used).ok then 1 else 0) + last.verified, last.used)
  {
    hide Matched, Evaluate, EvaluateRules, PrincipalsOf, Principals, Left;
    RulesConcat(msp, before + [r], after, ids, used);
    RulesConcat(msp, before, [r], ids, used);
    PrincipalsConcat(before + [r], after);
    PrincipalsConcat(before, [r]);
    OneRule(msp, r, ids, EvaluateRules(msp, before, ids, used).used);
    OnePrincipals(r);
    MatchedParts(msp, PrincipalsOf(before) + Principals(r), PrincipalsOf(after), ids, o);
    MatchedParts(msp, PrincipalsOf(before), Principals(r), ids, o);
  }

  lemma OnePrincipals(r: Compiled)
    ensures PrincipalsOf([r]) == Principals(r)
  {
    assert [r][1..] == [];
  }

  lemma AllAreKept(used: seq<bool>, used': seq<bool>, from: nat, end: nat, lo: nat, hi: nat)
    requires SameOutside(used, used', from, end) && AllAre(used, lo, hi, true)
    ensures AllAre(used', lo, hi, true)
  {
  }

  lemma OneRule(msp: Msp, y: Compiled, ids: seq<Identity>, used: seq<bool>)
    requires |used| == |ids|
    ensures EvaluateRules(msp, [y], ids, used)
         == Tally(if Evaluate(msp, y, ids, used).ok then 1 else 0, Left(msp, y, ids, used))
  {
    assert [y][1..] == [];
  }

  /** A first free flag and a set flag of a policy that takes the first only once the second is free. */
  predicate TakesAnother(msp: Msp, c: Compiled, ids: seq<Identity>, used: seq<bool>, x: nat, i: nat) {
    && |used| == |ids| && x < |ids| && i < |ids| && x != i && used[x] && !used[i]
    && !Left(msp, c, ids, used)[i] && Left(msp, c, ids, used[x := false])[i]
  }

  /** The flags of `base`, but none set from `o` to `a` and none from `a + t` to `b`. */
  function Partly(base: seq<bool>, o: nat, a: nat, b: nat, t: nat): (r: seq<bool>)
    requires o <= a <= b <= |base|
    ensures |r| == |base|
  {
    seq(|base|, k requires 0 <= k < |base| => if o <= k < a || (a <= k < b && k >= a + t) then false else base[k])
  }

  /** Somewhere on the way from accepting to rejecting, one identity makes the difference. */
  lemma {:induction false} Critical(
    msp: Msp, c: Compiled, ids: seq<Identity>, base: seq<bool>, o: nat, a: nat, b: nat, t: nat) returns (u: nat)
    requires |base| == |ids| && o <= a <= b <= |base| && t <= b - a
    requires Evaluate(msp, c, ids, Partly(base, o, a, b, 0)).ok
    requires !Evaluate(msp, c, ids, Partly(base, o, a, b, t)).ok
    ensures u < t
    ensures Evaluate(msp, c, ids, Partly(base, o, a, b, u)).ok
    ensures !Evaluate(msp, c, ids, Partly(base, o, a, b, u + 1)).ok
    decreases t
  {
    hide Evaluate, Partly;
    if t > 0 && Evaluate(msp, c, ids, Partly(base, o, a, b, t - 1)).ok {
      u := t - 1;
    } else if t > 0 {
      u := Critical(msp, c, ids, base, o, a, b, t - 1);
    }
  }

  /** The flags of `used` are those of `base` except between `o` and `e`, where `x` and `i` lie. */
  predicate Within(used: seq<bool>, base: seq<bool>, o: nat, e: nat, x: nat, i: nat) {
    && |used| == |base| && o <= x < e && o <= i < e
    && forall k | 0 <= k < |base| && !(o <= k < e) :: used[k] == base[k]
  }

  lemma PartlyIs(base: seq<bool>, o: nat, a: nat, b: nat, e: nat, t: nat)
    requires o <= a <= b <= e <= |base| && AllAre(base, o, e, true) && t <= b - a
    ensures var u := Partly(base, o, a, b, t);
            && AllAre(u, o, a, false) && AllAre(u, b, e, true)
            && (t == 0 ==> AllAre(u, a, b, false)) && (t == b - a ==> AllAre(u, a, b, true))
            && (forall k | 0 <= k < |base| && !(o <= k < e) :: u[k] == base[k])
            && (t < b - a ==>
                  Partly(base, o, a, b, t + 1)[a + t] && u == Partly(base, o, a, b, t + 1)[a + t := false])
  {
  }

  lemma AllAreSame(used: seq<bool>, used': seq<bool>, from: nat, end: nat, lo: nat, hi: nat, value: bool)
    requires SameOutside(used, used', from, end) && AllAre(used, lo, hi, value) && (hi <= from || end <= lo)
    ensures AllAre(used', lo, hi, value)
  {
  }

  /** The verdict of a gate that just needs its rule `n - 1`. */
  lemma GateVerdict(
    msp: Msp, n: nat, rules: seq<Compiled>, ids: seq<Identity>, base: seq<bool>, o: nat, a: nat, b: nat, e: nat, t: nat)
    requires 2 <= n <= |rules| && forall k | 0 <= k < |rules| :: Proper(rules[k])
    requires |base| == |ids| && Matched(msp, PrincipalsOf(rules), ids, o)
    requires a == o + |PrincipalsOf(rules[..n - 1])| && b == a + |Principals(rules[n - 1])|
    requires e == b + |PrincipalsOf(rules[n..])| <= |ids| && AllAre(base, o, e, true) && t <= b - a
    ensures var r := Evaluate(msp, Gate(n, rules), ids, Partly(base, o, a, b, t));
            && (t == 0 ==> r.ok) && (t == b - a ==> !r.ok) && AllAre(r.used, o, a, true)
  {
    hide Proper, Matched, Evaluate, EvaluateRules, AllAre, PrincipalsOf, Principals, SameOutside, Left, Partly;
    var before, r, after := rules[..n - 1], rules[n - 1], rules[n..];
    var u := Partly(base, o, a, b, t);
    assert rules == before + [r] + after;
    PartlyIs(base, o, a, b, e, t);
    RuleAmongOthers(msp, before, r, after, ids, u, o, true);
    var first := EvaluateRules(msp, before, ids, u);
    GateOutcome(msp, n, rules, ids, u);
    if t == 0 {
      AllAreSame(u, first.used, o, a, a, b, false);
      HoldsWhenFree(msp, r, ids, first.used, a);
    }
    if t == b - a {
      AllAreSame(u, first.used, o, a, a, b, true);
      FailsWhenUsed(msp, r, ids, first.used, a);
    }
    LeftInside(msp, r, ids, first.used, a);
    AllAreSame(first.used, Left(msp, r, ids, first.used), a, b, o, a, true);
  }

  lemma GateOutcome(msp: Msp, n: int, rules: seq<Compiled>, ids: seq<Identity>, used: seq<bool>)
    requires |used| == |ids|
    ensures Evaluate(msp, Gate(n, rules), ids, used)
         == Outcome(EvaluateRules(msp, rules, ids, used).verified >= n, EvaluateRules(msp, rules, ids, used).used)
  {
  }

  lemma PrincipalsSplit(rules: seq<Compiled>, j: nat)
    requires j < |rules|
    ensures |PrincipalsOf(rules)|
         == |PrincipalsOf(rules[..j])| + |Principals(rules[j])| + |PrincipalsOf(rules[j + 1..])|
    ensures rules == rules[..j] + [rules[j]] + rules[j + 1..]
  {
    hide Principals, PrincipalsOf;
    assert rules == rules[..j] + [rules[j]] + rules[j + 1..];
    PrincipalsConcat(rules[..j] + [rules[j]], rules[j + 1..]);
    PrincipalsConcat(rules[..j], [rules[j]]);
    OnePrincipals(rules[j]);
  }

  /**
   A gate that asks for two or more gives back what it took when it fails, and keeps it when one
   more lets it pass.
   */
  lemma GateTakesAnother(msp: Msp, n: nat, rules: seq<Compiled>, ids: seq<Identity>, base: seq<bool>, o: nat)
    returns (used: seq<bool>, x: nat, i: nat)
    requires 2 <= n <= |rules| && forall k | 0 <= k < |rules| :: Proper(rules[k])
    requires |base| == |ids| && Matched(msp, PrincipalsOf(rules), ids, o)
    requires AllAre(base, o, o + |PrincipalsOf(rules)|, true)
    ensures TakesAnother(msp, Gate(n, rules), ids, used, x, i)
    ensures Within(used, base, o, o + |PrincipalsOf(rules)|, x, i)
  {
    hide Proper, Matched, Evaluate, EvaluateRules, PrincipalsOf, Principals, Partly;
    PrincipalsSplit(rules, n - 1);
    var a, e := o + |PrincipalsOf(rules[..n - 1])|, o + |PrincipalsOf(rules)|;
    var b := a + |Principals(rules[n - 1])|;
    var c := Gate(n, rules);
    assert a > o by { FirstHasPrincipals(rules[..n - 1]); }
    GateVerdict(msp, n, rules, ids, base, o, a, b, e, 0);
    GateVerdict(msp, n, rules, ids, base, o, a, b, e, b - a);
    var u := Critical(msp, c, ids, base, o, a, b, b - a);
    GateVerdict(msp, n, rules, ids, base, o, a, b, e, u);
    PartlyIs(base, o, a, b, e, u);
    PartlyIs(base, o, a, b, e, u + 1);
    used, x, i := Partly(base, o, a, b, u + 1), a + u, o;
  }

  lemma FirstHasPrincipals(rules: seq<Compiled>)
    requires rules != [] && forall k | 0 <= k < |rules| :: Proper(rules[k])
    ensures |PrincipalsOf(rules)| >= 1
  {
    ProperHasPrincipals(rules[0]);
  }

  lemma NotSteadyRule(c: Compiled) returns (j: nat)
    requires c.Gate? && c.n <= 1 && !Steady(c)
    ensures j < |c.rules| && !Steady(c.rules[j])
  {
    j :| 0 <= j < |c.rules| && !Steady(c.rules[j]);
  }

  /** A proper policy that is not steady can take another identity once one more is free. */
  lemma {:induction false} NotSteadyTakesAnother(msp: Msp, c: Compiled, ids: seq<Identity>, base: seq<bool>, o: nat)
    returns (used: seq<bool>, x: nat, i: nat)
    requires Proper(c) && !Steady(c)
    requires |base| == |ids| && Matched(msp, Principals(c), ids, o) && AllAre(base, o, o + |Principals(c)|, true)
    ensures TakesAnother(msp, c, ids, used, x, i)
    ensures Within(used, base, o, o + |Principals(c)|, x, i)
    decreases c
  {
    hide Matched, Evaluate, EvaluateRules, PrincipalsOf;
    if c.n >= 2 {
      used, x, i := GateTakesAnother(msp, c.n, c.rules, ids, base, o);
    } else {
      var j := NotSteadyRule(c);
      var before, r, after := c.rules[..j], c.rules[j], c.rules[j + 1..];
      PrincipalsSplit(c.rules, j);
      var a := o + |PrincipalsOf(before)|;
      ThreeParts(msp, before, r, after, ids, base, o);
      used, x, i := NotSteadyTakesAnother(msp, r, ids, base, a);
      OnlyThatRule(msp, c, j, ids, used, o);
      OnlyThatRule(msp, c, j, ids, used[x := false], o);
    }
  }

  /** A gate that asks for one leaves what its only rule with a free identity leaves. */
  lemma OnlyThatRule(msp: Msp, c: Compiled, j: nat, ids: seq<Identity>, used: seq<bool>, o: nat)
    requires c.Gate? && Proper(c) && c.n == 1 && j < |c.rules|
    requires |used| == |ids| && Matched(msp, Principals(c), ids, o)
    requires var a := o + |PrincipalsOf(c.rules[..j])|;
             var b := a + |Principals(c.rules[j])|;
             AllAre(used, o, a, true) && AllAre(used, b, b + |PrincipalsOf(c.rules[j + 1..])|, true)
    ensures Left(msp, c, ids, used) == Left(msp, c.rules[j], ids, used)
  {
    hide Matched, EvaluateRules, PrincipalsOf, Principals, AllAre, SameOutside;
    assert Principals(c) == PrincipalsOf(c.rules) by { GatePrincipals(c); }
    PrincipalsSplit(c.rules, j);
    RuleAmongOthers(msp, c.rules[..j], c.rules[j], c.rules[j + 1..], ids, used, o, false);
  }

  lemma GatePrincipals(c: Compiled)
    requires c.Gate?
    ensures Principals(c) == PrincipalsOf(c.rules)
  {
  }

  // ---------------------------------------------------------- the identities that are there

  function Present(ids: seq<Identity>, used: seq<bool>): seq<Identity>
    requires |used| == |ids|
  {
    if ids == [] then []
    else
      var k := |ids| - 1;
      Present(ids[..k], used[..k]) + if used[k] then [] else [ids[k]]
  }

  lemma {:induction false} PresentWithout(ids: seq<Identity>, used: seq<bool>, p: nat)
    requires |used| == |ids| && p < |ids| && used[p]
    ensures Present(Without(ids, p), Without(used, p)) == Present(ids, used)
    decreases |ids|
  {
    var k := |ids| - 1;
    if p == k {
      assert Without(ids, p) == ids[..k] && Without(used, p) == used[..k];
    } else {
      PresentWithout(ids[..k], used[..k], p);
      assert Without(ids, p)[..k - 1] == Without(ids[..k], p);
      assert Without(used, p)[..k - 1] == Without(used[..k], p);
    }
  }

  lemma {:induction false} PresentAll(ids: seq<Identity>)
    ensures Present(ids, Unused(|ids|)) == ids
  {
    if ids != [] {
      var k := |ids| - 1;
      PresentAll(ids[..k]);
      assert Unused(|ids|)[..k] == Unused(k);
      assert ids == ids[..k] + [ids[k]];
    }
  }

  /** The verdict is the one over the identities that are not flagged. */
  lemma {:induction false} PresentVerdict(msp: Msp, c: Compiled, ids: seq<Identity>, used: seq<bool>)
    requires |used| == |ids|
    ensures Evaluate(msp, c, ids, used).ok <==> AcceptsIdentities(msp, Some(c), Present(ids, used))
    decreases |ids|
  {
    hide Evaluate, Present, Without;
    if p :| 0 <= p < |ids| && used[p] {
      UsedIsAbsent(msp, c, ids, used, p);
      PresentWithout(ids, used, p);
      PresentVerdict(msp, c, Without(ids, p), Without(used, p));
    } else {
      assert used == Unused(|ids|);
      PresentAll(ids);
    }
  }

  /** Freeing an identity inserts it into the list. */
  lemma {:induction false} PresentFreed(ids: seq<Identity>, used: seq<bool>, x: nat) returns (p: nat)
    requires |used| == |ids| && x < |ids| && used[x]
    ensures p <= |Present(ids, used)|
    ensures Present(ids, used[x := false]) == Inserted(Present(ids, used), p, ids[x])
    decreases |ids|
  {
    var k := |ids| - 1;
    if x == k {
      assert used[x := false][..k] == used[..k];
      p := |Present(ids, used)|;
    } else {
      p := PresentFreed(ids[..k], used[..k], x);
      assert used[x := false][..k] == used[..k][x := false];
    }
  }

  // ------------------------------------------------------- what may stand before others

  predicate SameFor(msp: Msp, msp': Msp, ps: seq<Principal>, ids: seq<Identity>) {
    forall k, j | 0 <= k < |ids| && 0 <= j < |ps| :: msp.satisfies(ids[k], ps[j]) == msp'.satisfies(ids[k], ps[j])
  }

  /** A policy only looks at its own principals. */
  lemma {:induction false} SameForSame(msp: Msp, msp': Msp, c: Compiled, ids: seq<Identity>, used: seq<bool>)
    requires |used| == |ids| && SameFor(msp, msp', Principals(c), ids)
    ensures Evaluate(msp, c, ids, used) == Evaluate(msp', c, ids, used)
    decreases c, 1
  {
    match c
    case Leaf(q) =>
      assert Principals(c)[0] == q;
      forall k | 0 <= k < |ids| ensures Eligible(msp, q, ids, used, k) == Eligible(msp', q, ids, used, k) {
        assert msp.satisfies(ids[k], Principals(c)[0]) == msp'.satisfies(ids[k], Principals(c)[0]);
      }
      var i, i' := FirstEligible(msp, q, ids, used, 0), FirstEligible(msp', q, ids, used, 0);
      assert i == i';
    case Gate(_, rules) => SameForSameRules(msp, msp', rules, ids, used);
  }

  lemma {:induction false} SameForSameRules(
    msp: Msp, msp': Msp, rules: seq<Compiled>, ids: seq<Identity>, used: seq<bool>)
    requires |used| == |ids| && SameFor(msp, msp', PrincipalsOf(rules), ids)
    ensures EvaluateRules(msp, rules, ids, used) == EvaluateRules(msp', rules, ids, used)
    decreases rules, 0
  {
    if rules != [] {
      var ps, qs := Principals(rules[0]), PrincipalsOf(rules[1..]);
      assert SameFor(msp, msp', ps, ids) by { assert forall j | 0 <= j < |ps| :: (ps + qs)[j] == ps[j]; }
      assert SameFor(msp, msp', qs, ids) by { assert forall j | 0 <= j < |qs| :: (ps + qs)[|ps| + j] == qs[j]; }
      SameForSame(msp, msp', rules[0], ids, used);
      SameForSameRules(msp, msp', rules[1..], ids, Left(msp, rules[0], ids, used));
    }
  }

  /** The policy where others come after it: two of (one of it and `d`) and `b`. */
  function Before(c: Compiled, d: Principal, b: Principal): Compiled {
    Gate(2, [Gate(1, [c, Leaf(d)]), Leaf(b)])
  }

  lemma TwoRules(msp: Msp, x: Compiled, y: Compiled, ids: seq<Identity>, used: seq<bool>)
    requires |used| == |ids|
    ensures var next := Left(msp, x, ids, used);
            EvaluateRules(msp, [x, y], ids, used)
            == Tally(
                 (if Evaluate(msp, x, ids, used).ok then 1 else 0) + (if Evaluate(msp, y, ids, next).ok then 1 else 0),
                 Left(msp, y, ids, next))
  {
    assert [x, y][1..] == [y];
    OneRule(msp, y, ids, Left(msp, x, ids, used));
  }

  lemma LeafOfOne(msp: Msp, q: Principal, ids: seq<Identity>, used: seq<bool>, i: nat)
    requires |used| == |ids| && i < |ids|
    requires forall k | 0 <= k < |ids| :: msp.satisfies(ids[k], q) <==> k == i
    ensures Evaluate(msp, Leaf(q), ids, used)
         == if used[i] then Outcome(false, used) else Outcome(true, used[i := true])
  {
    var r := FirstEligible(msp, q, ids, used, 0);
    if !used[i] {
      assert Eligible(msp, q, ids, used, i);
    }
  }

  /** Where `d` and `b` have one identity each, the verdict turns on whether the policy leaves the one for `b`. */
  lemma BeforeVerdict(
    msp: Msp, c: Compiled, d: Principal, b: Principal, ids: seq<Identity>, used: seq<bool>, m: nat, i: nat)
    requires |used| == |ids| && i < m < |ids| && !used[m]
    requires Matched(msp, Principals(c), ids, 0) && |Principals(c)| <= m
    requires forall k | 0 <= k < |ids| :: msp.satisfies(ids[k], d) <==> k == m
    requires forall k | 0 <= k < |ids| :: msp.satisfies(ids[k], b) <==> k == i
    ensures Evaluate(msp, Before(c, d, b), ids, used).ok <==> !Left(msp, c, ids, used)[i]
  {
    hide Evaluate, EvaluateRules, Matched, Principals;
    LeftInside(msp, c, ids, used, 0);
    LastVerdict(msp, c, d, b, ids, used, m, i);
  }

  lemma LastVerdict(
    msp: Msp, c: Compiled, d: Principal, b: Principal, ids: seq<Identity>, used: seq<bool>, m: nat, i: nat)
    requires |used| == |ids| && i < |ids| && m < |ids| && i != m && !Left(msp, c, ids, used)[m]
    requires forall k | 0 <= k < |ids| :: msp.satisfies(ids[k], d) <==> k == m
    requires forall k | 0 <= k < |ids| :: msp.satisfies(ids[k], b) <==> k == i
    ensures Evaluate(msp, Before(c, d, b), ids, used).ok <==> !Left(msp, c, ids, used)[i]
  {
    hide Evaluate, EvaluateRules;
    var inner, left := Gate(1, [c, Leaf(d)]), Left(msp, c, ids, used);
    LeafOfOne(msp, d, ids, left, m);
    TwoRules(msp, c, Leaf(d), ids, used);
    GateOutcome(msp, 1, [c, Leaf(d)], ids, used);
    LeafOfOne(msp, b, ids, left[m := true], i);
    TwoRules(msp, inner, Leaf(b), ids, used);
    GateOutcome(msp, 2, [inner, Leaf(b)], ids, used);
  }

  function Numbered(n: nat): (r: seq<Identity>)
    ensures |r| == n && forall k | 0 <= k < n :: |r[k].id| == k
  {
    seq(n, k requires 0 <= k < n => Identity("", seq(k, _ => 'x'), ""))
  }

  /** Identity `k` satisfies principal `k`, the one after them `d`, and identity `i` also `b`. */
  function NumberedMsp(ps: seq<Principal>, d: Principal, b: Principal, i: nat): Msp {
    Msp(
      _ => None,
      (id: Identity, p: Principal) =>
        || (|id.id| < |ps| && p == ps[|id.id|]) || (|id.id| == |ps| && p == d) || (|id.id| == i && p == b),
      (_, _, _) => true)
  }

  lemma NumberedMatches(ps: seq<Principal>, d: Principal, b: Principal, i: nat)
    requires NoRepeats(ps) && d !in ps && b !in ps && d != b && i < |ps|
    ensures var msp, ids := NumberedMsp(ps, d, b, i), Numbered(|ps| + 1);
            && Matched(msp, ps, ids, 0)
            && (forall k | 0 <= k < |ids| :: msp.satisfies(ids[k], d) <==> k == |ps|)
            && (forall k | 0 <= k < |ids| :: msp.satisfies(ids[k], b) <==> k == i)
  {
    hide Numbered;
    var msp, ids := NumberedMsp(ps, d, b, i), Numbered(|ps| + 1);
    forall k, j | 0 <= k < |ids| && 0 <= j < |ps| ensures msp.satisfies(ids[k], ps[j]) <==> k == 0 + j {
      assert ps[j] in ps;
    }
  }

  /** A proper policy with different principals that is not steady hurts the policies it stands before. */
  lemma NotSteadyHurts(c: Compiled, d: Principal, b: Principal)
    returns (msp: Msp, ids: seq<Identity>, p: nat, x: Identity)
    requires Proper(c) && !Steady(c) && NoRepeats(Principals(c))
    requires d !in Principals(c) && b !in Principals(c) && d != b
    ensures Hurts(msp, Before(c, d, b), ids, p, x)
  {
    hide Evaluate, Matched, Numbered, NumberedMsp, Present, Left, Principals, Proper, Steady, Before;
    var ps := Principals(c);
    var m, all := |ps|, Numbered(|ps| + 1);
    assert m >= 1 by { ProperHasPrincipals(c); }
    var base := seq(m + 1, k => k < m);
    NumberedMatches(ps, d, b, 0);
    var used, y, i := NotSteadyTakesAnother(NumberedMsp(ps, d, b, 0), c, all, base, 0);
    msp := NumberedMsp(ps, d, b, i);
    NumberedMatches(ps, d, b, i);
    var freed := used[y := false];
    assert Left(msp, c, all, used) == Left(NumberedMsp(ps, d, b, 0), c, all, used)
        && Left(msp, c, all, freed) == Left(NumberedMsp(ps, d, b, 0), c, all, freed) by {
      BothMatch(msp, NumberedMsp(ps, d, b, 0), c, all, used);
      BothMatch(msp, NumberedMsp(ps, d, b, 0), c, all, freed);
    }
    BeforeVerdict(msp, c, d, b, all, used, m, i);
    BeforeVerdict(msp, c, d, b, all, freed, m, i);
    PresentVerdict(msp, Before(c, d, b), all, used);
    PresentVerdict(msp, Before(c, d, b), all, freed);
    p := PresentFreed(all, used, y);
    ids, x := Present(all, used), all[y];
  }

  lemma BothMatch(msp: Msp, msp': Msp, c: Compiled, ids: seq<Identity>, used: seq<bool>)
    requires |used| == |ids| && Matched(msp, Principals(c), ids, 0) && Matched(msp', Principals(c), ids, 0)
    ensures Left(msp, c, ids, used) == Left(msp', c, ids, used)
  {
    SameForSame(msp, msp', c, ids, used);
  }

  ghost predicate NeverHurt(c: Compiled) {
    forall msp: Msp, ids: seq<Identity>, p: nat, x: Identity :: !Hurts(msp, c, ids, p, x)
  }

  /**
   Exactly the steady policies can stand before others without harm: with anything else in that
   place there are signers whose set is accepted until one more signs.
   */
  lemma SteadyExactlyWhen(c: Compiled, d: Principal, b: Principal)
    requires Proper(c) && NoRepeats(Principals(c))
    requires d !in Principals(c) && b !in Principals(c) && d != b
    ensures NeverHurt(Before(c, d, b)) <==> Steady(c)
  {
    hide Hurts, Proper, Principals;
    if Steady(c) {
      assert Orderly(Before(c, d, b)) by { SteadyBefore(c, d, b); }
      forall msp: Msp, ids: seq<Identity>, p: nat, x: Identity ensures !Hurts(msp, Before(c, d, b), ids, p, x) {
        SignerNeverHurts(msp, Before(c, d, b), ids, p, x);
      }
    } else {
      var msp, ids, p, x := NotSteadyHurts(c, d, b);
    }
  }

  lemma SteadyBefore(c: Compiled, d: Principal, b: Principal)
    requires Steady(c)
    ensures Orderly(Before(c, d, b))
  {
    var inner := Gate(1, [c, Leaf(d)]);
    assert Steady(inner);
    assert [inner, Leaf(b)][0] == inner;
  }

  // --------------------------------------------------------------------- an instance

  function Named(name: string): Principal {
    Principal(0, name)
  }

  /** `x` holds A, `y` holds B and C, `z` holds D; every signature verifies. */
  function ThreeSigners(x: Identity, y: Identity, z: Identity): Msp {
    Msp(
      bytes =>
        if bytes == "x" then Some(x) else if bytes == "y" then Some(y) else if bytes == "z" then Some(z) else None,
      (id: Identity, p: Principal) =>
        || (id == x && p == Named("A"))
        || (id == y && (p == Named("B") || p == Named("C")))
        || (id == z && p == Named("D")),
      (_, _, _) => true)
  }

  function SignedBy(name: string): SignedData {
    SignedData("", name, "")
  }

  lemma NamesDiffer()
    ensures Named("A") != Named("B") && Named("A") != Named("C") && Named("A") != Named("D")
    ensures Named("B") != Named("C") && Named("B") != Named("D") && Named("C") != Named("D")
  {
    assert "A"[0] != "B"[0] && "A"[0] != "C"[0] && "A"[0] != "D"[0];
    assert "B"[0] != "C"[0] && "B"[0] != "D"[0] && "C"[0] != "D"[0];
  }

  lemma WhoSigned(x: Identity, y: Identity, z: Identity)
    ensures var msp := ThreeSigners(x, y, z);
            && Verified(msp, SignedBy("x")) && IdentityOf(msp, SignedBy("x")) == x
            && Verified(msp, SignedBy("y")) && IdentityOf(msp, SignedBy("y")) == y
            && Verified(msp, SignedBy("z")) && IdentityOf(msp, SignedBy("z")) == z
  {
    assert "x"[0] != "y"[0] && "x"[0] != "z"[0] && "y"[0] != "z"[0];
  }

  lemma IdentitiesOfSigned(x: Identity, y: Identity, z: Identity)
    requires IdentityKey(x) != IdentityKey(y) && IdentityKey(y) != IdentityKey(z) && IdentityKey(x) != IdentityKey(z)
    ensures var msp := ThreeSigners(x, y, z);
            && ValidIdentities(msp, [SignedBy("y"), SignedBy("z")]) == [y, z]
            && ValidIdentities(msp, [SignedBy("y"), SignedBy("z"), SignedBy("x")]) == [y, z, x]
  {
    hide ThreeSigners, SignedBy, IdentityKey, ValidIdentities, Verified, IdentityOf;
    var msp, b, d, a := ThreeSigners(x, y, z), SignedBy("y"), SignedBy("z"), SignedBy("x");
    WhoSigned(x, y, z);
    assert [] + [b] == [b] && [b] + [d] == [b, d] && [b, d] + [a] == [b, d, a];
    assert ValidIdentities(msp, []) == [] by { NoIdentities(msp); }
    IdentitiesOfMore(msp, [], b);
    IdentitiesOfMore(msp, [b], d);
    IdentitiesOfMore(msp, [b, d], a);
  }

  lemma NoIdentities(msp: Msp)
    ensures ValidIdentities(msp, []) == []
  {
  }

  /** The inner gate over the two signers, and over the three. */
  lemma InnerGate(x: Identity, y: Identity, z: Identity)
    requires x != y && y != z && x != z
    ensures var msp, c := ThreeSigners(x, y, z), Gate(2, [Leaf(Named("A")), Leaf(Named("C"))]);
            && Left(msp, c, [y, z], [false, false]) == [false, false]
            && Left(msp, c, [y, z, x], [false, false, false]) == [true, false, true]
  {
    hide Evaluate, EvaluateRules;
    var msp, p, q := ThreeSigners(x, y, z), Named("A"), Named("C");
    var two, three := [y, z], [y, z, x];
    var none, all := [false, false], [false, false, false];
    NamesDiffer();
    LeafFails(msp, p, two, none);
    assert !Evaluate(msp, Leaf(p), two, none).ok;
    TwoRules(msp, Leaf(p), Leaf(q), two, none);
    GateOutcome(msp, 2, [Leaf(p), Leaf(q)], two, none);
    LeafOfOne(msp, p, three, all, 2);
    assert all[2 := true] == [false, false, true];
    LeafOfOne(msp, q, three, [false, false, true], 0);
    assert [false, false, true][0 := true] == [true, false, true];
    TwoRules(msp, Leaf(p), Leaf(q), three, all);
    GateOutcome(msp, 2, [Leaf(p), Leaf(q)], three, all);
  }

  lemma LeafFails(msp: Msp, p: Principal, ids: seq<Identity>, used: seq<bool>)
    requires |used| == |ids|
    requires forall j | 0 <= j < |ids| :: !Eligible(msp, p, ids, used, j)
    ensures Evaluate(msp, Leaf(p), ids, used) == Outcome(false, used)
  {
  }

  /**
   Whoever the signers are: two of (one of (two of A and C) and D) and B accepts the signatures of
   the holder of B and C and the holder of D, and rejects once the holder of A signs as well.
   */
  lemma AddingASignerCanReject(x: Identity, y: Identity, z: Identity)
    requires IdentityKey(x) != IdentityKey(y) && IdentityKey(y) != IdentityKey(z) && IdentityKey(x) != IdentityKey(z)
    ensures var msp := ThreeSigners(x, y, z);
            var c := Before(Gate(2, [Leaf(Named("A")), Leaf(Named("C"))]), Named("D"), Named("B"));
            && AcceptsSignedData(msp, Some(c), [SignedBy("y"), SignedBy("z")])
            && !AcceptsSignedData(msp, Some(c), [SignedBy("y"), SignedBy("z"), SignedBy("x")])
  {
    hide Evaluate, ValidIdentities, ThreeSigners, Before, SignedBy;
    IdentitiesOfSigned(x, y, z);
    TwoAccepted(x, y, z);
    ThreeRejected(x, y, z);
    assert Unused(2) == [false, false] && Unused(3) == [false, false, false];
  }

  lemma TwoAccepted(x: Identity, y: Identity, z: Identity)
    requires x != y && y != z && x != z
    ensures var c := Before(Gate(2, [Leaf(Named("A")), Leaf(Named("C"))]), Named("D"), Named("B"));
            Evaluate(ThreeSigners(x, y, z), c, [y, z], [false, false]).ok
  {
    hide Evaluate, EvaluateRules, Left;
    var msp, ac := ThreeSigners(x, y, z), Gate(2, [Leaf(Named("A")), Leaf(Named("C"))]);
    InnerGate(x, y, z);
    NamesDiffer();
    LastVerdict(msp, ac, Named("D"), Named("B"), [y, z], [false, false], 1, 0);
  }

  lemma ThreeRejected(x: Identity, y: Identity, z: Identity)
    requires x != y && y != z && x != z
    ensures var c := Before(Gate(2, [Leaf(Named("A")), Leaf(Named("C"))]), Named("D"), Named("B"));
            !Evaluate(ThreeSigners(x, y, z), c, [y, z, x], [false, false, false]).ok
  {
    hide Evaluate, EvaluateRules, Left;
    var msp, ac := ThreeSigners(x, y, z), Gate(2, [Leaf(Named("A")), Leaf(Named("C"))]);
    InnerGate(x, y, z);
    NamesDiffer();
    LastVerdict(msp, ac, Named("D"), Named("B"), [y, z, x], [false, false, false], 1, 0);
  }
}
