/**
 Compiling signature policies and evaluating them greedily over a shared array that records
 which identities have been used.
 */
module SignaturePolicies {
  import opened Common

  /** `classification` is an open enumeration: values other than 0 to 4 have no name. */
  datatype Principal = Principal(classification: int, principal: Bytes)

  datatype Identity = Identity(mspid: string, id: string, certificate: Bytes)

  /** The membership service: what it deserializes, whose principals hold, which signatures verify. */
  datatype Msp = Msp(
    deserialize: Bytes -> Option<Identity>,
    satisfies: (Identity, Principal) -> bool,
    verify: (Identity, Bytes, Bytes) -> bool)

  datatype SignaturePolicy =
    | NilPolicy
    | UnknownPolicy
    | NOutOf(n: int, rules: seq<SignaturePolicy>)
    | SignedBy(index: int)

  /** What the compiled closures capture. */
  datatype Compiled = Gate(n: int, rules: seq<Compiled>) | Leaf(principal: Principal)

  // ------------------------------------------------------------------- compilation

  function Compile(policy: SignaturePolicy, identities: seq<Principal>): Result<Compiled>
    decreases policy, 1
  {
    match policy
    case NilPolicy => Err
    case UnknownPolicy => Err
    case NOutOf(n, rules) =>
      var compiled := CompileRules(rules, identities);
      if compiled.Err? then Err else Ok(Gate(n, compiled.value))
    case SignedBy(i) =>
      if 0 <= i < |identities| then Ok(Leaf(identities[i])) else Err
  }

  function CompileRules(rules: seq<SignaturePolicy>, identities: seq<Principal>): (r: Result<seq<Compiled>>)
    ensures r.Ok? ==> |r.value| == |rules|
    decreases rules, 0
  {
    if rules == [] then Ok([])
    else
      var first := Compile(rules[0], identities);
      var rest := CompileRules(rules[1..], identities);
      if first.Err? || rest.Err? then Err else Ok([first.value] + rest.value)
  }

  lemma {:induction false} CompileRulesAt(rules: seq<SignaturePolicy>, identities: seq<Principal>)
    ensures CompileRules(rules, identities).Ok? <==> forall i | 0 <= i < |rules| :: Compile(rules[i], identities).Ok?
    ensures CompileRules(rules, identities).Ok? ==>
              forall i | 0 <= i < |rules| ::
                Compile(rules[i], identities) == Ok(CompileRules(rules, identities).value[i])
  {
    if rules != [] {
      CompileRulesAt(rules[1..], identities);
      assert forall i | 1 <= i < |rules| :: rules[i] == rules[1..][i - 1];
    }
  }

  /** Compilation builds the rules of a gate in a loop and stops at the first that fails. */
  method CompilePolicy(policy: SignaturePolicy, identities: seq<Principal>) returns (r: Result<Compiled>)
    ensures r == Compile(policy, identities)
    decreases policy
  {
    match policy {
      case NilPolicy => return Err;
      case UnknownPolicy => return Err;
      case NOutOf(n, rules) =>
        CompileRulesAt(rules, identities);
        var policies := [];
        for i := 0 to |rules|
          invariant |policies| == i
          invariant forall j | 0 <= j < i :: Compile(rules[j], identities) == Ok(policies[j])
        {
          var compiled := CompilePolicy(rules[i], identities);
          if compiled.Err? {
            return Err;
          }
          policies := policies + [compiled.value];
        }
        assert CompileRules(rules, identities).value == policies;
        return Ok(Gate(n, policies));
      case SignedBy(i) =>
        if i < 0 || i >= |identities| {
          return Err;
        }
        return Ok(Leaf(identities[i]));
    }
  }

  // -------------------------------------------------------------------- evaluation

  predicate Eligible(msp: Msp, p: Principal, ids: seq<Identity>, used: seq<bool>, i: int)
    requires |used| == |ids|
  {
    0 <= i < |ids| && !used[i] && msp.satisfies(ids[i], p)
  }

  /** The first identity at or after `i` that is unused and satisfies the principal. */
  function FirstEligible(msp: Msp, p: Principal, ids: seq<Identity>, used: seq<bool>, i: nat): (r: Option<nat>)
    requires |used| == |ids| && i <= |ids|
    ensures r.Some? ==> Eligible(msp, p, ids, used, r.value) && i <= r.value
                        && forall j | i <= j < r.value :: !Eligible(msp, p, ids, used, j)
    ensures r.None? ==> forall j | i <= j < |ids| :: !Eligible(msp, p, ids, used, j)
    decreases |ids| - i
  {
    if i == |ids| then None
    else if !used[i] && msp.satisfies(ids[i], p) then Some(i)
    else FirstEligible(msp, p, ids, used, i + 1)
  }

  datatype Outcome = Outcome(ok: bool, used: seq<bool>)

  datatype Tally = Tally(verified: nat, used: seq<bool>)

  /** The verdict of a compiled policy and the flags it leaves behind. */
  function Evaluate(msp: Msp, c: Compiled, ids: seq<Identity>, used: seq<bool>): (r: Outcome)
    requires |used| == |ids|
    ensures |r.used| == |used|
    decreases c, 1
  {
    match c
    case Leaf(p) =>
      var i := FirstEligible(msp, p, ids, used, 0);
      if i.None? then Outcome(false, used) else Outcome(true, used[i.value := true])
    case Gate(n, rules) =>
      var t := EvaluateRules(msp, rules, ids, used);
      Outcome(t.verified >= n, t.used)
  }

  /** Rules are tried in order; only one that succeeds keeps the flags it set. */
  function EvaluateRules(msp: Msp, rules: seq<Compiled>, ids: seq<Identity>, used: seq<bool>): (r: Tally)
    requires |used| == |ids|
    ensures |r.used| == |used|
    decreases rules, 0
  {
    if rules == [] then Tally(0, used)
    else
      var first := Evaluate(msp, rules[0], ids, used);
      var rest := EvaluateRules(msp, rules[1..], ids, if first.ok then first.used else used);
      Tally(rest.verified + if first.ok then 1 else 0, rest.used)
  }

  method Copy(from: array<bool>, to: array<bool>)
    requires from.Length == to.Length
    modifies to
    ensures to[..] == old(from[..])
    ensures from != to ==> from[..] == old(from[..])
  {
    forall k | 0 <= k < from.Length {
      to[k] := from[k];
    }
  }

  /** The evaluator closures, running in place on the array of flags. */
  method EvaluateInPlace(msp: Msp, c: Compiled, ids: seq<Identity>, used: array<bool>) returns (ok: bool)
    requires used.Length == |ids|
    modifies used
    ensures Outcome(ok, used[..]) == Evaluate(msp, c, ids, old(used[..]))
    decreases c
  {
    match c {
      case Leaf(p) =>
        ok := EvaluateLeaf(msp, p, ids, used);
      case Gate(n, rules) =>
        var verified := 0;
        var scratch := new bool[used.Length];
        ghost var start := used[..];
        for i := 0 to |rules|
          invariant fresh(scratch) && scratch.Length == used.Length
          invariant var rest := EvaluateRules(msp, rules[i..], ids, used[..]);
                    EvaluateRules(msp, rules, ids, start) == Tally(verified + rest.verified, rest.used)
        {
          assert rules[i..][0] == rules[i] && rules[i..][1..] == rules[i + 1..];
          Copy(used, scratch);
          var done := EvaluateInPlace(msp, rules[i], ids, scratch);
          if done {
            verified := verified + 1;
            Copy(scratch, used);
          }
        }
        ok := verified >= n;
    }
  }

  method EvaluateLeaf(msp: Msp, p: Principal, ids: seq<Identity>, used: array<bool>) returns (ok: bool)
    requires used.Length == |ids|
    modifies used
    ensures Outcome(ok, used[..]) == Evaluate(msp, Leaf(p), ids, old(used[..]))
  {
    for i := 0 to |ids|
      invariant used[..] == old(used[..])
      invariant FirstEligible(msp, p, ids, used[..], 0) == FirstEligible(msp, p, ids, used[..], i)
    {
      if used[i] {
        continue;
      }
      if !msp.satisfies(ids[i], p) {
        continue;
      }
      used[i] := true;
      return true;
    }
    return false;
  }

  // ------------------------------------------------------------ accepting witnesses

  /** A satisfying part of a policy tree: which rules hold and by which identity each leaf holds. */
  datatype Witness = NotHeld | ByIdentity(i: nat) | ByRules(subs: seq<Witness>)

  /** The identities at the leaves, from left to right. */
  function Signers(w: Witness): seq<nat>
    decreases w, 1
  {
    match w
    case NotHeld => []
    case ByIdentity(i) => [i]
    case ByRules(subs) => SignersOf(subs)
  }

  function SignersOf(subs: seq<Witness>): seq<nat>
    decreases subs, 0
  {
    if subs == [] then []
    else Signers(subs[0]) + SignersOf(subs[1..])
  }

  function Held(subs: seq<Witness>): nat {
    if subs == [] then 0 else (if subs[0].NotHeld? then 0 else 1) + Held(subs[1..])
  }

  /** `w` satisfies `c` over the identities. */
  ghost predicate Supports(msp: Msp, w: Witness, c: Compiled, ids: seq<Identity>)
    decreases c, 1
  {
    match c
    case Leaf(p) => w.ByIdentity? && w.i < |ids| && msp.satisfies(ids[w.i], p)
    case Gate(n, rules) => w.ByRules? && SupportsRules(msp, w.subs, rules, ids) && Held(w.subs) >= n
  }

  ghost predicate SupportsRules(msp: Msp, subs: seq<Witness>, rules: seq<Compiled>, ids: seq<Identity>)
    decreases rules, 0
  {
    && |subs| == |rules|
    && (rules != [] ==>
          && (subs[0].NotHeld? || Supports(msp, subs[0], rules[0], ids))
          && SupportsRules(msp, subs[1..], rules[1..], ids))
  }

  /** Exactly the flags of `signers`, all of them unset before, were set. */
  predicate ExactlySet(before: seq<bool>, after: seq<bool>, signers: seq<nat>) {
    && |before| == |after|
    && (forall s | s in signers :: s < |before| && !before[s])
    && (forall i | 0 <= i < |before| :: after[i] <==> before[i] || i in signers)
  }

  lemma ExactlySetTwice(a: seq<bool>, b: seq<bool>, c: seq<bool>, s: seq<nat>, t: seq<nat>)
    requires ExactlySet(a, b, s) && ExactlySet(b, c, t) && NoRepeats(s) && NoRepeats(t)
    ensures ExactlySet(a, c, s + t) && NoRepeats(s + t)
  {
    forall i, j | 0 <= i < j < |s + t| ensures (s + t)[i] != (s + t)[j] {
      if i < |s| <= j {
        assert s[i] in s && t[j - |s|] in t;
      }
    }
  }

  /** The witness that the greedy evaluation finds. */
  ghost function WitnessOf(msp: Msp, c: Compiled, ids: seq<Identity>, used: seq<bool>): Witness
    requires |used| == |ids| && Evaluate(msp, c, ids, used).ok
    decreases c, 1
  {
    match c
    case Leaf(p) => ByIdentity(FirstEligible(msp, p, ids, used, 0).value)
    case Gate(n, rules) => ByRules(WitnessesOf(msp, rules, ids, used))
  }

  ghost function WitnessesOf(msp: Msp, rules: seq<Compiled>, ids: seq<Identity>, used: seq<bool>): seq<Witness>
    requires |used| == |ids|
    decreases rules, 0
  {
    if rules == [] then []
    else
      var first := Evaluate(msp, rules[0], ids, used);
      if first.ok then [WitnessOf(msp, rules[0], ids, used)] + WitnessesOf(msp, rules[1..], ids, first.used)
      else [NotHeld] + WitnessesOf(msp, rules[1..], ids, used)
  }

  /**
   When a policy accepts, some part of its tree is satisfied by pairwise distinct identities that
   were unused before, and the newly set flags are exactly theirs.
   */
  lemma {:induction false} AcceptanceIsWitnessed(msp: Msp, c: Compiled, ids: seq<Identity>, used: seq<bool>)
    requires |used| == |ids| && Evaluate(msp, c, ids, used).ok
    ensures var w := WitnessOf(msp, c, ids, used);
            && Supports(msp, w, c, ids)
            && NoRepeats(Signers(w))
            && ExactlySet(used, Evaluate(msp, c, ids, used).used, Signers(w))
    decreases c, 1
  {
    match c
    case Leaf(p) =>
    case Gate(n, rules) => RulesAreWitnessed(msp, rules, ids, used);
  }

  lemma {:induction false} RulesAreWitnessed(msp: Msp, rules: seq<Compiled>, ids: seq<Identity>, used: seq<bool>)
    requires |used| == |ids|
    ensures var subs := WitnessesOf(msp, rules, ids, used);
            && SupportsRules(msp, subs, rules, ids)
            && Held(subs) == EvaluateRules(msp, rules, ids, used).verified
            && NoRepeats(SignersOf(subs))
            && ExactlySet(used, EvaluateRules(msp, rules, ids, used).used, SignersOf(subs))
    decreases rules, 0
  {
    if rules != [] {
      var first := Evaluate(msp, rules[0], ids, used);
      var next := if first.ok then first.used else used;
      var subs, rest := WitnessesOf(msp, rules, ids, used), WitnessesOf(msp, rules[1..], ids, next);
      assert subs[1..] == rest;
      RulesAreWitnessed(msp, rules[1..], ids, next);
      if first.ok {
        AcceptanceIsWitnessed(msp, rules[0], ids, used);
        ExactlySetTwice(
          used, next, EvaluateRules(msp, rules, ids, used).used,
          Signers(WitnessOf(msp, rules[0], ids, used)), SignersOf(rest));
      } else {
        assert SignersOf(subs) == [] + SignersOf(rest) == SignersOf(rest);
      }
    }
  }

  // -------------------------------------------------------- the plain Boolean value

  /** The threshold value of the tree when identities may be used any number of times. */
  predicate Plain(msp: Msp, c: Compiled, ids: seq<Identity>)
    decreases c, 1
  {
    match c
    case Leaf(p) => exists i | 0 <= i < |ids| :: msp.satisfies(ids[i], p)
    case Gate(n, rules) => PlainCount(msp, rules, ids) >= n
  }

  function PlainCount(msp: Msp, rules: seq<Compiled>, ids: seq<Identity>): nat
    decreases rules, 0
  {
    if rules == [] then 0
    else (if Plain(msp, rules[0], ids) then 1 else 0) + PlainCount(msp, rules[1..], ids)
  }

  /** The principals at the leaves, one for each occurrence. */
  function Principals(c: Compiled): seq<Principal>
    decreases c, 1
  {
    match c
    case Leaf(p) => [p]
    case Gate(_, rules) => PrincipalsOf(rules)
  }

  function PrincipalsOf(rules: seq<Compiled>): seq<Principal>
    decreases rules, 0
  {
    if rules == [] then [] else Principals(rules[0]) + PrincipalsOf(rules[1..])
  }

  predicate SatisfiesSome(msp: Msp, id: Identity, ps: seq<Principal>) {
    exists p | p in ps :: msp.satisfies(id, p)
  }

  /** No identity satisfies two leaf occurrences. */
  predicate OneLeafEach(msp: Msp, ps: seq<Principal>, ids: seq<Identity>) {
    forall id, i, j | id in ids && 0 <= i < j < |ps| :: !(msp.satisfies(id, ps[i]) && msp.satisfies(id, ps[j]))
  }

  predicate UsedElsewhere(msp: Msp, ps: seq<Principal>, ids: seq<Identity>, used: seq<bool>)
    requires |used| == |ids|
  {
    forall i | 0 <= i < |ids| && used[i] :: !SatisfiesSome(msp, ids[i], ps)
  }

  /** Flags are never cleared, and only identities that satisfy one of the principals are newly set. */
  predicate SetForSome(msp: Msp, ps: seq<Principal>, ids: seq<Identity>, before: seq<bool>, after: seq<bool>)
    requires |before| == |ids| == |after|
  {
    forall i | 0 <= i < |ids| :: (before[i] ==> after[i]) && (after[i] && !before[i] ==> SatisfiesSome(msp, ids[i], ps))
  }

  lemma SatisfiesEither(msp: Msp, id: Identity, ps: seq<Principal>, qs: seq<Principal>)
    ensures SatisfiesSome(msp, id, ps + qs) <==> SatisfiesSome(msp, id, ps) || SatisfiesSome(msp, id, qs)
  {
    if SatisfiesSome(msp, id, ps) {
      var p :| p in ps && msp.satisfies(id, p);
      assert p in ps + qs;
    }
    if SatisfiesSome(msp, id, qs) {
      var p :| p in qs && msp.satisfies(id, p);
      assert p in ps + qs;
    }
  }

  lemma OneLeafEachParts(msp: Msp, ps: seq<Principal>, qs: seq<Principal>, ids: seq<Identity>)
    requires OneLeafEach(msp, ps + qs, ids)
    ensures OneLeafEach(msp, ps, ids) && OneLeafEach(msp, qs, ids)
    ensures forall id | id in ids :: !(SatisfiesSome(msp, id, ps) && SatisfiesSome(msp, id, qs))
  {
    var all := ps + qs;
    forall id, i, j | id in ids && 0 <= i < j < |ps| ensures !(msp.satisfies(id, ps[i]) && msp.satisfies(id, ps[j])) {
      assert all[i] == ps[i] && all[j] == ps[j];
    }
    forall id, i, j | id in ids && 0 <= i < j < |qs| ensures !(msp.satisfies(id, qs[i]) && msp.satisfies(id, qs[j])) {
      assert all[|ps| + i] == qs[i] && all[|ps| + j] == qs[j];
    }
    forall id | id in ids ensures !(SatisfiesSome(msp, id, ps) && SatisfiesSome(msp, id, qs)) {
      forall i, j | 0 <= i < |ps| && 0 <= j < |qs| ensures !(msp.satisfies(id, ps[i]) && msp.satisfies(id, qs[j])) {
        assert all[i] == ps[i] && all[|ps| + j] == qs[j];
      }
    }
  }

  /** Where no identity satisfies two leaf occurrences, greedy evaluation gives the plain value. */
  lemma {:induction false} GreedyIsPlain(msp: Msp, c: Compiled, ids: seq<Identity>, used: seq<bool>)
    requires |used| == |ids|
    requires OneLeafEach(msp, Principals(c), ids) && UsedElsewhere(msp, Principals(c), ids, used)
    ensures Evaluate(msp, c, ids, used).ok == Plain(msp, c, ids)
    ensures SetForSome(msp, Principals(c), ids, used, Evaluate(msp, c, ids, used).used)
    decreases c, 1
  {
    match c
    case Leaf(p) =>
      forall i | 0 <= i < |ids| && msp.satisfies(ids[i], p) ensures Eligible(msp, p, ids, used, i) {
        assert p in [p];
        assert SatisfiesSome(msp, ids[i], [p]);
      }
      assert p in [p];
    case Gate(n, rules) => RulesArePlain(msp, rules, ids, used);
  }

  lemma {:induction false} RulesArePlain(msp: Msp, rules: seq<Compiled>, ids: seq<Identity>, used: seq<bool>)
    requires |used| == |ids|
    requires OneLeafEach(msp, PrincipalsOf(rules), ids) && UsedElsewhere(msp, PrincipalsOf(rules), ids, used)
    ensures EvaluateRules(msp, rules, ids, used).verified == PlainCount(msp, rules, ids)
    ensures SetForSome(msp, PrincipalsOf(rules), ids, used, EvaluateRules(msp, rules, ids, used).used)
    decreases rules, 0
  {
    hide OneLeafEach, SatisfiesSome;
    if rules != [] {
      var ps, qs := Principals(rules[0]), PrincipalsOf(rules[1..]);
      OneLeafEachParts(msp, ps, qs, ids);
      forall i | 0 <= i < |ids|
        ensures SatisfiesSome(msp, ids[i], ps + qs)
           <==> SatisfiesSome(msp, ids[i], ps) || SatisfiesSome(msp, ids[i], qs)
        ensures !(SatisfiesSome(msp, ids[i], ps) && SatisfiesSome(msp, ids[i], qs))
      {
        SatisfiesEither(msp, ids[i], ps, qs);
        assert ids[i] in ids;
      }
      GreedyIsPlain(msp, rules[0], ids, used);
      var first := Evaluate(msp, rules[0], ids, used);
      RulesArePlain(msp, rules[1..], ids, if first.ok then first.used else used);
    }
  }

  /** Evaluation never accepts what the plain value rejects. */
  lemma {:induction false} GreedyIsSound(msp: Msp, c: Compiled, ids: seq<Identity>, used: seq<bool>)
    requires |used| == |ids|
    ensures Evaluate(msp, c, ids, used).ok ==> Plain(msp, c, ids)
    decreases c, 1
  {
    if c.Gate? {
      RulesAreSound(msp, c.rules, ids, used);
    }
  }

  lemma {:induction false} RulesAreSound(msp: Msp, rules: seq<Compiled>, ids: seq<Identity>, used: seq<bool>)
    requires |used| == |ids|
    ensures EvaluateRules(msp, rules, ids, used).verified <= PlainCount(msp, rules, ids)
    decreases rules, 0
  {
    if rules != [] {
      GreedyIsSound(msp, rules[0], ids, used);
      var first := Evaluate(msp, rules[0], ids, used);
      RulesAreSound(msp, rules[1..], ids, if first.ok then first.used else used);
    }
  }

  // ------------------------------------------------- what an uncompiled policy asks for

  /** Every rule is of a known type and every index names a principal. */
  predicate WellIndexed(policy: SignaturePolicy, n: nat) {
    match policy
    case NilPolicy => false
    case UnknownPolicy => false
    case NOutOf(_, rules) => forall j | 0 <= j < |rules| :: WellIndexed(rules[j], n)
    case SignedBy(i) => 0 <= i < n
  }

  lemma {:induction false} CompilesExactlyWhen(policy: SignaturePolicy, principals: seq<Principal>)
    ensures Compile(policy, principals).Ok? <==> WellIndexed(policy, |principals|)
    decreases policy
  {
    if policy.NOutOf? {
      CompileRulesAt(policy.rules, principals);
      forall j | 0 <= j < |policy.rules|
        ensures Compile(policy.rules[j], principals).Ok? <==> WellIndexed(policy.rules[j], |principals|)
      {
        CompilesExactlyWhen(policy.rules[j], principals);
      }
    }
  }

  /** Somebody satisfies the principal that is named, or at least `n` of the rules are met. */
  ghost predicate Met(msp: Msp, policy: SignaturePolicy, principals: seq<Principal>, ids: seq<Identity>) {
    match policy
    case NilPolicy => false
    case UnknownPolicy => false
    case NOutOf(n, rules) => |set j | 0 <= j < |rules| && Met(msp, rules[j], principals, ids)| >= n
    case SignedBy(i) =>
      0 <= i < |principals| && exists k | 0 <= k < |ids| :: msp.satisfies(ids[k], principals[i])
  }

  ghost function HoldingFrom(msp: Msp, rules: seq<Compiled>, ids: seq<Identity>, i: nat): set<int> {
    set j | i <= j < |rules| && Plain(msp, rules[j], ids)
  }

  lemma {:induction false} PlainCountIsSize(msp: Msp, rules: seq<Compiled>, ids: seq<Identity>, i: nat)
    requires i <= |rules|
    ensures PlainCount(msp, rules[i..], ids) == |HoldingFrom(msp, rules, ids, i)|
    decreases |rules| - i
  {
    hide Plain;
    if i < |rules| {
      PlainCountIsSize(msp, rules, ids, i + 1);
      assert rules[i..][0] == rules[i] && rules[i..][1..] == rules[i + 1..];
      var rest := HoldingFrom(msp, rules, ids, i + 1);
      assert HoldingFrom(msp, rules, ids, i) == if Plain(msp, rules[i], ids) then {i} + rest else rest;
    } else {
      assert HoldingFrom(msp, rules, ids, i) == {};
    }
  }

  /** Compiling keeps what a policy asks for. */
  lemma {:induction false} CompiledAsksTheSame(
    msp: Msp, policy: SignaturePolicy, principals: seq<Principal>, ids: seq<Identity>)
    requires Compile(policy, principals).Ok?
    ensures Plain(msp, Compile(policy, principals).value, ids) <==> Met(msp, policy, principals, ids)
    decreases policy
  {
    if policy.NOutOf? {
      CompileRulesAt(policy.rules, principals);
      var rules := CompileRules(policy.rules, principals).value;
      forall j | 0 <= j < |rules| ensures Plain(msp, rules[j], ids) <==> Met(msp, policy.rules[j], principals, ids) {
        CompiledAsksTheSame(msp, policy.rules[j], principals, ids);
      }
      PlainCountIsSize(msp, rules, ids, 0);
      assert rules[0..] == rules;
      var met := set j | 0 <= j < |policy.rules| && Met(msp, policy.rules[j], principals, ids);
      assert HoldingFrom(msp, rules, ids, 0) == met;
    }
  }
}
