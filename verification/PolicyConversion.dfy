/**
 Converting implicit meta policies into one signature policy by merging the sub-policies and
 renumbering the principals they refer to.
 */
module PolicyConversion {
  import opened Common
  import opened SignaturePolicies

  datatype Envelope = Envelope(version: int, rule: SignaturePolicy, identities: seq<Principal>)

  // ---------------------------------------------------------------- principal keys

  predicate HasName(p: Principal) {
    0 <= p.classification <= 4
  }

  function Digit(d: int): char
    requires 0 <= d < 10
  {
    ['0', '1', '2', '3', '4', '5', '6', '7', '8', '9'][d]
  }

  function Decimal(n: int): (r: string)
    ensures r != "" && (r[0] == '-' || '0' <= r[0] <= '9')
    decreases n < 0, if n < 0 then -n else n
  {
    if n < 0 then "-" + Decimal(-n)
    else if n < 10 then [Digit(n)]
    else Decimal(n / 10) + [Digit(n % 10)]
  }

  /** The name of a classification; one without a name prints as a number. */
  function ClassificationName(classification: int): (r: string)
    ensures r != ""
  {
    match classification
    case 0 => "ROLE"
    case 1 => "ORGANIZATION_UNIT"
    case 2 => "IDENTITY"
    case 3 => "ANONYMITY"
    case 4 => "COMBINED"
    case _ => Decimal(classification)
  }

  function PrincipalKey(p: Principal): string {
    ClassificationName(p.classification) + p.principal
  }

  /** Equal, or both of a classification that no membership service knows. */
  predicate SameMeaning(p: Principal, q: Principal) {
    p == q || (!HasName(p) && !HasName(q))
  }

  /** Principals with equal keys mean the same. */
  lemma KeysDetermineMeaning(p: Principal, q: Principal)
    requires PrincipalKey(p) == PrincipalKey(q)
    ensures SameMeaning(p, q)
  {
    var m, n := ClassificationName(p.classification), ClassificationName(q.classification);
    assert PrincipalKey(p)[0] == m[0] && PrincipalKey(q)[0] == n[0];
    if HasName(p) || HasName(q) {
      assert p.classification == q.classification;
      assert PrincipalKey(p)[|m|..] == p.principal && PrincipalKey(q)[|n|..] == q.principal;
    }
  }

  /** Without a name the key is ambiguous. */
  lemma UnnamedKeysCollide()
    ensures PrincipalKey(Principal(7, "1x")) == PrincipalKey(Principal(71, "x"))
  {
    assert Decimal(7) == "7";
    assert Decimal(71) == Decimal(7) + [Digit(1)] == "71";
    assert "7" + "1x" == "71" + "x";
  }

  // ----------------------------------------------------------------------- merging

  /** Where each key occurs in a list of principals; the last occurrence counts. */
  function KeyIndex(ids: seq<Principal>): map<string, nat> {
    if ids == [] then map[]
    else
      var last := |ids| - 1;
      KeyIndex(ids[..last])[PrincipalKey(ids[last]) := last]
  }

  /** The index holds exactly the keys of the list, each with a position where it occurs. */
  lemma {:induction false} KeyIndexPositions(ids: seq<Principal>)
    ensures forall k | k in KeyIndex(ids) :: KeyIndex(ids)[k] < |ids| && PrincipalKey(ids[KeyIndex(ids)[k]]) == k
    ensures forall p | p in ids :: PrincipalKey(p) in KeyIndex(ids)
  {
    hide PrincipalKey;
    if ids != [] {
      var last := |ids| - 1;
      KeyIndexPositions(ids[..last]);
      assert ids == ids[..last] + [ids[last]];
    }
  }

  datatype Absorbed = Absorbed(ids: seq<Principal>, remap: map<int, int>)

  /** The principals of `that` added to `ids` unless their key is there, and where each one went. */
  function Absorb(ids: seq<Principal>, that: seq<Principal>): Absorbed
    decreases |that|
  {
    if that == [] then Absorbed(ids, map[])
    else
      var last := |that| - 1;
      AbsorbOne(Absorb(ids, that[..last]), last, that[last])
  }

  function AbsorbOne(before: Absorbed, i: nat, p: Principal): Absorbed {
    var key, index := PrincipalKey(p), KeyIndex(before.ids);
    if key in index then before.(remap := before.remap[i := index[key]])
    else Absorbed(before.ids + [p], before.remap[i := |before.ids|])
  }

  /** Principal `i` of `that` went to a position that holds its key. */
  predicate Placed(r: Absorbed, that: seq<Principal>, i: int)
    requires 0 <= i < |that|
  {
    i in r.remap && 0 <= r.remap[i] < |r.ids| && PrincipalKey(r.ids[r.remap[i]]) == PrincipalKey(that[i])
  }

  lemma AbsorbOnePlaces(before: Absorbed, that: seq<Principal>)
    requires that != []
    requires forall i | 0 <= i < |that| - 1 :: Placed(before, that, i)
    ensures var r := AbsorbOne(before, |that| - 1, that[|that| - 1]);
            before.ids <= r.ids && forall i | 0 <= i < |that| :: Placed(r, that, i)
  {
    hide PrincipalKey, KeyIndex;
    KeyIndexPositions(before.ids);
    var r := AbsorbOne(before, |that| - 1, that[|that| - 1]);
    forall i | 0 <= i < |that| ensures Placed(r, that, i) {
      if i < |that| - 1 {
        assert Placed(before, that, i);
      }
    }
  }

  /** Absorbing only appends, and places every principal of `that`. */
  lemma {:induction false} AbsorbPlaces(ids: seq<Principal>, that: seq<Principal>)
    ensures ids <= Absorb(ids, that).ids
    ensures forall i | 0 <= i < |that| :: Placed(Absorb(ids, that), that, i)
    decreases |that|
  {
    hide PrincipalKey, AbsorbOne;
    if that != [] {
      var last := |that| - 1;
      var before := Absorb(ids, that[..last]);
      AbsorbPlaces(ids, that[..last]);
      forall i | 0 <= i < last ensures Placed(before, that, i) {
        assert Placed(before, that[..last], i);
      }
      AbsorbOnePlaces(before, that);
    }
  }

  /** Err stands for the panics on an index without an entry and on an unknown policy type. */
  function Remap(sp: SignaturePolicy, remap: map<int, int>): Result<SignaturePolicy>
    decreases sp, 1
  {
    match sp
    case NilPolicy => Err
    case UnknownPolicy => Err
    case NOutOf(n, rules) =>
      var rs := RemapRules(rules, remap);
      if rs.Err? then Err else Ok(NOutOf(n, rs.value))
    case SignedBy(i) => if i in remap then Ok(SignedBy(remap[i])) else Err
  }

  function RemapRules(rules: seq<SignaturePolicy>, remap: map<int, int>): (r: Result<seq<SignaturePolicy>>)
    ensures r.Ok? ==> |r.value| == |rules|
    decreases rules, 0
  {
    if rules == [] then Ok([])
    else
      var first, rest := Remap(rules[0], remap), RemapRules(rules[1..], remap);
      if first.Err? || rest.Err? then Err else Ok([first.value] + rest.value)
  }

  /** What a gate under construction holds. */
  datatype Merged = Merged(rules: seq<SignaturePolicy>, identities: seq<Principal>)

  function Merge(this_: Merged, that: Envelope): Result<Merged> {
    var absorbed := Absorb(this_.identities, that.identities);
    var entry := Remap(that.rule, absorbed.remap);
    if entry.Err? then Err else Ok(Merged(this_.rules + [entry.value], absorbed.ids))
  }

  function MergeAll(envelopes: seq<Envelope>): Result<Merged> {
    if envelopes == [] then Ok(Merged([], []))
    else
      var last := |envelopes| - 1;
      var before := MergeAll(envelopes[..last]);
      if before.Err? then Err else Merge(before.value, envelopes[last])
  }

  /** The signature policy under construction, changed in place by each merge. */
  class Conversion {
    const n: int
    var rules: seq<SignaturePolicy>
    var identities: seq<Principal>

    constructor (n: int)
      ensures this.n == n && rules == [] && identities == []
    {
      this.n := n;
      rules, identities := [], [];
    }

    method MergeIn(that: Envelope) returns (ok: bool)
      modifies this
      ensures ok == Merge(old(Merged(rules, identities)), that).Ok?
      ensures ok ==> Ok(Merged(rules, identities)) == Merge(old(Merged(rules, identities)), that)
    {
      hide PrincipalKey;
      var idMap := IndexKeys(identities);
      var ids, idRemap := AbsorbAll(identities, idMap, that.identities);
      identities := ids;
      var entry := Remap(that.rule, idRemap);
      if entry.Err? {
        return false;
      }
      rules := rules + [entry.value];
      return true;
    }
  }

  /** The first loop of a merge: a map of the principals already there. */
  method IndexKeys(identities: seq<Principal>) returns (idMap: map<string, nat>)
    ensures idMap == KeyIndex(identities)
  {
    hide PrincipalKey;
    idMap := map[];
    for i := 0 to |identities|
      invariant idMap == KeyIndex(identities[..i])
    {
      assert identities[..i + 1][..i] == identities[..i];
      idMap := idMap[PrincipalKey(identities[i]) := i];
    }
    assert identities[..|identities|] == identities;
  }

  /** The second loop of a merge: de-duplicate the new principals and record where they went. */
  method AbsorbAll(identities: seq<Principal>, known: map<string, nat>, that: seq<Principal>)
    returns (ids: seq<Principal>, idRemap: map<int, int>)
    requires known == KeyIndex(identities)
    ensures Absorbed(ids, idRemap) == Absorb(identities, that)
  {
    hide PrincipalKey;
    ids := identities;
    var idMap := known;
    idRemap := map[];
    for i := 0 to |that|
      invariant idMap == KeyIndex(ids)
      invariant Absorbed(ids, idRemap) == Absorb(identities, that[..i])
    {
      assert that[..i + 1][..i] == that[..i];
      var id := that[i];
      var key := PrincipalKey(id);
      if key in idMap {
        idRemap := idRemap[i := idMap[key]];
      } else {
        idRemap := idRemap[i := |ids|];
        idMap := idMap[key := |ids|];
        assert (ids + [id])[..|ids|] == ids;
        ids := ids + [id];
      }
    }
    assert that[..|that|] == that;
  }

  // -------------------------------------------------------------------- conversion

  /** A signature policy keeps the envelope it was made from; other policies may not convert. */
  datatype PolicyNode =
    | SignatureNode(envelope: Option<Envelope>)
    | MetaNode(threshold: int, subPolicies: seq<PolicyNode>)
    | OpaqueNode

  function Convert(node: PolicyNode): Result<Envelope>
    decreases node, 1
  {
    match node
    case OpaqueNode => Err
    case SignatureNode(env) => if env.None? then Err else Ok(env.value)
    case MetaNode(threshold, subs) =>
      var envelopes := ConvertAll(subs);
      if envelopes.Err? then Err
      else
        var merged := MergeAll(envelopes.value);
        if merged.Err? then Err else Ok(Envelope(0, NOutOf(threshold, merged.value.rules), merged.value.identities))
  }

  function ConvertAll(nodes: seq<PolicyNode>): (r: Result<seq<Envelope>>)
    ensures r.Ok? ==> |r.value| == |nodes|
    ensures r.Ok? <==> forall i | 0 <= i < |nodes| :: Convert(nodes[i]).Ok?
    ensures r.Ok? ==> forall i | 0 <= i < |nodes| :: Convert(nodes[i]) == Ok(r.value[i])
    decreases nodes, 0
  {
    if nodes == [] then Ok([])
    else
      assert forall i | 1 <= i < |nodes| :: nodes[i] == nodes[1..][i - 1];
      var first, rest := Convert(nodes[0]), ConvertAll(nodes[1..]);
      if first.Err? || rest.Err? then Err else Ok([first.value] + rest.value)
  }

  /** Sub-policies are converted and merged one after the other into the same envelope. */
  method ConvertPolicy(node: PolicyNode) returns (r: Result<Envelope>)
    ensures r == Convert(node)
    decreases node
  {
    hide Merge;
    match node {
      case OpaqueNode => return Err;
      case SignatureNode(env) =>
        if env.None? {
          return Err;
        }
        return Ok(env.value);
      case MetaNode(threshold, subs) =>
        var converted := new Conversion(threshold);
        ghost var envelopes := [];
        for i := 0 to |subs|
          invariant |envelopes| == i && fresh(converted) && converted.n == threshold
          invariant forall j | 0 <= j < i :: Convert(subs[j]) == Ok(envelopes[j])
          invariant MergeAll(envelopes) == Ok(Merged(converted.rules, converted.identities))
        {
          var env := ConvertPolicy(subs[i]);
          if env.Err? {
            return Err;
          }
          assert (envelopes + [env.value])[..i] == envelopes;
          var ok := converted.MergeIn(env.value);
          envelopes := envelopes + [env.value];
          if !ok {
            MergeAllFails(subs, envelopes);
            return Err;
          }
        }
        assert ConvertAll(subs).value == envelopes;
        return Ok(Envelope(0, NOutOf(converted.n, converted.rules), converted.identities));
    }
  }

  lemma {:induction false} MergeAllPrefix(envelopes: seq<Envelope>, n: nat)
    requires n <= |envelopes| && MergeAll(envelopes).Ok?
    ensures MergeAll(envelopes[..n]).Ok?
    decreases |envelopes|
  {
    if n == |envelopes| {
      assert envelopes[..n] == envelopes;
    } else {
      var last := |envelopes| - 1;
      MergeAllPrefix(envelopes[..last], n);
      assert envelopes[..last][..n] == envelopes[..n];
    }
  }

  lemma MergeAllFails(nodes: seq<PolicyNode>, envelopes: seq<Envelope>)
    requires |envelopes| <= |nodes|
    requires forall j | 0 <= j < |envelopes| :: Convert(nodes[j]) == Ok(envelopes[j])
    requires MergeAll(envelopes).Err?
    ensures ConvertAll(nodes).Ok? ==> MergeAll(ConvertAll(nodes).value).Err?
  {
    if ConvertAll(nodes).Ok? && MergeAll(ConvertAll(nodes).value).Ok? {
      MergeAllPrefix(ConvertAll(nodes).value, |envelopes|);
      assert ConvertAll(nodes).value[..|envelopes|] == envelopes;
    }
  }

  // ------------------------------------------------------ conversion keeps the meaning

  /** A membership service never accepts a principal whose classification has no name. */
  ghost predicate RejectsUnnamed(msp: Msp) {
    forall id: Identity, p: Principal | !HasName(p) :: !msp.satisfies(id, p)
  }

  /** The same tree up to principals of the same meaning. */
  predicate Similar(c: Compiled, d: Compiled)
    decreases c, 1
  {
    match (c, d)
    case (Leaf(p), Leaf(q)) => SameMeaning(p, q)
    case (Gate(m, xs), Gate(n, ys)) => m == n && SimilarRules(xs, ys)
    case _ => false
  }

  predicate SimilarRules(xs: seq<Compiled>, ys: seq<Compiled>)
    decreases xs, 0
  {
    |xs| == |ys| && (xs != [] ==> Similar(xs[0], ys[0]) && SimilarRules(xs[1..], ys[1..]))
  }

  lemma {:induction false} SameFirst(msp: Msp, p: Principal, q: Principal, ids: seq<Identity>, used: seq<bool>, i: nat)
    requires |used| == |ids| && i <= |ids| && SameMeaning(p, q) && RejectsUnnamed(msp)
    ensures FirstEligible(msp, p, ids, used, i) == FirstEligible(msp, q, ids, used, i)
    decreases |ids| - i
  {
    if i < |ids| {
      SameFirst(msp, p, q, ids, used, i + 1);
    }
  }

  /** Similar policies give the same verdict and leave the same flags. */
  lemma {:induction false} SimilarEvaluate(msp: Msp, c: Compiled, d: Compiled, ids: seq<Identity>, used: seq<bool>)
    requires |used| == |ids| && Similar(c, d) && RejectsUnnamed(msp)
    ensures Evaluate(msp, c, ids, used) == Evaluate(msp, d, ids, used)
    decreases c, 1
  {
    match c
    case Leaf(p) => SameFirst(msp, p, d.principal, ids, used, 0);
    case Gate(_, rules) => SimilarTally(msp, rules, d.rules, ids, used);
  }

  lemma {:induction false} SimilarTally(
    msp: Msp, xs: seq<Compiled>, ys: seq<Compiled>, ids: seq<Identity>, used: seq<bool>)
    requires |used| == |ids| && SimilarRules(xs, ys) && RejectsUnnamed(msp)
    ensures EvaluateRules(msp, xs, ids, used) == EvaluateRules(msp, ys, ids, used)
    decreases xs, 0
  {
    if xs != [] {
      SimilarEvaluate(msp, xs[0], ys[0], ids, used);
      var first := Evaluate(msp, xs[0], ids, used);
      SimilarTally(msp, xs[1..], ys[1..], ids, if first.ok then first.used else used);
    }
  }

  lemma {:induction false} SimilarSupports(msp: Msp, w: Witness, c: Compiled, d: Compiled, ids: seq<Identity>)
    requires Similar(c, d) && RejectsUnnamed(msp) && Supports(msp, w, c, ids)
    ensures Supports(msp, w, d, ids)
    decreases c, 1
  {
    match c
    case Leaf(p) =>
    case Gate(_, rules) => SimilarSupportsRules(msp, w.subs, rules, d.rules, ids);
  }

  lemma {:induction false} SimilarSupportsRules(
    msp: Msp, ws: seq<Witness>, xs: seq<Compiled>, ys: seq<Compiled>, ids: seq<Identity>)
    requires SimilarRules(xs, ys) && RejectsUnnamed(msp) && SupportsRules(msp, ws, xs, ids)
    ensures SupportsRules(msp, ws, ys, ids)
    decreases xs, 0
  {
    if xs != [] {
      if !ws[0].NotHeld? {
        SimilarSupports(msp, ws[0], xs[0], ys[0], ids);
      }
      SimilarSupportsRules(msp, ws[1..], xs[1..], ys[1..], ids);
    }
  }

  lemma {:induction false} SimilarTo(c: Compiled)
    ensures Similar(c, c)
    decreases c, 1
  {
    if c.Gate? {
      SimilarToRules(c.rules);
    }
  }

  lemma {:induction false} SimilarToRules(rules: seq<Compiled>)
    ensures SimilarRules(rules, rules)
    decreases rules, 0
  {
    if rules != [] {
      SimilarTo(rules[0]);
      SimilarToRules(rules[1..]);
    }
  }

  /** Appending principals does not change what a rule compiles to. */
  lemma {:induction false} CompileExtended(sp: SignaturePolicy, ids: seq<Principal>, more: seq<Principal>)
    requires Compile(sp, ids).Ok? && ids <= more
    ensures Compile(sp, more) == Compile(sp, ids)
    decreases sp, 1
  {
    if sp.NOutOf? {
      CompileRulesExtended(sp.rules, ids, more);
    }
  }

  lemma {:induction false} CompileRulesExtended(rules: seq<SignaturePolicy>, ids: seq<Principal>, more: seq<Principal>)
    requires CompileRules(rules, ids).Ok? && ids <= more
    ensures CompileRules(rules, more) == CompileRules(rules, ids)
    decreases rules, 0
  {
    if rules != [] {
      CompileExtended(rules[0], ids, more);
      CompileRulesExtended(rules[1..], ids, more);
    }
  }

  /** `remap` sends every principal of `from` to one of the same meaning in `to`. */
  predicate Renumbers(remap: map<int, int>, from: seq<Principal>, to: seq<Principal>) {
    forall i | 0 <= i < |from| :: RenumbersAt(remap, from, to, i)
  }

  predicate RenumbersAt(remap: map<int, int>, from: seq<Principal>, to: seq<Principal>, i: int)
    requires 0 <= i < |from|
  {
    i in remap && 0 <= remap[i] < |to| && SameMeaning(to[remap[i]], from[i])
  }

  /** A renumbered rule compiles, and to the same tree. */
  lemma {:induction false} RemapCompiles(
    sp: SignaturePolicy, from: seq<Principal>, remap: map<int, int>, to: seq<Principal>)
    requires Compile(sp, from).Ok? && Renumbers(remap, from, to)
    ensures Remap(sp, remap).Ok?
    ensures Compile(Remap(sp, remap).value, to).Ok?
    ensures Similar(Compile(Remap(sp, remap).value, to).value, Compile(sp, from).value)
    decreases sp, 1
  {
    if sp.NOutOf? {
      RemapRulesCompile(sp.rules, from, remap, to);
    } else {
      assert RenumbersAt(remap, from, to, sp.index);
    }
  }

  lemma {:induction false} RemapRulesCompile(
    rules: seq<SignaturePolicy>, from: seq<Principal>, remap: map<int, int>, to: seq<Principal>)
    requires CompileRules(rules, from).Ok? && Renumbers(remap, from, to)
    ensures RemapRules(rules, remap).Ok?
    ensures CompileRules(RemapRules(rules, remap).value, to).Ok?
    ensures SimilarRules(CompileRules(RemapRules(rules, remap).value, to).value, CompileRules(rules, from).value)
    decreases rules, 0
  {
    if rules != [] {
      RemapCompiles(rules[0], from, remap, to);
      RemapRulesCompile(rules[1..], from, remap, to);
      var rs := RemapRules(rules, remap).value;
      assert rs[0] == Remap(rules[0], remap).value && rs[1..] == RemapRules(rules[1..], remap).value;
      var cs, ds := CompileRules(rs, to).value, CompileRules(rules, from).value;
      assert cs[1..] == CompileRules(rs[1..], to).value && ds[1..] == CompileRules(rules[1..], from).value;
    }
  }

  lemma AbsorbRenumbers(ids: seq<Principal>, that: seq<Principal>)
    ensures Renumbers(Absorb(ids, that).remap, that, Absorb(ids, that).ids)
  {
    hide PrincipalKey, Absorb, SameMeaning;
    var r := Absorb(ids, that);
    AbsorbPlaces(ids, that);
    forall i | 0 <= i < |that| ensures RenumbersAt(r.remap, that, r.ids, i) {
      assert Placed(r, that, i);
      KeysDetermineMeaning(r.ids[r.remap[i]], that[i]);
    }
  }

  ghost predicate Compiles(env: Envelope) {
    Compile(env.rule, env.identities).Ok?
  }

  /** Rule `j` of the merged policy is the rule of envelope `j`, over the merged principals. */
  ghost predicate Carries(m: Merged, env: Envelope, j: int)
    requires 0 <= j < |m.rules|
  {
    && Compiles(env)
    && Compile(m.rules[j], m.identities).Ok?
    && Similar(Compile(m.rules[j], m.identities).value, Compile(env.rule, env.identities).value)
  }

  lemma MergeCarriesOn(before: Merged, that: Envelope, env: Envelope, j: nat)
    requires j < |before.rules| && Carries(before, env, j) && Merge(before, that).Ok?
    ensures j < |Merge(before, that).value.rules| && Carries(Merge(before, that).value, env, j)
  {
    hide Absorb, Remap, Compile, Similar;
    AbsorbPlaces(before.identities, that.identities);
    CompileExtended(before.rules[j], before.identities, Absorb(before.identities, that.identities).ids);
  }

  lemma MergeCarriesNew(before: Merged, that: Envelope)
    requires Compiles(that)
    ensures Merge(before, that).Ok?
    ensures |Merge(before, that).value.rules| == |before.rules| + 1
    ensures Carries(Merge(before, that).value, that, |before.rules|)
  {
    hide Absorb, Remap, Compile, Similar, Renumbers;
    var absorbed := Absorb(before.identities, that.identities);
    AbsorbRenumbers(before.identities, that.identities);
    RemapCompiles(that.rule, that.identities, absorbed.remap, absorbed.ids);
  }

  /**
   Merging a list of policies never panics, and every rule keeps its meaning, also under the
   merges that come after it.
   */
  lemma {:induction false} MergeKeepsMeaning(envelopes: seq<Envelope>)
    requires forall i | 0 <= i < |envelopes| :: Compiles(envelopes[i])
    ensures MergeAll(envelopes).Ok?
    ensures var m := MergeAll(envelopes).value;
            |m.rules| == |envelopes| && forall j | 0 <= j < |envelopes| :: Carries(m, envelopes[j], j)
    decreases |envelopes|
  {
    hide Carries, Compiles, Merge;
    if envelopes != [] {
      var last := |envelopes| - 1;
      MergeKeepsMeaning(envelopes[..last]);
      var before := MergeAll(envelopes[..last]).value;
      MergeCarriesNew(before, envelopes[last]);
      var m := MergeAll(envelopes).value;
      forall j | 0 <= j < |envelopes| ensures Carries(m, envelopes[j], j) {
        if j < last {
          assert Carries(before, envelopes[..last][j], j);
          MergeCarriesOn(before, envelopes[last], envelopes[j], j);
        }
      }
    }
  }

  predicate KeyOfSome(ids: seq<Principal>, k: string) {
    exists i | 0 <= i < |ids| :: PrincipalKey(ids[i]) == k
  }

  /** No key twice. */
  predicate DistinctKeys(ids: seq<Principal>) {
    forall i, j | 0 <= i < j < |ids| :: PrincipalKey(ids[i]) != PrincipalKey(ids[j])
  }

  lemma AbsorbOneKeys(before: Absorbed, i: nat, p: Principal, k: string)
    requires DistinctKeys(before.ids)
    ensures DistinctKeys(AbsorbOne(before, i, p).ids)
    ensures KeyOfSome(AbsorbOne(before, i, p).ids, k) <==> KeyOfSome(before.ids, k) || PrincipalKey(p) == k
  {
    hide PrincipalKey, KeyIndex;
    KeyIndexPositions(before.ids);
    var after := AbsorbOne(before, i, p).ids;
    if after != before.ids {
      assert after == before.ids + [p] && after[|before.ids|] == p;
      assert forall j | 0 <= j < |before.ids| :: before.ids[j] in before.ids && after[j] == before.ids[j];
    }
  }

  lemma {:induction false} AbsorbKeys(ids: seq<Principal>, that: seq<Principal>, k: string)
    requires DistinctKeys(ids)
    ensures DistinctKeys(Absorb(ids, that).ids)
    ensures KeyOfSome(Absorb(ids, that).ids, k) <==> KeyOfSome(ids, k) || KeyOfSome(that, k)
    decreases |that|
  {
    hide PrincipalKey, AbsorbOne, DistinctKeys;
    if that != [] {
      var last := |that| - 1;
      AbsorbKeys(ids, that[..last], k);
      AbsorbOneKeys(Absorb(ids, that[..last]), last, that[last], k);
      assert forall i | 0 <= i < last :: that[..last][i] == that[i];
      assert KeyOfSome(that, k) <==> KeyOfSome(that[..last], k) || PrincipalKey(that[last]) == k;
    }
  }

  /** The principals of merged policies are those of the policies, each key once. */
  lemma {:induction false} MergedPrincipals(envelopes: seq<Envelope>, k: string)
    requires MergeAll(envelopes).Ok?
    ensures var m := MergeAll(envelopes).value;
            && DistinctKeys(m.identities)
            && (KeyOfSome(m.identities, k) <==>
                  exists j | 0 <= j < |envelopes| :: KeyOfSome(envelopes[j].identities, k))
    decreases |envelopes|
  {
    hide PrincipalKey, Absorb, Remap, DistinctKeys, KeyOfSome;
    if envelopes == [] {
      NoKeys(k);
    } else {
      var last := |envelopes| - 1;
      MergedPrincipals(envelopes[..last], k);
      AbsorbKeys(MergeAll(envelopes[..last]).value.identities, envelopes[last].identities, k);
      assert forall j | 0 <= j < last :: envelopes[..last][j] == envelopes[j];
    }
  }

  lemma NoKeys(k: string)
    ensures DistinctKeys([]) && !KeyOfSome([], k)
  {
  }

  /** Every signature policy in the tree was compiled from its envelope. */
  ghost predicate WellFormed(node: PolicyNode) {
    match node
    case OpaqueNode => true
    case SignatureNode(env) => env.Some? ==> Compiles(env.value)
    case MetaNode(_, subs) => forall i | 0 <= i < |subs| :: WellFormed(subs[i])
  }

  /** Conversion fails only where a policy that cannot be converted is reached, and its result compiles. */
  predicate Convertible(node: PolicyNode) {
    match node
    case OpaqueNode => false
    case SignatureNode(env) => env.Some?
    case MetaNode(_, subs) => forall i | 0 <= i < |subs| :: Convertible(subs[i])
  }

  lemma {:induction false} ConversionSucceeds(node: PolicyNode)
    requires WellFormed(node)
    ensures Convert(node).Ok? <==> Convertible(node)
    ensures Convert(node).Ok? ==> Compiles(Convert(node).value)
    decreases node
  {
    if node.MetaNode? {
      forall i | 0 <= i < |node.subPolicies|
        ensures Convert(node.subPolicies[i]).Ok? <==> Convertible(node.subPolicies[i])
        ensures Convert(node.subPolicies[i]).Ok? ==> Compiles(Convert(node.subPolicies[i]).value)
      {
        ConversionSucceeds(node.subPolicies[i]);
      }
      if Convertible(node) {
        var envelopes := ConvertAll(node.subPolicies).value;
        MergeKeepsMeaning(envelopes);
        var m := MergeAll(envelopes).value;
        forall j | 0 <= j < |m.rules| ensures Compile(m.rules[j], m.identities).Ok? {
          assert Carries(m, envelopes[j], j);
        }
        CompileRulesAt(m.rules, m.identities);
      }
    }
  }

  /** The compiled form of a converted policy. */
  ghost function CompiledOf(node: PolicyNode): Compiled
    requires WellFormed(node) && Convertible(node)
  {
    ConversionSucceeds(node);
    Compile(Convert(node).value.rule, Convert(node).value.identities).value
  }

  lemma MetaParts(node: PolicyNode)
    requires node.MetaNode? && WellFormed(node) && Convertible(node)
    ensures CompiledOf(node).Gate? && CompiledOf(node).n == node.threshold
    ensures |CompiledOf(node).rules| == |node.subPolicies|
    ensures forall j | 0 <= j < |node.subPolicies| ::
              Similar(CompiledOf(node).rules[j], CompiledOf(node.subPolicies[j]))
  {
    ConversionSucceeds(node);
    forall i | 0 <= i < |node.subPolicies|
      ensures Convert(node.subPolicies[i]).Ok? && Compiles(Convert(node.subPolicies[i]).value)
    {
      ConversionSucceeds(node.subPolicies[i]);
    }
    var envelopes := ConvertAll(node.subPolicies).value;
    MergeKeepsMeaning(envelopes);
    var m := MergeAll(envelopes).value;
    CompileRulesAt(m.rules, m.identities);
    forall j | 0 <= j < |node.subPolicies| ensures Similar(CompiledOf(node).rules[j], CompiledOf(node.subPolicies[j])) {
      assert Carries(m, envelopes[j], j);
    }
  }

  lemma MetaShape(node: PolicyNode)
    requires node.MetaNode? && WellFormed(node) && Convertible(node)
    ensures CompiledOf(node).Gate? && CompiledOf(node).n == node.threshold
    ensures |CompiledOf(node).rules| == |node.subPolicies|
  {
    hide CompiledOf;
    MetaParts(node);
  }

  /** What a tree of policies stands for: its signature policies as they are, under its thresholds. */
  ghost function Meaning(node: PolicyNode): Compiled
    requires WellFormed(node) && Convertible(node)
  {
    match node
    case SignatureNode(env) => Compile(env.value.rule, env.value.identities).value
    case MetaNode(threshold, subs) => Gate(threshold, seq(|subs|, j requires 0 <= j < |subs| => Meaning(subs[j])))
  }

  lemma {:induction false} SimilarVia(c: Compiled, d: Compiled, e: Compiled)
    requires Similar(c, d) && Similar(d, e)
    ensures Similar(c, e)
    decreases c, 1
  {
    if c.Gate? {
      SimilarRulesVia(c.rules, d.rules, e.rules);
    }
  }

  lemma {:induction false} SimilarRulesVia(xs: seq<Compiled>, ys: seq<Compiled>, zs: seq<Compiled>)
    requires SimilarRules(xs, ys) && SimilarRules(ys, zs)
    ensures SimilarRules(xs, zs)
    decreases xs, 0
  {
    if xs != [] {
      SimilarVia(xs[0], ys[0], zs[0]);
      SimilarRulesVia(xs[1..], ys[1..], zs[1..]);
    }
  }

  lemma {:induction false} SimilarEach(xs: seq<Compiled>, ys: seq<Compiled>)
    requires |xs| == |ys| && forall j | 0 <= j < |xs| :: Similar(xs[j], ys[j])
    ensures SimilarRules(xs, ys)
    decreases |xs|
  {
    hide Similar;
    if xs != [] {
      assert forall j | 0 <= j < |xs| - 1 :: xs[1..][j] == xs[j + 1] && ys[1..][j] == ys[j + 1];
      SimilarEach(xs[1..], ys[1..]);
    }
  }

  /** A converted policy is what the tree of policies stands for. */
  lemma {:induction false} ConversionKeepsMeaning(node: PolicyNode)
    requires WellFormed(node) && Convertible(node)
    ensures Similar(CompiledOf(node), Meaning(node))
    decreases node
  {
    hide Similar, Compile;
    if node.MetaNode? {
      MetaParts(node);
      var xs, ys := CompiledOf(node).rules, Meaning(node).rules;
      forall j | 0 <= j < |xs| ensures Similar(xs[j], ys[j]) {
        ConversionKeepsMeaning(node.subPolicies[j]);
        SimilarVia(xs[j], CompiledOf(node.subPolicies[j]), ys[j]);
      }
      SimilarEach(xs, ys);
      SimilarGates(CompiledOf(node), Meaning(node));
    } else {
      SimilarTo(Meaning(node));
    }
  }

  lemma SimilarGates(c: Compiled, d: Compiled)
    requires c.Gate? && d.Gate? && c.n == d.n && SimilarRules(c.rules, d.rules)
    ensures Similar(c, d)
  {
    hide SimilarRules;
  }

  /** A converted policy gives the verdict and the flags of what the tree stands for. */
  lemma ConvertedEvaluates(msp: Msp, node: PolicyNode, ids: seq<Identity>, used: seq<bool>)
    requires WellFormed(node) && Convertible(node) && RejectsUnnamed(msp) && |used| == |ids|
    ensures Evaluate(msp, CompiledOf(node), ids, used) == Evaluate(msp, Meaning(node), ids, used)
  {
    hide CompiledOf, Meaning, Similar;
    ConversionKeepsMeaning(node);
    SimilarEvaluate(msp, CompiledOf(node), Meaning(node), ids, used);
  }

  /** Every signature policy that is asked for is met, at least `threshold` many at every level. */
  ghost predicate NodeMet(msp: Msp, node: PolicyNode, ids: seq<Identity>) {
    match node
    case OpaqueNode => false
    case SignatureNode(env) => env.Some? && Met(msp, env.value.rule, env.value.identities, ids)
    case MetaNode(threshold, subs) => |set j | 0 <= j < |subs| && NodeMet(msp, subs[j], ids)| >= threshold
  }

  lemma {:induction false} MeaningIsMet(msp: Msp, node: PolicyNode, ids: seq<Identity>)
    requires WellFormed(node) && Convertible(node)
    ensures Plain(msp, Meaning(node), ids) <==> NodeMet(msp, node, ids)
    decreases node
  {
    if node.MetaNode? {
      var rules, subs := Meaning(node).rules, node.subPolicies;
      forall j | 0 <= j < |rules| ensures Plain(msp, rules[j], ids) <==> NodeMet(msp, subs[j], ids) {
        MeaningIsMet(msp, subs[j], ids);
      }
      PlainCountIsSize(msp, rules, ids, 0);
      assert rules[0..] == rules;
      assert HoldingFrom(msp, rules, ids, 0) == set j | 0 <= j < |subs| && NodeMet(msp, subs[j], ids);
    } else {
      CompiledAsksTheSame(msp, node.envelope.value.rule, node.envelope.value.identities, ids);
    }
  }

  /**
   A converted policy accepts only where the tree of policies is met, and where no identity holds
   two of its leaves exactly there.
   */
  lemma ConvertedIsMet(msp: Msp, node: PolicyNode, ids: seq<Identity>, used: seq<bool>)
    requires WellFormed(node) && Convertible(node) && RejectsUnnamed(msp) && |used| == |ids|
    ensures Evaluate(msp, CompiledOf(node), ids, used).ok ==> NodeMet(msp, node, ids)
    ensures OneLeafEach(msp, Principals(Meaning(node)), ids) && (forall i | 0 <= i < |used| :: !used[i]) ==>
              (Evaluate(msp, CompiledOf(node), ids, used).ok <==> NodeMet(msp, node, ids))
  {
    hide CompiledOf, Meaning, NodeMet, Plain, Evaluate, OneLeafEach;
    ConvertedEvaluates(msp, node, ids, used);
    MeaningIsMet(msp, node, ids);
    GreedyIsSound(msp, Meaning(node), ids, used);
    if OneLeafEach(msp, Principals(Meaning(node)), ids) && forall i | 0 <= i < |used| :: !used[i] {
      GreedyIsPlain(msp, Meaning(node), ids, used);
    }
  }

  /** Every rule of a converted policy evaluates as what its own sub-policy stands for. */
  lemma ConvertedRuleEvaluates(msp: Msp, node: PolicyNode, j: nat, ids: seq<Identity>, used: seq<bool>)
    requires node.MetaNode? && WellFormed(node) && Convertible(node) && j < |node.subPolicies|
    requires RejectsUnnamed(msp) && |used| == |ids|
    ensures CompiledOf(node).Gate? && j < |CompiledOf(node).rules|
    ensures Evaluate(msp, CompiledOf(node).rules[j], ids, used)
         == Evaluate(msp, Meaning(node.subPolicies[j]), ids, used)
  {
    hide CompiledOf, Meaning, Similar;
    RuleKeepsMeaning(node, j);
    SimilarEvaluate(msp, CompiledOf(node).rules[j], Meaning(node.subPolicies[j]), ids, used);
  }

  lemma RuleKeepsMeaning(node: PolicyNode, j: nat)
    requires node.MetaNode? && WellFormed(node) && Convertible(node) && j < |node.subPolicies|
    ensures CompiledOf(node).Gate? && j < |CompiledOf(node).rules|
    ensures Similar(CompiledOf(node).rules[j], Meaning(node.subPolicies[j]))
  {
    hide CompiledOf, Meaning, Similar;
    MetaParts(node);
    ConversionKeepsMeaning(node.subPolicies[j]);
    SimilarVia(CompiledOf(node).rules[j], CompiledOf(node.subPolicies[j]), Meaning(node.subPolicies[j]));
  }

  ghost predicate NoSharedSigner(ws: seq<Witness>) {
    forall i, j | 0 <= i < j < |ws| :: forall s | s in Signers(ws[i]) :: s !in Signers(ws[j])
  }

  ghost predicate SupportsSubPolicy(msp: Msp, node: PolicyNode, ids: seq<Identity>, w: Witness, j: nat)
    requires node.MetaNode? && WellFormed(node) && Convertible(node) && j < |node.subPolicies|
  {
    w.NotHeld? || Supports(msp, w, Meaning(node.subPolicies[j]), ids)
  }

  /** At least `threshold` of the sub-policies are satisfied, and no signer serves two of them. */
  ghost predicate SplitAmong(msp: Msp, node: PolicyNode, ids: seq<Identity>, ws: seq<Witness>)
    requires node.MetaNode? && WellFormed(node) && Convertible(node)
  {
    && |ws| == |node.subPolicies| && Held(ws) >= node.threshold
    && (forall j | 0 <= j < |ws| :: SupportsSubPolicy(msp, node, ids, ws[j], j))
    && NoSharedSigner(ws)
  }

  lemma {:induction false} SupportsRulesAt(msp: Msp, ws: seq<Witness>, rules: seq<Compiled>, ids: seq<Identity>, j: nat)
    requires SupportsRules(msp, ws, rules, ids) && j < |rules| && !ws[j].NotHeld?
    ensures Supports(msp, ws[j], rules[j], ids)
  {
    if j > 0 {
      SupportsRulesAt(msp, ws[1..], rules[1..], ids, j - 1);
    }
  }

  lemma {:induction false} SignersWithin(ws: seq<Witness>, j: nat, s: nat)
    requires j < |ws| && s in Signers(ws[j])
    ensures s in SignersOf(ws)
  {
    if j > 0 {
      SignersWithin(ws[1..], j - 1, s);
    }
  }

  lemma {:induction false} DistinctMeansDisjoint(ws: seq<Witness>, i: nat, j: nat, s: nat)
    requires NoRepeats(SignersOf(ws)) && i < j < |ws| && s in Signers(ws[i])
    ensures s !in Signers(ws[j])
  {
    var first, rest := Signers(ws[0]), SignersOf(ws[1..]);
    assert SignersOf(ws) == first + rest;
    assert NoRepeats(rest) by {
      forall a, b | 0 <= a < b < |rest| ensures rest[a] != rest[b] {
        assert (first + rest)[|first| + a] == rest[a] && (first + rest)[|first| + b] == rest[b];
      }
    }
    if i == 0 {
      forall b | 0 <= b < |rest| ensures rest[b] != s {
        var a :| 0 <= a < |first| && first[a] == s;
        assert (first + rest)[a] == s && (first + rest)[|first| + b] == rest[b];
      }
      if s in Signers(ws[j]) {
        SignersWithin(ws[1..], j - 1, s);
      }
    } else {
      DistinctMeansDisjoint(ws[1..], i - 1, j - 1, s);
    }
  }

  lemma GateWitnesses(msp: Msp, c: Compiled, ids: seq<Identity>, used: seq<bool>) returns (ws: seq<Witness>)
    requires |used| == |ids| && c.Gate? && Evaluate(msp, c, ids, used).ok
    ensures SupportsRules(msp, ws, c.rules, ids) && |ws| == |c.rules|
    ensures Held(ws) >= c.n && NoRepeats(SignersOf(ws))
  {
    AcceptanceIsWitnessed(msp, c, ids, used);
    ws := WitnessOf(msp, c, ids, used).subs;
  }

  /** An accepting converted policy is backed by disjoint sets of signers, one per satisfied sub-policy. */
  lemma ConvertedAcceptance(msp: Msp, node: PolicyNode, ids: seq<Identity>, used: seq<bool>) returns (ws: seq<Witness>)
    requires node.MetaNode? && WellFormed(node) && Convertible(node)
    requires RejectsUnnamed(msp) && |used| == |ids|
    requires Evaluate(msp, CompiledOf(node), ids, used).ok
    ensures SplitAmong(msp, node, ids, ws)
  {
    hide CompiledOf, WellFormed, Convertible, RejectsUnnamed, Evaluate, SupportsRules, NoRepeats, SplitAmong;
    MetaShape(node);
    ws := GateWitnesses(msp, CompiledOf(node), ids, used);
    WitnessesSplit(msp, node, ids, ws);
  }

  lemma WitnessesSplit(msp: Msp, node: PolicyNode, ids: seq<Identity>, ws: seq<Witness>)
    requires node.MetaNode? && WellFormed(node) && Convertible(node) && RejectsUnnamed(msp)
    requires |ws| == |node.subPolicies| && Held(ws) >= node.threshold && NoRepeats(SignersOf(ws))
    requires CompiledOf(node).Gate? && SupportsRules(msp, ws, CompiledOf(node).rules, ids)
    ensures SplitAmong(msp, node, ids, ws)
  {
    hide CompiledOf, WellFormed, Convertible, RejectsUnnamed, SupportsRules, NoRepeats, NoSharedSigner,
      SupportsSubPolicy;
    forall j | 0 <= j < |ws| ensures SupportsSubPolicy(msp, node, ids, ws[j], j) {
      RuleSupportsSubPolicy(msp, node, ids, ws, j);
    }
    DistinctIsNoSharedSigner(ws);
  }

  lemma RuleSupportsSubPolicy(msp: Msp, node: PolicyNode, ids: seq<Identity>, ws: seq<Witness>, j: nat)
    requires node.MetaNode? && WellFormed(node) && Convertible(node) && RejectsUnnamed(msp)
    requires j < |ws| == |node.subPolicies|
    requires CompiledOf(node).Gate? && SupportsRules(msp, ws, CompiledOf(node).rules, ids)
    ensures SupportsSubPolicy(msp, node, ids, ws[j], j)
  {
    hide CompiledOf, Meaning, RejectsUnnamed, Similar, Supports, SupportsRules;
    RuleKeepsMeaning(node, j);
    if !ws[j].NotHeld? {
      SupportsRulesAt(msp, ws, CompiledOf(node).rules, ids, j);
      SimilarSupports(msp, ws[j], CompiledOf(node).rules[j], Meaning(node.subPolicies[j]), ids);
    }
  }

  lemma DistinctIsNoSharedSigner(ws: seq<Witness>)
    requires NoRepeats(SignersOf(ws))
    ensures NoSharedSigner(ws)
  {
    hide Signers, SignersOf, NoRepeats;
    forall i, j | 0 <= i < j < |ws| ensures forall s | s in Signers(ws[i]) :: s !in Signers(ws[j]) {
      forall s | s in Signers(ws[i]) ensures s !in Signers(ws[j]) {
        DistinctMeansDisjoint(ws, i, j, s);
      }
    }
  }
}
