/**
 Flattening a configuration tree into a map of keyed elements, and rebuilding a tree
 from such a map.
 */
module ConfigMap {
  import opened Common
  import opened Texts
  import opened ConfigTree

  type FlatMap = map<string, Comparable>

  // ------------------------------------------------------------------- flattening

  /** What the flattened map holds for the element at `a`. */
  function Entry(root: string, g: ConfigGroup, a: Address): Comparable
    requires Lookup(g, a).Some?
  {
    var path := [root] + a.names;
    Comparable(Lookup(g, a).value, path[|path| - 1], path[..|path| - 1])
  }

  ghost function FlatKeys(root: string, g: ConfigGroup): set<string> {
    set a | a in Addresses(g) :: KeyOf(root, a)
  }

  ghost function AddressFor(root: string, g: ConfigGroup, s: string): (a: Address)
    requires s in FlatKeys(root, g)
    ensures Lookup(g, a).Some? && KeyOf(root, a) == s
  {
    var a :| a in Addresses(g) && KeyOf(root, a) == s;
    AddressesAreLookups(g, a);
    a
  }

  /** The flattened form of a tree: one entry for each element. */
  ghost function Flatten(root: string, g: ConfigGroup): FlatMap {
    map s | s in FlatKeys(root, g) :: Entry(root, g, AddressFor(root, g, s))
  }

  /** Flattening fails exactly on trees with an illegal key; an absent tree is an empty map. */
  ghost function MapConfig(group: Option<ConfigGroup>, root: string): Result<FlatMap> {
    match group
    case None => Ok(map[])
    case Some(g) => if LegalTree(root, g) then Ok(Flatten(root, g)) else Err
  }

  lemma FlattenAt(root: string, g: ConfigGroup, a: Address)
    requires LegalTree(root, g) && Lookup(g, a).Some?
    ensures KeyOf(root, a) in Flatten(root, g)
    ensures Flatten(root, g)[KeyOf(root, a)] == Entry(root, g, a)
  {
    AddressesAreLookups(g, a);
    KeysAreDistinct(root, g, a, g, AddressFor(root, g, KeyOf(root, a)));
  }

  lemma FlattenFrom(root: string, g: ConfigGroup, s: string) returns (a: Address)
    requires s in Flatten(root, g)
    ensures Lookup(g, a).Some? && s == KeyOf(root, a)
    ensures Flatten(root, g)[s] == Entry(root, g, a)
  {
    a := AddressFor(root, g, s);
  }

  /** Looking up a longer address is looking up its tail in the group its head leads to. */
  lemma {:induction false} LookupThrough(tree: ConfigGroup, names: seq<string>, g: ConfigGroup, a: Address)
    requires Lookup(tree, Address(GroupKind, names)) == Some(GroupElement(g))
    requires Lookup(g, a).Some?
    ensures Lookup(tree, Address(a.kind, names + a.names)) == Lookup(g, a)
    decreases |names|
  {
    if names == [] {
      assert names + a.names == a.names;
    } else {
      LookupThrough(tree.groups[names[0]], names[1..], g, a);
      assert (names + a.names)[1..] == names[1..] + a.names;
    }
  }

  ghost predicate IsEntry(root: string, tree: ConfigGroup, s: string, c: Comparable, a: Address) {
    Lookup(tree, a).Some? && s == KeyOf(root, a) && c == Entry(root, tree, a)
  }

  /** Every entry of `m` is an entry of the tree. */
  ghost predicate Sound(m: FlatMap, root: string, tree: ConfigGroup) {
    forall s | s in m :: exists a :: IsEntry(root, tree, s, m[s], a)
  }

  /** Every element of `g`, found in the tree below `names`, has an entry in `m`. */
  ghost predicate Covers(m: FlatMap, root: string, names: seq<string>, g: ConfigGroup) {
    forall a | Lookup(g, a).Some? :: KeyOf(root, Address(a.kind, names + a.names)) in m
  }

  lemma CoversFromParts(m: FlatMap, root: string, names: seq<string>, g: ConfigGroup)
    requires KeyOf(root, Address(GroupKind, names)) in m
    requires forall k | k in g.groups :: Covers(m, root, names + [k], g.groups[k])
    requires forall k | k in g.values :: KeyOf(root, Address(ValueKind, names + [k])) in m
    requires forall k | k in g.policies :: KeyOf(root, Address(PolicyKind, names + [k])) in m
    ensures Covers(m, root, names, g)
  {
    hide KeyOf, Lookup, Covers;
    assert Covers(m, root, names, g) by {
      forall a | Lookup(g, a).Some?
        ensures KeyOf(root, Address(a.kind, names + a.names)) in m
      {
        PartIsCovered(m, root, names, g, a);
      }
      CoversAll(m, root, names, g);
    }
  }

  lemma CoversAll(m: FlatMap, root: string, names: seq<string>, g: ConfigGroup)
    requires forall a | Lookup(g, a).Some? :: KeyOf(root, Address(a.kind, names + a.names)) in m
    ensures Covers(m, root, names, g)
  {
    hide Lookup, KeyOf;
  }

  lemma CoversOne(m: FlatMap, root: string, names: seq<string>, g: ConfigGroup, a: Address)
    requires Covers(m, root, names, g) && Lookup(g, a).Some?
    ensures KeyOf(root, Address(a.kind, names + a.names)) in m
  {
    hide Lookup, KeyOf;
  }

  lemma PartIsCovered(m: FlatMap, root: string, names: seq<string>, g: ConfigGroup, a: Address)
    requires KeyOf(root, Address(GroupKind, names)) in m
    requires forall k | k in g.groups :: Covers(m, root, names + [k], g.groups[k])
    requires forall k | k in g.values :: KeyOf(root, Address(ValueKind, names + [k])) in m
    requires forall k | k in g.policies :: KeyOf(root, Address(PolicyKind, names + [k])) in m
    requires Lookup(g, a).Some?
    ensures KeyOf(root, Address(a.kind, names + a.names)) in m
  {
    hide KeyOf, Covers;
    if a.names == [] {
      assert names + a.names == names;
    } else {
      var k, rest := a.names[0], Address(a.kind, a.names[1..]);
      assert names + a.names == (names + [k]) + rest.names;
      if |a.names| > 1 || a.kind == GroupKind {
        CoversOne(m, root, names + [k], g.groups[k], rest);
      } else {
        assert (names + [k]) + rest.names == names + [k];
      }
    }
  }

  lemma CoversMore(m: FlatMap, m': FlatMap, root: string, names: seq<string>, g: ConfigGroup)
    requires Covers(m, root, names, g) && m.Keys <= m'.Keys
    ensures Covers(m', root, names, g)
  {
  }

  lemma SoundIsFlat(m: FlatMap, root: string, tree: ConfigGroup, s: string)
    requires LegalTree(root, tree)
    requires Sound(m, root, tree) && s in m
    ensures s in Flatten(root, tree) && m[s] == Flatten(root, tree)[s]
  {
    var a :| IsEntry(root, tree, s, m[s], a);
    FlattenAt(root, tree, a);
  }

  lemma CoveringIsFlat(m: FlatMap, root: string, tree: ConfigGroup, s: string)
    requires Covers(m, root, [], tree) && s in Flatten(root, tree)
    ensures s in m
  {
    hide Flatten, Lookup, KeyOf;
    var a := FlattenFrom(root, tree, s);
    assert [] + a.names == a.names;
  }

  lemma SoundAndCoveringIsFlat(m: FlatMap, root: string, tree: ConfigGroup)
    requires LegalTree(root, tree)
    requires Sound(m, root, tree) && Covers(m, root, [], tree)
    ensures m == Flatten(root, tree)
  {
    hide Flatten, Covers, Sound, LegalTree;
    var flat := Flatten(root, tree);
    forall s | s in m ensures s in flat && m[s] == flat[s] {
      SoundIsFlat(m, root, tree, s);
    }
    forall s | s in flat ensures s in m {
      CoveringIsFlat(m, root, tree, s);
    }
  }

  lemma {:induction false} JoinIsSlashed(names: seq<string>)
    requires names != []
    ensures PATH_SEPARATOR + Join(names, PATH_SEPARATOR) == Slashed(names)
  {
    if |names| == 1 {
      assert Slashed(names[..0]) == "";
      assert "" + PATH_SEPARATOR + names[0] == PATH_SEPARATOR + names[0];
    } else {
      JoinIsSlashed(names[..|names| - 1]);
    }
  }

  /** The key that is assembled for an element from its path and its own key. */
  function FqPath(cg: Comparable): string {
    Prefix(KindOf(cg.element))
    + if |cg.path| == 0 then PATH_SEPARATOR + cg.key
      else PATH_SEPARATOR + Join(cg.path, PATH_SEPARATOR) + PATH_SEPARATOR + cg.key
  }

  lemma FqPathIsFlatKey(cg: Comparable)
    ensures FqPath(cg) == FlatKey(KindOf(cg.element), Slashed(cg.path + [cg.key]))
  {
    var path := cg.path + [cg.key];
    assert path[..|path| - 1] == cg.path;
    if cg.path == [] {
      assert "" + PATH_SEPARATOR + cg.key == PATH_SEPARATOR + cg.key;
    } else {
      JoinIsSlashed(cg.path);
    }
  }

  lemma AddedEntryIsSound(m: FlatMap, root: string, tree: ConfigGroup, a: Address)
    requires Sound(m, root, tree) && Lookup(tree, a).Some?
    ensures Sound(m[KeyOf(root, a) := Entry(root, tree, a)], root, tree)
  {
    hide KeyOf, Entry, Lookup;
    var m' := m[KeyOf(root, a) := Entry(root, tree, a)];
    forall s | s in m' ensures exists b :: IsEntry(root, tree, s, m'[s], b) {
      if s == KeyOf(root, a) {
        assert IsEntry(root, tree, s, m'[s], a);
      } else {
        assert s in m;
      }
    }
  }

  /** The map under construction, shared by all levels of the recursion. */
  class Flattener {
    var result: FlatMap

    constructor ()
      ensures result == map[]
    {
      result := map[];
    }

    method AddToMap(cg: Comparable) returns (ok: bool)
      modifies this
      ensures ok == ValidateConfigID(cg.key)
      ensures result == if ok then old(result)[FlatKey(KindOf(cg.element), Slashed(cg.path + [cg.key])) := cg]
                        else old(result)
    {
      ok := ValidateConfigID(cg.key);
      if !ok {
        return;
      }
      FqPathIsFlatKey(cg);
      result := result[FqPath(cg) := cg];
    }

    /** Adds one element that really is in the tree at `path` followed by `key`. */
    method AddElement(path: seq<string>, key: string, element: Element, ghost root: string, ghost tree: ConfigGroup)
      returns (ok: bool)
      requires [root] <= path + [key]
      requires Lookup(tree, Address(KindOf(element), (path + [key])[1..])) == Some(element)
      requires Sound(result, root, tree)
      modifies this
      ensures ok == ValidateConfigID(key)
      ensures Sound(result, root, tree) && old(result).Keys <= result.Keys
      ensures ok ==> KeyOf(root, Address(KindOf(element), (path + [key])[1..])) in result
    {
      hide Sound, Lookup, Slashed, FlatKey;
      ghost var a := Address(KindOf(element), (path + [key])[1..]);
      assert [root] + a.names == path + [key];
      assert (path + [key])[..|path|] == path;
      AddedEntryIsSound(result, root, tree, a);
      ok := AddToMap(Comparable(element, key, path));
    }

    method RecurseConfig(path: seq<string>, group: ConfigGroup, ghost tree: ConfigGroup) returns (ok: bool)
      requires path != []
      requires Lookup(tree, Address(GroupKind, path[1..])) == Some(GroupElement(group))
      requires Sound(result, path[0], tree)
      modifies this
      ensures ok == LegalTree(path[|path| - 1], group)
      ensures Sound(result, path[0], tree) && old(result).Keys <= result.Keys
      ensures ok ==> Covers(result, path[0], path[1..], group)
      decreases group, 1
    {
      hide Sound, Covers, KeyOf, Lookup;
      ghost var root, names := path[0], path[1..];
      var last := |path| - 1;
      assert path[..last] + [path[last]] == path;
      ok := AddElement(path[..last], path[last], GroupElement(group), root, tree);
      if !ok {
        return;
      }
      ok := RecurseGroups(path, group, tree);
      if !ok {
        return;
      }
      ghost var m1 := result;
      ok := AddValues(path, group, tree);
      if !ok {
        return;
      }
      ghost var m2 := result;
      ok := AddPolicies(path, group, tree);
      if !ok {
        return;
      }
      forall k | k in group.groups ensures Covers(result, root, names + [k], group.groups[k]) {
        CoversMore(m1, result, root, names + [k], group.groups[k]);
      }
      CoversFromParts(result, root, names, group);
    }

    method RecurseGroups(path: seq<string>, group: ConfigGroup, ghost tree: ConfigGroup) returns (ok: bool)
      requires path != []
      requires Lookup(tree, Address(GroupKind, path[1..])) == Some(GroupElement(group))
      requires Sound(result, path[0], tree)
      modifies this
      ensures ok <==> forall k | k in group.groups :: LegalTree(k, group.groups[k])
      ensures Sound(result, path[0], tree) && old(result).Keys <= result.Keys
      ensures ok ==> forall k | k in group.groups :: Covers(result, path[0], path[1..] + [k], group.groups[k])
      decreases group, 0
    {
      hide Sound, Covers, LegalTree;
      ghost var root, names := path[0], path[1..];
      var todo := group.groups.Keys;
      while todo != {}
        invariant todo <= group.groups.Keys
        invariant Sound(result, root, tree) && old(result).Keys <= result.Keys
        invariant forall k | k in group.groups && k !in todo ::
                    LegalTree(k, group.groups[k]) && Covers(result, root, names + [k], group.groups[k])
      {
        var k :| k in todo;
        assert (path + [k])[1..] == names + [k];
        LookupThrough(tree, names, group, Address(GroupKind, [k]));
        ghost var before := result;
        ok := RecurseConfig(path + [k], group.groups[k], tree);
        if !ok {
          return;
        }
        forall j | j in group.groups && j !in todo ensures Covers(result, root, names + [j], group.groups[j]) {
          CoversMore(before, result, root, names + [j], group.groups[j]);
        }
        todo := todo - {k};
      }
      ok := true;
    }

    method AddValues(path: seq<string>, group: ConfigGroup, ghost tree: ConfigGroup) returns (ok: bool)
      requires path != []
      requires Lookup(tree, Address(GroupKind, path[1..])) == Some(GroupElement(group))
      requires Sound(result, path[0], tree)
      modifies this
      ensures ok <==> forall k | k in group.values :: ValidateConfigID(k)
      ensures Sound(result, path[0], tree) && old(result).Keys <= result.Keys
      ensures ok ==> forall k | k in group.values :: KeyOf(path[0], Address(ValueKind, path[1..] + [k])) in result
    {
      hide Sound, KeyOf, ValidateConfigID;
      ghost var root, names := path[0], path[1..];
      var todo := group.values.Keys;
      while todo != {}
        invariant todo <= group.values.Keys
        invariant Sound(result, root, tree) && old(result).Keys <= result.Keys
        invariant forall k | k in group.values && k !in todo ::
                    ValidateConfigID(k) && KeyOf(root, Address(ValueKind, names + [k])) in result
      {
        var k :| k in todo;
        assert (path + [k])[1..] == names + [k];
        LookupThrough(tree, names, group, Address(ValueKind, [k]));
        ok := AddElement(path, k, ValueElement(group.values[k]), root, tree);
        if !ok {
          return;
        }
        todo := todo - {k};
      }
      ok := true;
    }

    method AddPolicies(path: seq<string>, group: ConfigGroup, ghost tree: ConfigGroup) returns (ok: bool)
      requires path != []
      requires Lookup(tree, Address(GroupKind, path[1..])) == Some(GroupElement(group))
      requires Sound(result, path[0], tree)
      modifies this
      ensures ok <==> forall k | k in group.policies :: ValidateConfigID(k)
      ensures Sound(result, path[0], tree) && old(result).Keys <= result.Keys
      ensures ok ==> forall k | k in group.policies :: KeyOf(path[0], Address(PolicyKind, path[1..] + [k])) in result
    {
      hide Sound, KeyOf, ValidateConfigID;
      ghost var root, names := path[0], path[1..];
      var todo := group.policies.Keys;
      while todo != {}
        invariant todo <= group.policies.Keys
        invariant Sound(result, root, tree) && old(result).Keys <= result.Keys
        invariant forall k | k in group.policies && k !in todo ::
                    ValidateConfigID(k) && KeyOf(root, Address(PolicyKind, names + [k])) in result
      {
        var k :| k in todo;
        assert (path + [k])[1..] == names + [k];
        LookupThrough(tree, names, group, Address(PolicyKind, [k]));
        ok := AddElement(path, k, PolicyElement(group.policies[k]), root, tree);
        if !ok {
          return;
        }
        todo := todo - {k};
      }
      ok := true;
    }
  }

  method ComputeMapConfig(group: Option<ConfigGroup>, root: string) returns (r: Result<FlatMap>)
    ensures r == MapConfig(group, root)
  {
    var flattener := new Flattener();
    if group.Some? {
      var ok := flattener.RecurseConfig([root], group.value, group.value);
      if !ok {
        return Err;
      }
      assert [root][1..] == [];
      SoundAndCoveringIsFlat(flattener.result, root, group.value);
    }
    return Ok(flattener.result);
  }

  // ------------------------------------------------------------------- rebuilding

  const ORDERER_CAPABILITIES := "[Value]  /Channel/Orderer/Capabilities"
  const NEW_MOD_POLICY := "Admins"

  function Child(path: string, key: string): string {
    path + PATH_SEPARATOR + key
  }

  /** An empty mod_policy becomes Admins when the upgrade applies. */
  function Settled(upgrade: bool, modPolicy: string): string {
    if upgrade && modPolicy == "" then NEW_MOD_POLICY else modPolicy
  }

  function SettledValue(upgrade: bool, v: ConfigValue): ConfigValue {
    v.(modPolicy := Settled(upgrade, v.modPolicy))
  }

  function SettledPolicy(upgrade: bool, p: ConfigPolicy): ConfigPolicy {
    p.(modPolicy := Settled(upgrade, p.modPolicy))
  }

  /** The tree with every empty mod_policy settled. */
  function SettledTree(upgrade: bool, g: ConfigGroup): ConfigGroup {
    ConfigGroup(
      g.version,
      map k | k in g.groups :: SettledTree(upgrade, g.groups[k]),
      map k | k in g.values :: SettledValue(upgrade, g.values[k]),
      map k | k in g.policies :: SettledPolicy(upgrade, g.policies[k]),
      Settled(upgrade, g.modPolicy))
  }

  lemma SettledMembers(upgrade: bool, g: ConfigGroup)
    ensures var settled := SettledTree(upgrade, g);
            && settled.version == g.version
            && settled.modPolicy == Settled(upgrade, g.modPolicy)
            && settled.groups.Keys == g.groups.Keys
            && settled.values.Keys == g.values.Keys
            && settled.policies.Keys == g.policies.Keys
            && (forall k | k in g.groups :: settled.groups[k] == SettledTree(upgrade, g.groups[k]))
            && (forall k | k in g.values :: settled.values[k] == SettledValue(upgrade, g.values[k]))
            && (forall k | k in g.policies :: settled.policies[k] == SettledPolicy(upgrade, g.policies[k]))
  {
  }

  /** The keys long enough to name a group at a path of length `n` or anything below it. */
  ghost function LongKeys(m: FlatMap, n: nat): set<string> {
    set s | s in m && |s| >= |Prefix(GroupKind)| + n
  }

  lemma LongKeysShrink(m: FlatMap, path: string, key: string)
    requires FlatKey(GroupKind, path) in m
    ensures LongKeys(m, |Child(path, key)|) < LongKeys(m, |path|)
  {
    var s := FlatKey(GroupKind, path);
    assert s in LongKeys(m, |path|) && s !in LongKeys(m, |Child(path, key)|);
  }

  predicate HasValue(m: FlatMap, path: string, key: string) {
    var s := FlatKey(ValueKind, Child(path, key));
    s in m && m[s].element.ValueElement?
  }

  predicate HasPolicy(m: FlatMap, path: string, key: string) {
    var s := FlatKey(PolicyKind, Child(path, key));
    s in m && m[s].element.PolicyElement?
  }

  predicate HasGroup(m: FlatMap, path: string) {
    FlatKey(GroupKind, path) in m && m[FlatKey(GroupKind, path)].element.GroupElement?
  }

  function GroupAt(m: FlatMap, path: string): ConfigGroup
    requires HasGroup(m, path)
  {
    m[FlatKey(GroupKind, path)].element.group
  }

  function ValueAt(m: FlatMap, path: string, key: string): ConfigValue
    requires HasValue(m, path, key)
  {
    m[FlatKey(ValueKind, Child(path, key))].element.value
  }

  function PolicyAt(m: FlatMap, path: string, key: string): ConfigPolicy
    requires HasPolicy(m, path, key)
  {
    m[FlatKey(PolicyKind, Child(path, key))].element.policy
  }

  predicate HasMembers(path: string, m: FlatMap, group: ConfigGroup) {
    && (forall k | k in group.values :: HasValue(m, path, k))
    && (forall k | k in group.policies :: HasPolicy(m, path, k))
  }

  function ValuesAt(path: string, m: FlatMap, group: ConfigGroup): (r: map<string, ConfigValue>)
    requires HasMembers(path, m, group)
    ensures r.Keys == group.values.Keys
    ensures forall k | k in r :: r[k] == SettledValue(ORDERER_CAPABILITIES in m, ValueAt(m, path, k))
  {
    map k | k in group.values :: SettledValue(ORDERER_CAPABILITIES in m, ValueAt(m, path, k))
  }

  function PoliciesAt(path: string, m: FlatMap, group: ConfigGroup): (r: map<string, ConfigPolicy>)
    requires HasMembers(path, m, group)
    ensures r.Keys == group.policies.Keys
    ensures forall k | k in r :: r[k] == SettledPolicy(ORDERER_CAPABILITIES in m, PolicyAt(m, path, k))
  {
    map k | k in group.policies :: SettledPolicy(ORDERER_CAPABILITIES in m, PolicyAt(m, path, k))
  }

  /**
   The tree that the map describes at `path`: a group's own entry says which members it has,
   and the members' own entries say what they are.
   */
  function Rebuild(path: string, m: FlatMap): Result<ConfigGroup>
    decreases LongKeys(m, |path|)
  {
    if !HasGroup(m, path) then Err
    else
      var group := GroupAt(m, path);
      if && (forall k | k in group.groups :: LongKeysShrink(m, path, k); Rebuild(Child(path, k), m).Ok?)
         && HasMembers(path, m, group)
      then
        Ok(ConfigGroup(
             group.version,
             map k | k in group.groups :: LongKeysShrink(m, path, k); Rebuild(Child(path, k), m).value,
             ValuesAt(path, m, group),
             PoliciesAt(path, m, group),
             Settled(ORDERER_CAPABILITIES in m, group.modPolicy)))
      else Err
  }

  /** `r` is what the map describes at `path`, member by member. */
  ghost predicate DescribedBy(path: string, m: FlatMap, r: ConfigGroup)
    requires HasGroup(m, path)
  {
    var g, upgrade := GroupAt(m, path), ORDERER_CAPABILITIES in m;
    && r.version == g.version
    && r.modPolicy == Settled(upgrade, g.modPolicy)
    && r.groups.Keys == g.groups.Keys
    && r.values.Keys == g.values.Keys
    && r.policies.Keys == g.policies.Keys
    && (forall k | k in r.groups :: Rebuild(Child(path, k), m) == Ok(r.groups[k]))
    && (forall k | k in r.values :: HasValue(m, path, k) && r.values[k] == SettledValue(upgrade, ValueAt(m, path, k)))
    && (forall k | k in r.policies ::
          HasPolicy(m, path, k) && r.policies[k] == SettledPolicy(upgrade, PolicyAt(m, path, k)))
  }

  /** Rebuilding a group from the rebuilt forms of its subgroups. */
  lemma RebuildOf(path: string, m: FlatMap, groups: map<string, ConfigGroup>)
    requires HasGroup(m, path) && HasMembers(path, m, GroupAt(m, path))
    requires groups.Keys == GroupAt(m, path).groups.Keys
    requires forall k | k in groups :: Rebuild(Child(path, k), m) == Ok(groups[k])
    ensures Rebuild(path, m)
         == Ok(ConfigGroup(
                 GroupAt(m, path).version, groups,
                 ValuesAt(path, m, GroupAt(m, path)), PoliciesAt(path, m, GroupAt(m, path)),
                 Settled(ORDERER_CAPABILITIES in m, GroupAt(m, path).modPolicy)))
  {
    hide HasGroup, HasMembers, GroupAt, ValuesAt, PoliciesAt, Child, Settled, LongKeys;
    var rebuilt := Rebuild(path, m);
    assert rebuilt.Ok?;
    assert rebuilt.value.groups.Keys == groups.Keys;
    assert forall k | k in groups :: rebuilt.value.groups[k] == groups[k];
    assert rebuilt.value.groups == groups;
  }

  lemma RebuildDescribed(path: string, m: FlatMap, r: ConfigGroup)
    requires HasGroup(m, path) && DescribedBy(path, m, r)
    ensures Rebuild(path, m) == Ok(r)
  {
    hide HasGroup, HasValue, HasPolicy, GroupAt, ValueAt, PolicyAt, Child, Settled, SettledValue, SettledPolicy;
    hide Rebuild, ValuesAt, PoliciesAt;
    var g := GroupAt(m, path);
    RebuildOf(path, m, r.groups);
    assert ValuesAt(path, m, g) == r.values;
    assert PoliciesAt(path, m, g) == r.policies;
  }

  lemma DescribedByRebuild(path: string, m: FlatMap)
    requires Rebuild(path, m).Ok?
    ensures HasGroup(m, path) && DescribedBy(path, m, Rebuild(path, m).value)
  {
    hide GroupAt, HasValue, HasPolicy, ValueAt, PolicyAt, Child, Settled, SettledValue, SettledPolicy, LongKeys;
  }

  /** The loop that fills in the values of a group. */
  method FillValues(path: string, configMap: FlatMap, group: ConfigGroup)
    returns (ok: bool, values: map<string, ConfigValue>)
    ensures values.Keys == group.values.Keys
    ensures ok <==> forall k | k in group.values :: HasValue(configMap, path, k)
    ensures ok ==> forall k | k in values :: values[k] == ValueAt(configMap, path, k)
  {
    hide HasValue, ValueAt;
    values := group.values;
    var todo := values.Keys;
    while todo != {}
      invariant todo <= group.values.Keys == values.Keys
      invariant forall k | k in values && k !in todo ::
                  HasValue(configMap, path, k) && values[k] == ValueAt(configMap, path, k)
    {
      var k :| k in todo;
      if !HasValue(configMap, path, k) {
        return false, values;
      }
      values := values[k := ValueAt(configMap, path, k)];
      todo := todo - {k};
    }
    ok := true;
  }

  /** The loop that fills in the policies of a group. */
  method FillPolicies(path: string, configMap: FlatMap, group: ConfigGroup)
    returns (ok: bool, policies: map<string, ConfigPolicy>)
    ensures policies.Keys == group.policies.Keys
    ensures ok <==> forall k | k in group.policies :: HasPolicy(configMap, path, k)
    ensures ok ==> forall k | k in policies :: policies[k] == PolicyAt(configMap, path, k)
  {
    hide HasPolicy, PolicyAt;
    policies := group.policies;
    var todo := policies.Keys;
    while todo != {}
      invariant todo <= group.policies.Keys == policies.Keys
      invariant forall k | k in policies && k !in todo ::
                  HasPolicy(configMap, path, k) && policies[k] == PolicyAt(configMap, path, k)
    {
      var k :| k in todo;
      if !HasPolicy(configMap, path, k) {
        return false, policies;
      }
      policies := policies[k := PolicyAt(configMap, path, k)];
      todo := todo - {k};
    }
    ok := true;
  }

  /** Rebuilding fills the member maps of a fresh group one key at a time. */
  method RecurseConfigMap(path: string, configMap: FlatMap) returns (r: Result<ConfigGroup>)
    ensures r == Rebuild(path, configMap)
    decreases LongKeys(configMap, |path|)
  {
    hide GroupAt, HasValue, HasPolicy, ValueAt, PolicyAt, Child, LongKeys;
    if !HasGroup(configMap, path) {
      return Err;
    }
    var group := GroupAt(configMap, path);
    var groups := group.groups;
    var todo := group.groups.Keys;
    while todo != {}
      invariant todo <= group.groups.Keys == groups.Keys
      invariant forall k | k in groups && k !in todo :: Rebuild(Child(path, k), configMap) == Ok(groups[k])
    {
      var k :| k in todo;
      LongKeysShrink(configMap, path, k);
      var updated := RecurseConfigMap(Child(path, k), configMap);
      if updated.Err? {
        return Err;
      }
      groups := groups[k := updated.value];
      todo := todo - {k};
    }

    var valuesOk, values := FillValues(path, configMap, group);
    if !valuesOk {
      return Err;
    }
    var policiesOk, policies := FillPolicies(path, configMap, group);
    if !policiesOk {
      return Err;
    }
    var newGroup := ConfigGroup(group.version, groups, values, policies, group.modPolicy);
    if ORDERER_CAPABILITIES in configMap {
      newGroup := Upgrade(newGroup);
    }
    RebuildDescribed(path, configMap, newGroup);
    return Ok(newGroup);
  }

  /** The in-place upgrade of a group's own empty mod_policies. */
  method Upgrade(g: ConfigGroup) returns (r: ConfigGroup)
    ensures r.version == g.version && r.groups == g.groups
    ensures r.modPolicy == Settled(true, g.modPolicy)
    ensures r.modPolicy == if g.modPolicy == "" then "Admins" else g.modPolicy
    ensures r.values.Keys == g.values.Keys && r.policies.Keys == g.policies.Keys
    ensures forall k | k in g.values :: r.values[k] == SettledValue(true, g.values[k])
    ensures forall k | k in g.policies :: r.policies[k] == SettledPolicy(true, g.policies[k])
  {
    var modPolicy, values, policies := g.modPolicy, g.values, g.policies;
    if modPolicy == "" {
      modPolicy := NEW_MOD_POLICY;
    }
    var todo := g.values.Keys;
    while todo != {}
      invariant todo <= g.values.Keys
      invariant values.Keys == g.values.Keys
      invariant forall k | k in g.values ::
                  values[k] == if k in todo then g.values[k] else SettledValue(true, g.values[k])
    {
      var k :| k in todo;
      if values[k].modPolicy == "" {
        values := values[k := values[k].(modPolicy := NEW_MOD_POLICY)];
      }
      todo := todo - {k};
    }
    todo := g.policies.Keys;
    while todo != {}
      invariant todo <= g.policies.Keys
      invariant policies.Keys == g.policies.Keys
      invariant forall k | k in g.policies ::
                  policies[k] == if k in todo then g.policies[k] else SettledPolicy(true, g.policies[k])
    {
      var k :| k in todo;
      if policies[k].modPolicy == "" {
        policies := policies[k := policies[k].(modPolicy := NEW_MOD_POLICY)];
      }
      todo := todo - {k};
    }
    r := ConfigGroup(g.version, g.groups, values, policies, modPolicy);
  }

  // ------------------------------------------------------------------- round trip

  lemma PathOfChild(root: string, names: seq<string>, k: string)
    ensures Slashed([root] + (names + [k])) == Child(Slashed([root] + names), k)
  {
    var path := [root] + (names + [k]);
    assert path[..|path| - 1] == [root] + names;
  }

  /** `m` agrees with `flat` on all of the keys of `flat`. */
  ghost predicate Extends(m: FlatMap, flat: FlatMap) {
    forall s | s in flat :: s in m && m[s] == flat[s]
  }

  lemma FlattenedMember(root: string, tree: ConfigGroup, names: seq<string>, g: ConfigGroup, kind: Kind, k: string)
    requires LegalTree(root, tree)
    requires Lookup(tree, Address(GroupKind, names)) == Some(GroupElement(g))
    requires Lookup(g, Address(kind, [k])).Some?
    ensures var s := FlatKey(kind, Child(Slashed([root] + names), k));
            s in Flatten(root, tree) && Flatten(root, tree)[s].element == Lookup(g, Address(kind, [k])).value
    ensures Lookup(tree, Address(kind, names + [k])) == Lookup(g, Address(kind, [k]))
  {
    hide Flatten, LegalTree, Slashed;
    LookupThrough(tree, names, g, Address(kind, [k]));
    PathOfChild(root, names, k);
    FlattenAt(root, tree, Address(kind, names + [k]));
  }

  /** Entries the tree does not list have no effect on what is rebuilt. */
  lemma {:induction false} RebuildExtension(
    root: string, tree: ConfigGroup, m: FlatMap, names: seq<string>, g: ConfigGroup)
    requires LegalTree(root, tree) && Extends(m, Flatten(root, tree))
    requires Lookup(tree, Address(GroupKind, names)) == Some(GroupElement(g))
    ensures Rebuild(Slashed([root] + names), m) == Ok(SettledTree(ORDERER_CAPABILITIES in m, g))
    decreases g
  {
    hide Flatten, LegalTree, Slashed, Lookup, FlatKey, KeyOf;
    var path := Slashed([root] + names);
    var upgrade := ORDERER_CAPABILITIES in m;
    FlattenAt(root, tree, Address(GroupKind, names));
    assert HasGroup(m, path) && GroupAt(m, path) == g by { RootedKey(root, GroupKind, names); }
    forall k | k in g.groups
      ensures Rebuild(Child(path, k), m) == Ok(SettledTree(upgrade, g.groups[k]))
    {
      GroupMember(g, k);
      FlattenedMember(root, tree, names, g, GroupKind, k);
      PathOfChild(root, names, k);
      RebuildExtension(root, tree, m, names + [k], g.groups[k]);
    }
    forall k | k in g.values
      ensures HasValue(m, path, k) && ValueAt(m, path, k) == g.values[k]
    {
      ValueMember(g, k);
      FlattenedMember(root, tree, names, g, ValueKind, k);
    }
    forall k | k in g.policies
      ensures HasPolicy(m, path, k) && PolicyAt(m, path, k) == g.policies[k]
    {
      PolicyMember(g, k);
      FlattenedMember(root, tree, names, g, PolicyKind, k);
    }
    RebuildFromMembers(path, m, g);
  }

  lemma RootedKey(root: string, kind: Kind, names: seq<string>)
    ensures KeyOf(root, Address(kind, names)) == FlatKey(kind, Slashed([root] + names))
  {
  }

  lemma GroupMember(g: ConfigGroup, k: string)
    requires k in g.groups
    ensures Lookup(g, Address(GroupKind, [k])) == Some(GroupElement(g.groups[k]))
  {
  }

  lemma ValueMember(g: ConfigGroup, k: string)
    requires k in g.values
    ensures Lookup(g, Address(ValueKind, [k])) == Some(ValueElement(g.values[k]))
  {
  }

  lemma PolicyMember(g: ConfigGroup, k: string)
    requires k in g.policies
    ensures Lookup(g, Address(PolicyKind, [k])) == Some(PolicyElement(g.policies[k]))
  {
  }

  lemma RebuildFromMembers(path: string, m: FlatMap, g: ConfigGroup)
    requires HasGroup(m, path) && GroupAt(m, path) == g
    requires forall k | k in g.groups ::
               Rebuild(Child(path, k), m) == Ok(SettledTree(ORDERER_CAPABILITIES in m, g.groups[k]))
    requires forall k | k in g.values :: HasValue(m, path, k) && ValueAt(m, path, k) == g.values[k]
    requires forall k | k in g.policies :: HasPolicy(m, path, k) && PolicyAt(m, path, k) == g.policies[k]
    ensures Rebuild(path, m) == Ok(SettledTree(ORDERER_CAPABILITIES in m, g))
  {
    hide HasGroup, HasValue, HasPolicy, GroupAt, ValueAt, PolicyAt, Child, Rebuild;
    hide SettledTree, SettledValue, SettledPolicy, Settled;
    var settled := SettledTree(ORDERER_CAPABILITIES in m, g);
    SettledMembers(ORDERER_CAPABILITIES in m, g);
    RebuildDescribed(path, m, settled);
  }

  /** The upgrade applies to exactly the trees rooted at Channel that hold the orderer capabilities. */
  lemma UpgradeApplies(root: string, tree: ConfigGroup)
    requires LegalTree(root, tree)
    ensures ORDERER_CAPABILITIES in Flatten(root, tree)
       <==> root == "Channel" && Lookup(tree, Address(ValueKind, ["Orderer", "Capabilities"])).Some?
  {
    hide Flatten, LegalTree, Lookup, Slashed, KeyOf;
    var a := Address(ValueKind, ["Orderer", "Capabilities"]);
    CapabilitiesKey();
    if ORDERER_CAPABILITIES in Flatten(root, tree) {
      var b := FlattenFrom(root, tree, ORDERER_CAPABILITIES);
      CapabilitiesAddress(root, tree, b);
    }
    if root == "Channel" && Lookup(tree, a).Some? {
      FlattenAt(root, tree, a);
    }
  }

  lemma CapabilitiesAddress(root: string, tree: ConfigGroup, b: Address)
    requires LegalTree(root, tree) && Lookup(tree, b).Some?
    requires KeyOf(root, b) == ORDERER_CAPABILITIES
    ensures root == "Channel" && b == Address(ValueKind, ["Orderer", "Capabilities"])
  {
    hide LegalTree, Lookup, Slashed;
    CapabilitiesKey();
    LegalLookup(root, tree, b);
    assert ValidateConfigID(root) by { RootIsLegal(root, tree); }
    FlatKeyInjective(ValueKind, Slashed(["Channel"] + ["Orderer", "Capabilities"]), b.kind, Slashed([root] + b.names));
    LegalNamesHaveNoSeparators([root] + b.names);
    var p, q := ["Channel"] + ["Orderer", "Capabilities"], [root] + b.names;
    assert NoSeparators(p);
    SlashedInjective(p, q);
    assert p[0] == "Channel" && q[0] == root;
    assert p[1..] == ["Orderer", "Capabilities"] && q[1..] == b.names;
  }

  lemma RootIsLegal(root: string, tree: ConfigGroup)
    requires LegalTree(root, tree)
    ensures ValidateConfigID(root)
  {
  }

  lemma CapabilitiesKey()
    ensures KeyOf("Channel", Address(ValueKind, ["Orderer", "Capabilities"])) == ORDERER_CAPABILITIES
  {
    hide Slashed, Child, FlatKey;
    PathOfChild("Channel", ["Orderer"], "Capabilities");
    PathOfChild("Channel", [], "Orderer");
    RootPath("Channel");
    assert [] + ["Orderer"] == ["Orderer"];
    assert ["Orderer"] + ["Capabilities"] == ["Orderer", "Capabilities"];
    CapabilitiesPath();
    assert FlatKey(ValueKind, "/Channel/Orderer/Capabilities") == ORDERER_CAPABILITIES by { CapabilitiesFlatKey(); }
  }

  lemma CapabilitiesFlatKey()
    ensures FlatKey(ValueKind, "/Channel/Orderer/Capabilities") == ORDERER_CAPABILITIES
  {
    assert "[Value]  " + "/Channel/Orderer/Capabilities" == "[Value]  /Channel/Orderer/Capabilities";
  }

  lemma CapabilitiesPath()
    ensures Child(Child(Child("", "Channel"), "Orderer"), "Capabilities") == "/Channel/Orderer/Capabilities"
  {
    hide Child;
    ChildOf("", "Channel");
    assert "" + "/" + "Channel" == "/Channel";
    ChildOf("/Channel", "Orderer");
    assert "/Channel" + "/" + "Orderer" == "/Channel/Orderer";
    ChildOf("/Channel/Orderer", "Capabilities");
    assert "/Channel/Orderer" + "/" + "Capabilities" == "/Channel/Orderer/Capabilities";
  }

  lemma ChildOf(path: string, key: string)
    ensures Child(path, key) == path + "/" + key
  {
  }

  /**
   Flattening and rebuilding returns the tree, with its empty mod_policies settled when the
   orderer capabilities are present.
   */
  lemma RoundTrip(root: string, tree: ConfigGroup)
    requires LegalTree(root, tree)
    ensures MapConfig(Some(tree), root) == Ok(Flatten(root, tree))
    ensures Rebuild(Child("", root), Flatten(root, tree))
         == Ok(SettledTree(
                 root == "Channel" && Lookup(tree, Address(ValueKind, ["Orderer", "Capabilities"])).Some?,
                 tree))
  {
    UpgradeApplies(root, tree);
    RebuildExtension(root, tree, Flatten(root, tree), [], tree);
    RootPath(root);
  }

  lemma RootPath(root: string)
    ensures Slashed([root] + []) == Child("", root)
  {
    assert [root] + [] == [root];
    assert [root][..0] == [];
  }

  lemma {:induction false} SettlingNothing(g: ConfigGroup)
    ensures SettledTree(false, g) == g
  {
    forall k | k in g.groups ensures SettledTree(false, g.groups[k]) == g.groups[k] {
      SettlingNothing(g.groups[k]);
    }
    assert SettledTree(false, g).groups == g.groups;
    assert SettledTree(false, g).values == g.values;
    assert SettledTree(false, g).policies == g.policies;
  }
}
