/** What holds of every configuration that an accepted update produces. */
module ConfigGuarantees {
  import opened Common
  import opened ConfigTree
  import opened ConfigMap
  import opened ConfigUpdate
  import opened ConfigPolicies

  // --------------------------------------------- acceptance is decided by the checks

  ghost predicate Mapped(vi: Validator, tx: ConfigTx) {
    && tx.ConfigTx?
    && MapConfig(tx.update.readSet, vi.namespace).Ok?
    && MapConfig(tx.update.writeSet, vi.namespace).Ok?
  }

  ghost function ReadSetOf(vi: Validator, tx: ConfigTx): FlatMap
    requires Mapped(vi, tx)
  {
    MapConfig(tx.update.readSet, vi.namespace).value
  }

  ghost function WriteSetOf(vi: Validator, tx: ConfigTx): FlatMap
    requires Mapped(vi, tx)
  {
    MapConfig(tx.update.writeSet, vi.namespace).value
  }

  ghost function DeltaOf(vi: Validator, tx: ConfigTx): FlatMap
    requires Mapped(vi, tx)
  {
    DeltaSet(ReadSetOf(vi, tx), WriteSetOf(vi, tx))
  }

  /** The checks that come before the delta is laid over the configuration. */
  ghost predicate ChecksPass(vi: Validator, tx: ConfigTx) {
    && Mapped(vi, tx)
    && tx.update.channelID == vi.channelID
    && VerifyReadSet(vi, ReadSetOf(vi, tx))
    && tx.signedData.Ok?
    && VerifyDeltaSet(vi, DeltaOf(vi, tx), tx.signedData.value)
  }

  /** Every key holds an element of the kind its prefix names. */
  ghost predicate WellKinded(m: FlatMap) {
    forall kind, path | FlatKey(kind, path) in m :: KindOf(m[FlatKey(kind, path)].element) == kind
  }

  ghost predicate MembersPresent(m: FlatMap, path: string, g: ConfigGroup) {
    && (forall k | k in g.groups :: FlatKey(GroupKind, Child(path, k)) in m)
    && (forall k | k in g.values :: FlatKey(ValueKind, Child(path, k)) in m)
    && (forall k | k in g.policies :: FlatKey(PolicyKind, Child(path, k)) in m)
  }

  /** Every member that a group of `m` lists has its own entry. */
  ghost predicate Closed(m: FlatMap) {
    forall path | HasGroup(m, path) :: MembersPresent(m, path, GroupAt(m, path))
  }

  lemma FlattenWellKinded(root: string, tree: ConfigGroup)
    requires LegalTree(root, tree)
    ensures WellKinded(Flatten(root, tree))
  {
    hide Flatten, LegalTree, FlatKey;
    var m := Flatten(root, tree);
    forall kind, path | FlatKey(kind, path) in m ensures KindOf(m[FlatKey(kind, path)].element) == kind {
      var a := FlattenFrom(root, tree, FlatKey(kind, path));
      RootedKey(root, a.kind, a.names);
      FlatKeyInjective(kind, path, a.kind, Slashed([root] + a.names));
    }
  }

  lemma FlattenGroupAddress(root: string, tree: ConfigGroup, path: string) returns (names: seq<string>)
    requires LegalTree(root, tree)
    requires HasGroup(Flatten(root, tree), path)
    ensures path == Slashed([root] + names)
    ensures Lookup(tree, Address(GroupKind, names)) == Some(GroupElement(GroupAt(Flatten(root, tree), path)))
  {
    hide Flatten, LegalTree, FlatKey;
    var a := FlattenFrom(root, tree, FlatKey(GroupKind, path));
    names := a.names;
    RootedKey(root, a.kind, a.names);
    FlatKeyInjective(GroupKind, path, a.kind, Slashed([root] + a.names));
  }

  lemma FlattenMembersPresent(root: string, tree: ConfigGroup, path: string)
    requires LegalTree(root, tree)
    requires HasGroup(Flatten(root, tree), path)
    ensures MembersPresent(Flatten(root, tree), path, GroupAt(Flatten(root, tree), path))
  {
    hide Flatten, LegalTree, FlatKey, Lookup, Child, HasGroup, GroupAt;
    var m := Flatten(root, tree);
    var g := GroupAt(m, path);
    var names := FlattenGroupAddress(root, tree, path);
    forall k | k in g.groups ensures FlatKey(GroupKind, Child(path, k)) in m {
      GroupMember(g, k);
      FlattenedMember(root, tree, names, g, GroupKind, k);
    }
    forall k | k in g.values ensures FlatKey(ValueKind, Child(path, k)) in m {
      ValueMember(g, k);
      FlattenedMember(root, tree, names, g, ValueKind, k);
    }
    forall k | k in g.policies ensures FlatKey(PolicyKind, Child(path, k)) in m {
      PolicyMember(g, k);
      FlattenedMember(root, tree, names, g, PolicyKind, k);
    }
  }

  lemma FlattenClosed(root: string, tree: ConfigGroup)
    requires LegalTree(root, tree)
    ensures Closed(Flatten(root, tree))
  {
    hide Flatten, LegalTree, HasGroup, GroupAt, MembersPresent;
    forall path | HasGroup(Flatten(root, tree), path)
      ensures MembersPresent(Flatten(root, tree), path, GroupAt(Flatten(root, tree), path))
    {
      FlattenMembersPresent(root, tree, path);
    }
  }

  lemma MapConfigClosed(group: Option<ConfigGroup>, root: string)
    requires MapConfig(group, root).Ok?
    ensures Closed(MapConfig(group, root).value) && WellKinded(MapConfig(group, root).value)
  {
    hide Flatten;
    if group.Some? {
      FlattenClosed(root, group.value);
      FlattenWellKinded(root, group.value);
    }
  }

  /** `delta` is a part of `written` that, with `old`, covers all of it. */
  ghost predicate Overlays(old_: FlatMap, written: FlatMap, delta: FlatMap) {
    && (forall k | k in delta :: k in written && delta[k] == written[k])
    && written.Keys <= old_.Keys + delta.Keys
  }

  lemma OverlayWellKinded(old_: FlatMap, written: FlatMap, delta: FlatMap)
    requires WellKinded(old_) && WellKinded(written) && Overlays(old_, written, delta)
    ensures WellKinded(old_ + delta)
  {
    hide FlatKey;
  }

  lemma OverlayClosed(old_: FlatMap, written: FlatMap, delta: FlatMap)
    requires Closed(old_) && Closed(written) && Overlays(old_, written, delta)
    ensures Closed(old_ + delta)
  {
    hide FlatKey, Child;
    var m := old_ + delta;
    forall path | HasGroup(m, path) ensures MembersPresent(m, path, GroupAt(m, path)) {
      if FlatKey(GroupKind, path) in delta {
        assert HasGroup(written, path) && GroupAt(written, path) == GroupAt(m, path);
        assert MembersPresent(written, path, GroupAt(m, path));
      } else {
        assert HasGroup(old_, path) && GroupAt(old_, path) == GroupAt(m, path);
        assert MembersPresent(old_, path, GroupAt(m, path));
      }
    }
  }

  lemma ClosedHasMembers(m: FlatMap, path: string)
    requires Closed(m) && WellKinded(m) && HasGroup(m, path)
    ensures HasMembers(path, m, GroupAt(m, path))
    ensures forall k | k in GroupAt(m, path).groups :: HasGroup(m, Child(path, k))
  {
    hide FlatKey, Child, GroupAt;
    assert MembersPresent(m, path, GroupAt(m, path));
  }

  /** Rebuilding from a closed map always succeeds. */
  lemma {:induction false} RebuildClosed(m: FlatMap, path: string)
    requires Closed(m) && WellKinded(m) && HasGroup(m, path)
    ensures Rebuild(path, m).Ok?
    decreases LongKeys(m, |path|)
  {
    hide Closed, WellKinded, HasGroup, GroupAt, HasMembers, Child, LongKeys;
    ClosedHasMembers(m, path);
    forall k | k in GroupAt(m, path).groups ensures Rebuild(Child(path, k), m).Ok? {
      GroupIsPresent(m, path);
      LongKeysShrink(m, path, k);
      RebuildClosed(m, Child(path, k));
    }
  }

  lemma GroupIsPresent(m: FlatMap, path: string)
    requires HasGroup(m, path)
    ensures FlatKey(GroupKind, path) in m
  {
  }

  lemma RootIsPresent(vi: Validator)
    requires Valid(vi)
    ensures HasGroup(vi.configMap, Child("", vi.namespace))
    ensures GroupAt(vi.configMap, Child("", vi.namespace)) == vi.group
  {
    hide Flatten, LegalTree;
    FlattenAt(vi.namespace, vi.group, Address(GroupKind, []));
    RootPath(vi.namespace);
  }

  lemma ChecksImplyOverlay(vi: Validator, tx: ConfigTx)
    requires ChecksPass(vi, tx)
    ensures Overlays(vi.configMap, WriteSetOf(vi, tx), DeltaOf(vi, tx))
    ensures VerifyFullProposedConfig(WriteSetOf(vi, tx), UpdateResult(vi, DeltaOf(vi, tx)))
  {
    hide MapConfig, VerifyDeltaSet;
  }

  lemma ProposedIsClosed(vi: Validator, tx: ConfigTx)
    requires Valid(vi) && ChecksPass(vi, tx)
    ensures Closed(UpdateResult(vi, DeltaOf(vi, tx))) && WellKinded(UpdateResult(vi, DeltaOf(vi, tx)))
  {
    hide Flatten, LegalTree, Closed, WellKinded, DeltaSet, VerifyReadSet, VerifyDeltaSet, MapConfig, Overlays;
    FlattenClosed(vi.namespace, vi.group);
    FlattenWellKinded(vi.namespace, vi.group);
    MapConfigClosed(tx.update.writeSet, vi.namespace);
    ChecksImplyOverlay(vi, tx);
    OverlayClosed(vi.configMap, WriteSetOf(vi, tx), DeltaOf(vi, tx));
    OverlayWellKinded(vi.configMap, WriteSetOf(vi, tx), DeltaOf(vi, tx));
  }

  lemma RootSurvives(vi: Validator, delta: FlatMap)
    requires Valid(vi) && WellKinded(UpdateResult(vi, delta))
    ensures HasGroup(UpdateResult(vi, delta), Child("", vi.namespace))
  {
    hide Valid, Child;
    RootIsPresent(vi);
  }

  /** The rebuilt tree after an update whose checks pass. */
  ghost function Updated(vi: Validator, tx: ConfigTx): ConfigGroup
    requires Valid(vi) && ChecksPass(vi, tx)
  {
    RebuildSucceeds(vi, tx);
    Rebuild(Child("", vi.namespace), UpdateResult(vi, DeltaOf(vi, tx))).value
  }

  lemma RebuildSucceeds(vi: Validator, tx: ConfigTx)
    requires Valid(vi) && ChecksPass(vi, tx)
    ensures Rebuild(Child("", vi.namespace), UpdateResult(vi, DeltaOf(vi, tx))).Ok?
  {
    hide Valid, ChecksPass, Closed, WellKinded, UpdateResult, Child, Rebuild, Mapped;
    assert Mapped(vi, tx) by { ChecksNeedMapping(vi, tx); }
    ProposedIsClosed(vi, tx);
    RootSurvives(vi, DeltaOf(vi, tx));
    RebuildClosed(UpdateResult(vi, DeltaOf(vi, tx)), Child("", vi.namespace));
  }

  lemma ChecksNeedMapping(vi: Validator, tx: ConfigTx)
    requires ChecksPass(vi, tx)
    ensures Mapped(vi, tx)
  {
  }

  /**
   Once the read-set and delta checks pass nothing later fails: an update is accepted exactly
   when they do.
   */
  lemma AcceptedExactlyWhenChecksPass(vi: Validator, tx: ConfigTx)
    requires Valid(vi)
    ensures ProposeConfigUpdate(vi, tx).Ok? <==> ChecksPass(vi, tx)
    ensures ChecksPass(vi, tx) ==>
              ProposeConfigUpdate(vi, tx) == Ok(Config(vi.sequence + 1, Some(Updated(vi, tx))))
  {
    hide Valid, MapConfig, VerifyReadSet, VerifyDeltaSet, VerifyFullProposedConfig, DeltaSet,
      UpdateResult, Child, Rebuild;
    if ChecksPass(vi, tx) {
      ChecksImplyOverlay(vi, tx);
      RebuildSucceeds(vi, tx);
    }
  }

  /** The constructor accepts exactly the legal configurations, and what it builds is valid. */
  lemma NewValidatorIsValid(channelID: string, config: Option<Config>, namespace: string, pm: Manager)
    ensures NewValidator(channelID, config, namespace, pm).Ok?
       <==> && config.Some? && config.value.channelGroup.Some?
            && ValidateChannelID(channelID) && LegalTree(namespace, config.value.channelGroup.value)
    ensures NewValidator(channelID, config, namespace, pm).Ok? ==>
              var vi := NewValidator(channelID, config, namespace, pm).value;
              && Valid(vi) && Some(vi.group) == config.value.channelGroup && vi.sequence == config.value.sequence
              && vi.channelID == channelID && vi.namespace == namespace && vi.pm == pm
  {
    hide Flatten, LegalTree, ValidateChannelID;
  }

  /** Validation accepts exactly what proposing the same update would produce. */
  lemma ValidateMatchesPropose(vi: Validator, env: ConfigEnvelope)
    ensures Validate(vi, Some(env))
       <==> env.config.Some? && ProposeConfigUpdate(vi, env.lastUpdate) == Ok(env.config.value)
  {
    hide AuthorizeUpdate, Rebuild, Child;
  }

  // ------------------------------------------------------- changes are authorised

  /** What an element says itself: a group's members count by name only. */
  datatype OwnContent =
    | OwnGroup(version: nat, modPolicy: string, groups: set<string>, values: set<string>, policies: set<string>)
    | OwnValue(value: ConfigValue)
    | OwnPolicy(policy: ConfigPolicy)

  function OwnOf(e: Option<Element>): Option<OwnContent> {
    match e
    case None => None
    case Some(GroupElement(g)) => Some(OwnGroup(g.version, g.modPolicy, g.groups.Keys, g.values.Keys, g.policies.Keys))
    case Some(ValueElement(v)) => Some(OwnValue(v))
    case Some(PolicyElement(p)) => Some(OwnPolicy(p))
  }

  function SettledOwn(upgrade: bool, own: Option<OwnContent>): Option<OwnContent> {
    match own
    case None => None
    case Some(OwnGroup(version, modPolicy, groups, values, policies)) =>
      Some(OwnGroup(version, Settled(upgrade, modPolicy), groups, values, policies))
    case Some(OwnValue(v)) => Some(OwnValue(SettledValue(upgrade, v)))
    case Some(OwnPolicy(p)) => Some(OwnPolicy(SettledPolicy(upgrade, p)))
  }

  /** `b` is `a` itself or a group above it. */
  predicate OnPath(b: Address, a: Address) {
    b == a || (b.kind == GroupKind && b.names <= a.names)
  }

  /** The element at `b` is in both trees and moved one version on. */
  predicate Moved(g: ConfigGroup, g': ConfigGroup, b: Address) {
    && Lookup(g, b).Some? && Lookup(g', b).Some?
    && Lookup(g', b).value.Version() == Lookup(g, b).value.Version() + 1
  }

  ghost predicate Bumps(old_: FlatMap, delta: FlatMap) {
    forall k | k in delta && k in old_ :: delta[k].element.Version() == old_[k].element.Version() + 1
  }

  /** The overlay `m` of a delta on the configuration, with the tree rebuilt at `names`. */
  ghost predicate Rebuilding(
    vi: Validator, delta: FlatMap, m: FlatMap, names: seq<string>, g: ConfigGroup, g': ConfigGroup)
  {
    && Valid(vi) && m == vi.configMap + delta && Bumps(vi.configMap, delta)
    && Lookup(vi.group, Address(GroupKind, names)) == Some(GroupElement(g))
    && Rebuild(Slashed([vi.namespace] + names), m) == Ok(g')
  }

  lemma CurrentEntry(vi: Validator, names: seq<string>, g: ConfigGroup, a: Address)
    requires Valid(vi)
    requires Lookup(vi.group, Address(GroupKind, names)) == Some(GroupElement(g))
    requires Lookup(g, a).Some?
    ensures var b := Address(a.kind, names + a.names);
            && Lookup(vi.group, b) == Lookup(g, a)
            && KeyOf(vi.namespace, b) in vi.configMap
            && vi.configMap[KeyOf(vi.namespace, b)].element == Lookup(g, a).value
            && vi.configMap[KeyOf(vi.namespace, b)] == Entry(vi.namespace, vi.group, b)
  {
    hide Flatten, LegalTree, KeyOf, Lookup;
    LookupThrough(vi.group, names, g, a);
    FlattenAt(vi.namespace, vi.group, Address(a.kind, names + a.names));
  }

  /** A rebuilt group is the current one, or its key is in the delta and its version moved on. */
  lemma GroupStep(vi: Validator, delta: FlatMap, m: FlatMap, names: seq<string>, g: ConfigGroup, g': ConfigGroup)
    requires Rebuilding(vi, delta, m, names, g, g')
    ensures var path := Slashed([vi.namespace] + names);
            && HasGroup(m, path) && DescribedBy(path, m, g')
            && if FlatKey(GroupKind, path) in delta then g'.version == g.version + 1 else GroupAt(m, path) == g
  {
    hide Valid, KeyOf, Slashed, Rebuild, DescribedBy, Child;
    var path := Slashed([vi.namespace] + names);
    CurrentEntry(vi, names, g, Address(GroupKind, []));
    assert names + [] == names;
    RootedKey(vi.namespace, GroupKind, names);
    DescribedByRebuild(path, m);
    DescribedVersion(path, m, g');
  }

  lemma DescribedVersion(path: string, m: FlatMap, r: ConfigGroup)
    requires HasGroup(m, path) && DescribedBy(path, m, r)
    ensures r.version == GroupAt(m, path).version
  {
  }

  lemma OwnGroupKept(path: string, m: FlatMap, g: ConfigGroup, r: ConfigGroup)
    requires HasGroup(m, path) && DescribedBy(path, m, r) && GroupAt(m, path) == g
    ensures OwnOf(Some(GroupElement(r))) == SettledOwn(ORDERER_CAPABILITIES in m, OwnOf(Some(GroupElement(g))))
  {
  }

  /** A rebuilt value or policy is the current one, or its key is in the delta and its version moved on. */
  lemma MemberStep(
    vi: Validator, delta: FlatMap, m: FlatMap, names: seq<string>, g: ConfigGroup, g': ConfigGroup, a: Address)
    requires Rebuilding(vi, delta, m, names, g, g')
    requires GroupAtPath(vi, m, names, g, g')
    requires |a.names| == 1 && a.kind != GroupKind
    ensures OwnOf(Lookup(g', a)) == SettledOwn(ORDERER_CAPABILITIES in m, OwnOf(Lookup(g, a)))
         || (Moved(g, g', a) && KeyOf(vi.namespace, Address(a.kind, names + a.names)) in delta)
  {
    hide Valid, KeyOf, Slashed, Rebuild, Child, FlatKey, Settled;
    var k := a.names[0];
    assert a.names == [k];
    if Lookup(g, a).Some? {
      CurrentEntry(vi, names, g, a);
      PathOfChild(vi.namespace, names, k);
      RootedKey(vi.namespace, a.kind, names + [k]);
    } else {
      NoMemberStep(vi, m, names, g, g', a);
    }
  }

  lemma NoMemberStep(vi: Validator, m: FlatMap, names: seq<string>, g: ConfigGroup, g': ConfigGroup, a: Address)
    requires GroupAtPath(vi, m, names, g, g') && |a.names| == 1 && a.kind != GroupKind && Lookup(g, a).None?
    ensures Lookup(g', a).None?
  {
    hide KeyOf, Slashed, Rebuild, Child, FlatKey, Settled;
  }

  ghost predicate GroupAtPath(vi: Validator, m: FlatMap, names: seq<string>, g: ConfigGroup, g': ConfigGroup) {
    var path := Slashed([vi.namespace] + names);
    HasGroup(m, path) && DescribedBy(path, m, g') && GroupAt(m, path) == g
  }

  lemma SubgroupStep(
    vi: Validator, delta: FlatMap, m: FlatMap, names: seq<string>, g: ConfigGroup, g': ConfigGroup, k: string)
    requires Rebuilding(vi, delta, m, names, g, g')
    requires GroupAtPath(vi, m, names, g, g')
    ensures k in g.groups <==> k in g'.groups
    ensures k in g.groups ==> Rebuilding(vi, delta, m, names + [k], g.groups[k], g'.groups[k])
  {
    hide Valid, KeyOf, Slashed, Rebuild, HasValue, HasPolicy, ValueAt, PolicyAt;
    if k in g.groups {
      GroupMember(g, k);
      LookupThrough(vi.group, names, g, Address(GroupKind, [k]));
      PathOfChild(vi.namespace, names, k);
    }
  }

  lemma LookupStep(g: ConfigGroup, kind: Kind, k: string, names: seq<string>)
    requires k in g.groups && (kind == GroupKind || names != [])
    ensures Lookup(g, Address(kind, [k] + names)) == Lookup(g.groups[k], Address(kind, names))
  {
    assert ([k] + names)[1..] == names;
  }

  /**
   Walking down the path of an address, either everything on it is kept or the first group that
   is not, or the element itself, was moved on by the delta.
   */
  lemma {:induction false} Descend(
    vi: Validator, delta: FlatMap, m: FlatMap, names: seq<string>, g: ConfigGroup, g': ConfigGroup, a: Address)
    returns (kept: bool, b: Address)
    requires Rebuilding(vi, delta, m, names, g, g')
    ensures kept ==> OwnOf(Lookup(g', a)) == SettledOwn(ORDERER_CAPABILITIES in m, OwnOf(Lookup(g, a)))
    ensures !kept ==> OnPath(b, a) && Moved(g, g', b)
                      && KeyOf(vi.namespace, Address(b.kind, names + b.names)) in delta
    decreases |a.names|, 1
  {
    hide Rebuilding, KeyOf, Slashed, Rebuild, DescribedBy, SettledOwn, Valid, OnPath, Moved, Lookup, OwnOf, Child;
    kept, b := true, a;
    var path := Slashed([vi.namespace] + names);
    GroupStep(vi, delta, m, names, g, g');
    if FlatKey(GroupKind, path) in delta {
      kept, b := false, Address(GroupKind, []);
      assert names + [] == names;
      RootedKey(vi.namespace, GroupKind, names);
      RootIsOnPath(g, g', a);
    } else if |a.names| == 0 {
      OwnGroupKept(path, m, g, g');
      RootKept(m, g, g', a);
    } else if |a.names| == 1 && a.kind != GroupKind {
      MemberStep(vi, delta, m, names, g, g', a);
      if OwnOf(Lookup(g', a)) != SettledOwn(ORDERER_CAPABILITIES in m, OwnOf(Lookup(g, a))) {
        kept := false;
        ItselfIsOnPath(a);
      }
    } else {
      kept, b := DescendBelow(vi, delta, m, names, g, g', a);
    }
  }

  lemma {:induction false} DescendBelow(
    vi: Validator, delta: FlatMap, m: FlatMap, names: seq<string>, g: ConfigGroup, g': ConfigGroup, a: Address)
    returns (kept: bool, b: Address)
    requires Rebuilding(vi, delta, m, names, g, g') && GroupAtPath(vi, m, names, g, g')
    requires |a.names| >= 1 && (|a.names| >= 2 || a.kind == GroupKind)
    ensures kept ==> OwnOf(Lookup(g', a)) == SettledOwn(ORDERER_CAPABILITIES in m, OwnOf(Lookup(g, a)))
    ensures !kept ==> OnPath(b, a) && Moved(g, g', b)
                      && KeyOf(vi.namespace, Address(b.kind, names + b.names)) in delta
    decreases |a.names|, 0
  {
    hide Rebuilding, GroupAtPath, KeyOf, SettledOwn, OnPath, Moved, Lookup, OwnOf;
    var k, rest := a.names[0], a.names[1..];
    assert a.names == [k] + rest;
    SubgroupStep(vi, delta, m, names, g, g', k);
    kept, b := true, a;
    if k in g.groups {
      var c;
      kept, c := Descend(vi, delta, m, names + [k], g.groups[k], g'.groups[k], Address(a.kind, rest));
      LookupStep(g, a.kind, k, rest);
      LookupStep(g', a.kind, k, rest);
      b := Address(c.kind, [k] + c.names);
      if !kept {
        MovedStep(g, g', k, c);
        OnPathBelow(c, a, k);
        assert names + b.names == (names + [k]) + c.names;
      }
    } else {
      NothingThere(g, g', a, m);
    }
  }

  lemma RootIsOnPath(g: ConfigGroup, g': ConfigGroup, a: Address)
    ensures OnPath(Address(GroupKind, []), a)
    ensures g'.version == g.version + 1 ==> Moved(g, g', Address(GroupKind, []))
  {
  }

  lemma ItselfIsOnPath(a: Address)
    ensures OnPath(a, a)
  {
  }

  lemma OnPathBelow(c: Address, a: Address, k: string)
    requires a.names != [] && a.names[0] == k && OnPath(c, Address(a.kind, a.names[1..]))
    ensures OnPath(Address(c.kind, [k] + c.names), a)
  {
    assert a.names == [k] + a.names[1..];
  }

  lemma RootKept(m: FlatMap, g: ConfigGroup, g': ConfigGroup, a: Address)
    requires a.names == []
    requires OwnOf(Some(GroupElement(g'))) == SettledOwn(ORDERER_CAPABILITIES in m, OwnOf(Some(GroupElement(g))))
    ensures OwnOf(Lookup(g', a)) == SettledOwn(ORDERER_CAPABILITIES in m, OwnOf(Lookup(g, a)))
  {
  }

  lemma NothingThere(g: ConfigGroup, g': ConfigGroup, a: Address, m: FlatMap)
    requires |a.names| >= 1 && (|a.names| >= 2 || a.kind == GroupKind)
    requires a.names[0] !in g.groups && a.names[0] !in g'.groups
    ensures OwnOf(Lookup(g', a)) == SettledOwn(ORDERER_CAPABILITIES in m, OwnOf(Lookup(g, a)))
  {
  }

  lemma MovedStep(g: ConfigGroup, g': ConfigGroup, k: string, c: Address)
    requires k in g.groups && k in g'.groups && Moved(g.groups[k], g'.groups[k], c)
    ensures Moved(g, g', Address(c.kind, [k] + c.names))
  {
    LookupStep(g, c.kind, k, c.names);
    LookupStep(g', c.kind, k, c.names);
  }

  /** The element at `b` was moved on by one version and its mod_policy before the update accepted the signatures. */
  ghost predicate AuthorisedBump(vi: Validator, tx: ConfigTx, new_: ConfigGroup, b: Address) {
    && Moved(vi.group, new_, b)
    && tx.ConfigTx? && tx.signedData.Ok?
    && Allowed(vi.pm, b, Lookup(vi.group, b).value.ModPolicy(), tx.signedData.value)
  }

  lemma UpdatedIsRebuilding(vi: Validator, tx: ConfigTx)
    requires Valid(vi) && ChecksPass(vi, tx)
    ensures Rebuilding(vi, DeltaOf(vi, tx), UpdateResult(vi, DeltaOf(vi, tx)), [], vi.group, Updated(vi, tx))
  {
    hide Valid, MapConfig, VerifyReadSet, DeltaSet, Rebuild;
    RootPath(vi.namespace);
    RebuildSucceeds(vi, tx);
  }

  lemma DeltaIsAuthorised(vi: Validator, tx: ConfigTx, b: Address)
    requires Valid(vi) && ChecksPass(vi, tx)
    requires Moved(vi.group, Updated(vi, tx), b) && KeyOf(vi.namespace, b) in DeltaOf(vi, tx)
    ensures AuthorisedBump(vi, tx, Updated(vi, tx), b)
  {
    hide Valid, MapConfig, VerifyReadSet, DeltaSet, KeyOf, Updated, Allowed, ModPolicySatisfied;
    CurrentEntry(vi, [], vi.group, b);
    AsksTheNamedPolicy(vi.pm, vi.namespace, vi.group, b, tx.signedData.value);
    assert [] + b.names == b.names;
    assert VerifyDelta(vi, KeyOf(vi.namespace, b), DeltaOf(vi, tx)[KeyOf(vi.namespace, b)], tx.signedData.value);
  }

  /**
   If an element's own content differs between the current and the new tree by more than the
   empty mod_policy upgrade, or it appears or vanishes, then it or a group above it was there
   before, moved on by exactly one version, and had its mod_policy satisfied.
   */
  lemma ChangesAreAuthorised(vi: Validator, tx: ConfigTx, a: Address)
    requires Valid(vi) && ChecksPass(vi, tx)
    ensures || OwnOf(Lookup(Updated(vi, tx), a))
               == SettledOwn(ORDERER_CAPABILITIES in UpdateResult(vi, DeltaOf(vi, tx)), OwnOf(Lookup(vi.group, a)))
            || exists b :: OnPath(b, a) && AuthorisedBump(vi, tx, Updated(vi, tx), b)
  {
    hide Valid, ChecksPass, Mapped, Updated, Rebuilding, AuthorisedBump, Moved, Lookup, SettledOwn, OwnOf, OnPath;
    ChecksNeedMapping(vi, tx);
    var delta := DeltaOf(vi, tx);
    UpdatedIsRebuilding(vi, tx);
    var kept, b := Descend(vi, delta, UpdateResult(vi, delta), [], vi.group, Updated(vi, tx), a);
    if !kept {
      assert [] + b.names == b.names;
      DeltaIsAuthorised(vi, tx, b);
    }
  }
}
