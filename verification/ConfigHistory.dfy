/** Replaying an update, updates that only add keys, and whole histories of updates. */
module ConfigHistory {
  import opened Common
  import opened ConfigTree
  import opened ConfigMap
  import opened ConfigUpdate
  import opened ConfigGuarantees

  // ---------------------------------------------------------- the result stays legal

  predicate LegalMembers(g: ConfigGroup) {
    && (forall k | k in g.groups :: ValidateConfigID(k))
    && (forall k | k in g.values :: ValidateConfigID(k))
    && (forall k | k in g.policies :: ValidateConfigID(k))
  }

  ghost predicate LegalGroups(m: FlatMap) {
    forall path | HasGroup(m, path) :: LegalMembers(GroupAt(m, path))
  }

  lemma {:induction false} LegalSubtree(root: string, tree: ConfigGroup, names: seq<string>, g: ConfigGroup)
    requires LegalTree(root, tree)
    requires Lookup(tree, Address(GroupKind, names)) == Some(GroupElement(g))
    ensures LegalMembers(g)
    decreases |names|
  {
    if names != [] {
      LegalSubtree(names[0], tree.groups[names[0]], names[1..], g);
    }
  }

  lemma FlattenLegal(root: string, tree: ConfigGroup)
    requires LegalTree(root, tree)
    ensures LegalGroups(Flatten(root, tree))
  {
    hide Flatten, LegalTree, HasGroup, GroupAt, LegalMembers;
    forall path | HasGroup(Flatten(root, tree), path) ensures LegalMembers(GroupAt(Flatten(root, tree), path)) {
      var names := FlattenGroupAddress(root, tree, path);
      LegalSubtree(root, tree, names, GroupAt(Flatten(root, tree), path));
    }
  }

  lemma MapConfigLegal(group: Option<ConfigGroup>, root: string)
    requires MapConfig(group, root).Ok?
    ensures LegalGroups(MapConfig(group, root).value)
  {
    hide Flatten;
    if group.Some? {
      FlattenLegal(root, group.value);
    }
  }

  lemma OverlayLegal(old_: FlatMap, written: FlatMap, delta: FlatMap)
    requires LegalGroups(old_) && LegalGroups(written) && Overlays(old_, written, delta)
    ensures LegalGroups(old_ + delta)
  {
    hide FlatKey, LegalMembers;
    var m := old_ + delta;
    forall path | HasGroup(m, path) ensures LegalMembers(GroupAt(m, path)) {
      if FlatKey(GroupKind, path) in delta {
        assert HasGroup(written, path) && GroupAt(written, path) == GroupAt(m, path);
      } else {
        assert HasGroup(old_, path) && GroupAt(old_, path) == GroupAt(m, path);
      }
    }
  }

  lemma {:induction false} RebuiltLegal(key: string, path: string, m: FlatMap)
    requires ValidateConfigID(key) && LegalGroups(m) && Rebuild(path, m).Ok?
    ensures LegalTree(key, Rebuild(path, m).value)
    decreases LongKeys(m, |path|)
  {
    hide LegalGroups, ValidateConfigID, HasGroup, GroupAt, Rebuild, Child, LongKeys, HasValue, HasPolicy;
    var r := Rebuild(path, m).value;
    DescribedByRebuild(path, m);
    assert LegalMembers(GroupAt(m, path)) by { LegalAt(m, path); }
    forall k | k in r.groups ensures LegalTree(k, r.groups[k]) {
      GroupIsPresent(m, path);
      LongKeysShrink(m, path, k);
      RebuiltLegal(k, Child(path, k), m);
    }
  }

  lemma LegalAt(m: FlatMap, path: string)
    requires LegalGroups(m) && HasGroup(m, path)
    ensures LegalMembers(GroupAt(m, path))
  {
  }

  /** An accepted update always produces a tree that a validator can be built on. */
  lemma UpdatedIsLegal(vi: Validator, tx: ConfigTx)
    requires Valid(vi) && ChecksPass(vi, tx)
    ensures LegalTree(vi.namespace, Updated(vi, tx))
  {
    hide Flatten, LegalTree, LegalGroups, MapConfig, VerifyReadSet, VerifyDeltaSet, DeltaSet, Overlays, Rebuild, Child;
    FlattenLegal(vi.namespace, vi.group);
    MapConfigLegal(tx.update.writeSet, vi.namespace);
    ChecksImplyOverlay(vi, tx);
    OverlayLegal(vi.configMap, WriteSetOf(vi, tx), DeltaOf(vi, tx));
    RootIsLegal(vi.namespace, vi.group);
    RebuildSucceeds(vi, tx);
    RebuiltLegal(vi.namespace, Child("", vi.namespace), UpdateResult(vi, DeltaOf(vi, tx)));
  }

  // ------------------------------------------------------- deltas of only new keys

  /** The delta touches no element of the current configuration. */
  ghost predicate OnlyNewKeys(vi: Validator, tx: ConfigTx)
    requires Mapped(vi, tx)
  {
    DeltaOf(vi, tx).Keys !! vi.configMap.Keys
  }

  /** New keys that no changed group lists are dropped: only the mod_policy upgrade can show. */
  lemma OnlyNewKeysChangeNothing(vi: Validator, tx: ConfigTx)
    requires Valid(vi) && ChecksPass(vi, tx) && OnlyNewKeys(vi, tx)
    ensures Updated(vi, tx)
         == SettledTree(ORDERER_CAPABILITIES in UpdateResult(vi, DeltaOf(vi, tx)), vi.group)
  {
    hide Flatten, LegalTree, MapConfig, VerifyReadSet, VerifyDeltaSet, DeltaSet, Rebuild, Lookup;
    RebuildSucceeds(vi, tx);
    RootPath(vi.namespace);
    assert Lookup(vi.group, Address(GroupKind, [])) == Some(GroupElement(vi.group)) by { RootLookup(vi.group); }
    RebuildExtension(vi.namespace, vi.group, UpdateResult(vi, DeltaOf(vi, tx)), [], vi.group);
  }

  lemma RootLookup(g: ConfigGroup)
    ensures Lookup(g, Address(GroupKind, [])) == Some(GroupElement(g))
  {
  }

  /** No element has an empty mod_policy. */
  predicate Complete(g: ConfigGroup) {
    && g.modPolicy != ""
    && (forall k | k in g.groups :: Complete(g.groups[k]))
    && (forall k | k in g.values :: g.values[k].modPolicy != "")
    && (forall k | k in g.policies :: g.policies[k].modPolicy != "")
  }

  /** The upgrade leaves exactly the trees alone in which every mod_policy is set. */
  lemma {:induction false} UpgradeFixpoint(g: ConfigGroup)
    ensures SettledTree(true, g) == g <==> Complete(g)
  {
    hide SettledTree;
    var settled := SettledTree(true, g);
    SettledMembers(true, g);
    forall k | k in g.groups ensures SettledTree(true, g.groups[k]) == g.groups[k] <==> Complete(g.groups[k]) {
      UpgradeFixpoint(g.groups[k]);
    }
    if Complete(g) {
      assert settled.groups == g.groups;
      assert settled.values == g.values;
      assert settled.policies == g.policies;
    }
  }

  /** When the delta only adds keys the tree changes exactly when the upgrade has something to fill in. */
  lemma OnlyNewKeysUnchangedWhen(vi: Validator, tx: ConfigTx)
    requires Valid(vi) && ChecksPass(vi, tx) && OnlyNewKeys(vi, tx)
    ensures Updated(vi, tx) == vi.group
       <==> ORDERER_CAPABILITIES !in UpdateResult(vi, DeltaOf(vi, tx)) || Complete(vi.group)
  {
    hide Valid, ChecksPass, Mapped, Updated, SettledTree, Complete, DeltaOf, OnlyNewKeys;
    ChecksNeedMapping(vi, tx);
    OnlyNewKeysChangeNothing(vi, tx);
    SettlingNothing(vi.group);
    UpgradeFixpoint(vi.group);
  }

  // ------------------------------------------------------------------------ replay

  lemma DeltaFromWriteSet(vi: Validator, tx: ConfigTx, k: string)
    requires ChecksPass(vi, tx) && k in DeltaOf(vi, tx)
    ensures tx.update.writeSet.Some? && LegalTree(vi.namespace, tx.update.writeSet.value)
    ensures k in Flatten(vi.namespace, tx.update.writeSet.value)
    ensures DeltaOf(vi, tx)[k] == Flatten(vi.namespace, tx.update.writeSet.value)[k]
  {
    hide Flatten, LegalTree, VerifyReadSet, VerifyDeltaSet;
  }

  ghost predicate DrawnFrom(root: string, delta: FlatMap, written: ConfigGroup) {
    && LegalTree(root, written)
    && forall k | k in delta :: k in Flatten(root, written) && delta[k] == Flatten(root, written)[k]
  }

  /** In the overlay, a group that is in both trees is one of the two. */
  lemma OverlayGroup(
    vi: Validator, written: ConfigGroup, delta: FlatMap, m: FlatMap, names: seq<string>,
    w: ConfigGroup, g: ConfigGroup, g': ConfigGroup)
    requires Rebuilding(vi, delta, m, names, g, g') && DrawnFrom(vi.namespace, delta, written)
    requires Lookup(written, Address(GroupKind, names)) == Some(GroupElement(w))
    ensures var path := Slashed([vi.namespace] + names);
            && HasGroup(m, path) && DescribedBy(path, m, g')
            && (GroupAt(m, path) == w || GroupAt(m, path) == g)
  {
    hide Flatten, LegalTree, KeyOf, Slashed, Rebuild, DescribedBy, Lookup;
    GroupStep(vi, delta, m, names, g, g');
    FlattenAt(vi.namespace, written, Address(GroupKind, names));
    RootedKey(vi.namespace, GroupKind, names);
  }

  lemma RebuiltMember(path: string, m: FlatMap, r: ConfigGroup, a: Address)
    requires HasGroup(m, path) && DescribedBy(path, m, r)
    requires |a.names| == 1 && a.kind != GroupKind
    requires Lookup(GroupAt(m, path), a).Some?
    ensures var s := FlatKey(a.kind, Child(path, a.names[0]));
            Lookup(r, a).Some? && s in m && Lookup(r, a).value.Version() == m[s].element.Version()
  {
    hide FlatKey, Child;
  }

  lemma MemberOfEither(w: ConfigGroup, g: ConfigGroup, x: ConfigGroup, a: Address)
    requires x == w || x == g
    requires Lookup(w, a).Some? && Lookup(g, a).Some?
    ensures Lookup(x, a).Some?
    ensures |a.names| > 1 || (|a.names| == 1 && a.kind == GroupKind) ==>
              a.names[0] in w.groups && a.names[0] in g.groups && a.names[0] in x.groups
  {
  }

  lemma RebuiltSubgroup(path: string, m: FlatMap, r: ConfigGroup, k: string)
    requires HasGroup(m, path) && DescribedBy(path, m, r) && k in GroupAt(m, path).groups
    ensures k in r.groups && Rebuild(Child(path, k), m) == Ok(r.groups[k])
  {
    hide FlatKey, Child, Rebuild, HasValue, HasPolicy, ValueAt, PolicyAt;
  }

  /** What both the written and the current tree hold is still reachable, at the overlay's version. */
  lemma {:induction false} StillReachable(
    vi: Validator, written: ConfigGroup, delta: FlatMap, m: FlatMap, names: seq<string>,
    w: ConfigGroup, g: ConfigGroup, g': ConfigGroup, a: Address)
    requires Rebuilding(vi, delta, m, names, g, g') && DrawnFrom(vi.namespace, delta, written)
    requires Lookup(written, Address(GroupKind, names)) == Some(GroupElement(w))
    requires Lookup(w, a).Some? && Lookup(g, a).Some?
    ensures var s := KeyOf(vi.namespace, Address(a.kind, names + a.names));
            Lookup(g', a).Some? && s in m && Lookup(g', a).value.Version() == m[s].element.Version()
    decreases |a.names|
  {
    hide KeyOf, Slashed, Rebuild, DescribedBy, Rebuilding, DrawnFrom, FlatKey, Child;
    var path := Slashed([vi.namespace] + names);
    OverlayGroup(vi, written, delta, m, names, w, g, g');
    MemberOfEither(w, g, GroupAt(m, path), a);
    if |a.names| == 0 {
      DescribedVersion(path, m, g');
      assert names + a.names == names;
      RootedKey(vi.namespace, GroupKind, names);
    } else {
      var k, rest := a.names[0], a.names[1..];
      assert a.names == [k] + rest;
      PathOfChild(vi.namespace, names, k);
      if |a.names| == 1 && a.kind != GroupKind {
        RebuiltMember(path, m, g', a);
        RootedKey(vi.namespace, a.kind, names + [k]);
        assert a.names == [k];
      } else {
        RebuiltSubgroup(path, m, g', k);
        ChildRebuilding(vi, delta, m, names, g, g', k);
        GroupMember(w, k);
        LookupThrough(written, names, w, Address(GroupKind, [k]));
        StillReachable(
          vi, written, delta, m, names + [k], w.groups[k], g.groups[k], g'.groups[k], Address(a.kind, rest));
        LookupStep(g', a.kind, k, rest);
        assert names + a.names == (names + [k]) + rest;
      }
    }
  }

  lemma ChildRebuilding(
    vi: Validator, delta: FlatMap, m: FlatMap, names: seq<string>, g: ConfigGroup, g': ConfigGroup, k: string)
    requires Rebuilding(vi, delta, m, names, g, g')
    requires k in g.groups && k in g'.groups
    requires Rebuild(Child(Slashed([vi.namespace] + names), k), m) == Ok(g'.groups[k])
    ensures Rebuilding(vi, delta, m, names + [k], g.groups[k], g'.groups[k])
  {
    hide Valid, Slashed, Rebuild;
    GroupMember(g, k);
    LookupThrough(vi.group, names, g, Address(GroupKind, [k]));
    PathOfChild(vi.namespace, names, k);
  }

  /** An element that the delta moved on is in the new tree at the delta's version. */
  lemma BumpedIsReachable(vi: Validator, tx: ConfigTx, k: string) returns (a: Address)
    requires Valid(vi) && ChecksPass(vi, tx)
    requires k in DeltaOf(vi, tx) && k in vi.configMap
    ensures k == KeyOf(vi.namespace, a)
    ensures Lookup(Updated(vi, tx), a).Some?
    ensures Lookup(Updated(vi, tx), a).value.Version() == DeltaOf(vi, tx)[k].element.Version()
  {
    hide Flatten, LegalTree, ChecksPass, Mapped, KeyOf, Updated, Rebuilding, DeltaOf;
    ChecksNeedMapping(vi, tx);
    DeltaFromWriteSet(vi, tx, k);
    var written := tx.update.writeSet.value;
    a := FlattenFrom(vi.namespace, written, k);
    var b := FlattenFrom(vi.namespace, vi.group, k);
    KeysAreDistinct(vi.namespace, written, a, vi.group, b);
    UpdatedIsRebuilding(vi, tx);
    forall j | j in DeltaOf(vi, tx)
      ensures j in Flatten(vi.namespace, written) && DeltaOf(vi, tx)[j] == Flatten(vi.namespace, written)[j]
    {
      DeltaFromWriteSet(vi, tx, j);
    }
    assert [] + a.names == a.names;
    StillReachable(
      vi, written, DeltaOf(vi, tx), UpdateResult(vi, DeltaOf(vi, tx)), [], written, vi.group, Updated(vi, tx), a);
  }

  /** A validator for the tree that the update produced. */
  ghost predicate Successor(vi: Validator, tx: ConfigTx, vi': Validator)
    requires Valid(vi) && ChecksPass(vi, tx)
  {
    && Valid(vi') && vi'.group == Updated(vi, tx)
    && vi'.namespace == vi.namespace && vi'.channelID == vi.channelID
  }

  lemma ReplayRejected(vi: Validator, tx: ConfigTx, vi': Validator, k: string)
    requires Valid(vi) && ChecksPass(vi, tx) && Successor(vi, tx, vi')
    requires k in DeltaOf(vi, tx) && k in vi.configMap
    ensures !ChecksPass(vi', tx)
  {
    hide Flatten, LegalTree, MapConfig, VerifyReadSet, DeltaSet, KeyOf, Updated;
    var a := BumpedIsReachable(vi, tx, k);
    CurrentEntry(vi', [], vi'.group, a);
    assert [] + a.names == a.names;
    assert VerifyDelta(vi, k, DeltaOf(vi, tx)[k], tx.signedData.value);
    assert !VerifyDelta(vi', k, DeltaOf(vi, tx)[k], tx.signedData.value);
  }

  lemma {:induction false} SettledLookup(upgrade: bool, g: ConfigGroup, a: Address)
    ensures Lookup(SettledTree(upgrade, g), a).Some? <==> Lookup(g, a).Some?
    ensures Lookup(g, a).Some? ==> Lookup(SettledTree(upgrade, g), a).value.Version() == Lookup(g, a).value.Version()
    decreases |a.names|
  {
    hide SettledTree;
    SettledMembers(upgrade, g);
    if a.names != [] && a.names[0] in g.groups {
      SettledLookup(upgrade, g.groups[a.names[0]], Address(a.kind, a.names[1..]));
    }
  }

  lemma SettledKey(vi: Validator, vi': Validator, upgrade: bool, k: string)
    requires Valid(vi) && Valid(vi') && vi'.namespace == vi.namespace
    requires vi'.group == SettledTree(upgrade, vi.group)
    ensures k in vi.configMap <==> k in vi'.configMap
    ensures k in vi.configMap ==> vi.configMap[k].element.Version() == vi'.configMap[k].element.Version()
  {
    hide Flatten, LegalTree, KeyOf, SettledTree, Lookup;
    if k in vi.configMap {
      var a := FlattenFrom(vi.namespace, vi.group, k);
      SettledLookup(upgrade, vi.group, a);
      FlattenAt(vi.namespace, vi'.group, a);
    }
    if k in vi'.configMap {
      var a := FlattenFrom(vi.namespace, vi'.group, k);
      SettledLookup(upgrade, vi.group, a);
      FlattenAt(vi.namespace, vi.group, a);
    }
  }

  lemma ReplayAccepted(vi: Validator, tx: ConfigTx, vi': Validator)
    requires Valid(vi) && ChecksPass(vi, tx) && Successor(vi, tx, vi')
    requires OnlyNewKeys(vi, tx)
    ensures ChecksPass(vi', tx)
  {
    hide Valid, MapConfig, DeltaSet, KeyOf, Updated, SettledTree, ValidateModPolicy;
    OnlyNewKeysChangeNothing(vi, tx);
    var upgrade := ORDERER_CAPABILITIES in UpdateResult(vi, DeltaOf(vi, tx));
    forall k
      ensures k in vi.configMap <==> k in vi'.configMap
      ensures k in vi.configMap ==> vi.configMap[k].element.Version() == vi'.configMap[k].element.Version()
    {
      SettledKey(vi, vi', upgrade, k);
    }
    forall k | k in DeltaOf(vi, tx) ensures VerifyDelta(vi', k, DeltaOf(vi, tx)[k], tx.signedData.value) {
      assert VerifyDelta(vi, k, DeltaOf(vi, tx)[k], tx.signedData.value);
    }
  }

  /**
   Replayed on the configuration it produced, an update is rejected exactly when it moved on an
   element that existed.
   */
  lemma Replay(vi: Validator, tx: ConfigTx, vi': Validator)
    requires Valid(vi) && ChecksPass(vi, tx) && Successor(vi, tx, vi')
    ensures ProposeConfigUpdate(vi', tx).Err? <==> !OnlyNewKeys(vi, tx)
  {
    hide ChecksPass, Mapped, Valid, Updated, ProposeConfigUpdate, DeltaOf;
    ChecksNeedMapping(vi, tx);
    assert Valid(vi') by { assert Successor(vi, tx, vi'); }
    AcceptedExactlyWhenChecksPass(vi', tx);
    if OnlyNewKeys(vi, tx) {
      ReplayAccepted(vi, tx, vi');
    } else {
      var k :| k in DeltaOf(vi, tx).Keys && k in vi.configMap.Keys;
      ReplayRejected(vi, tx, vi', k);
    }
  }

  /** What the replay of an update that only names new keys finds is what the update found. */
  lemma OnlyNewKeysAgain(vi: Validator, tx: ConfigTx, vi': Validator)
    requires Valid(vi) && ChecksPass(vi, tx) && Successor(vi, tx, vi') && OnlyNewKeys(vi, tx)
    ensures ChecksPass(vi', tx) && OnlyNewKeys(vi', tx)
    ensures ORDERER_CAPABILITIES in UpdateResult(vi', DeltaOf(vi', tx))
       <==> ORDERER_CAPABILITIES in UpdateResult(vi, DeltaOf(vi, tx))
  {
    hide Valid, MapConfig, DeltaSet, Updated, SettledTree, VerifyReadSet, VerifyDeltaSet;
    ReplayAccepted(vi, tx, vi');
    OnlyNewKeysChangeNothing(vi, tx);
    var upgrade := ORDERER_CAPABILITIES in UpdateResult(vi, DeltaOf(vi, tx));
    forall k ensures k in vi.configMap <==> k in vi'.configMap {
      SettledKey(vi, vi', upgrade, k);
    }
    assert DeltaOf(vi', tx) == DeltaOf(vi, tx);
  }

  /** Settling twice is settling once. */
  lemma {:induction false} SettledOnce(upgrade: bool, g: ConfigGroup)
    ensures SettledTree(upgrade, SettledTree(upgrade, g)) == SettledTree(upgrade, g)
  {
    hide SettledTree;
    var once := SettledTree(upgrade, g);
    var twice := SettledTree(upgrade, once);
    SettledMembers(upgrade, g);
    SettledMembers(upgrade, once);
    forall k | k in g.groups ensures twice.groups[k] == once.groups[k] {
      SettledOnce(upgrade, g.groups[k]);
    }
    assert twice.groups == once.groups;
    assert twice.values == once.values;
    assert twice.policies == once.policies;
  }

  /** The update passes the checks on every validator of the list, each made from its result on the one before. */
  ghost predicate Replays(vis: seq<Validator>, tx: ConfigTx) {
    && vis != []
    && (forall i | 0 <= i < |vis| :: Valid(vis[i]) && ChecksPass(vis[i], tx))
    && forall i | 0 <= i < |vis| - 1 :: Successor(vis[i], tx, vis[i + 1])
  }

  /** The validator made from the result. */
  ghost function NextValidator(vi: Validator, tx: ConfigTx): Validator
    requires Valid(vi) && ChecksPass(vi, tx)
  {
    vi.(sequence := vi.sequence + 1, group := Updated(vi, tx), configMap := Flatten(vi.namespace, Updated(vi, tx)))
  }

  lemma NextIsSuccessor(vi: Validator, tx: ConfigTx)
    requires Valid(vi) && ChecksPass(vi, tx)
    ensures Successor(vi, tx, NextValidator(vi, tx))
  {
    hide LegalTree, Flatten, ChecksPass, Updated;
    UpdatedIsLegal(vi, tx);
  }

  /** An update that only names new keys is accepted again and again, and after the first time changes nothing. */
  lemma {:induction false} ReplayedForEver(vi: Validator, tx: ConfigTx, n: nat) returns (vis: seq<Validator>)
    requires Valid(vi) && ChecksPass(vi, tx) && OnlyNewKeys(vi, tx)
    ensures |vis| == n + 1 && vis[0] == vi && Replays(vis, tx)
    ensures OnlyNewKeys(vis[n], tx)
    ensures n >= 1 ==> forall i | 1 <= i <= n :: vis[i].group == vis[1].group
    ensures ORDERER_CAPABILITIES in UpdateResult(vis[n], DeltaOf(vis[n], tx))
       <==> ORDERER_CAPABILITIES in UpdateResult(vi, DeltaOf(vi, tx))
  {
    hide Valid, ChecksPass, OnlyNewKeys, UpdateResult, DeltaOf, Updated, Mapped, Successor, NextValidator;
    ChecksNeedMapping(vi, tx);
    if n == 0 {
      vis := [vi];
    } else {
      var before := ReplayedForEver(vi, tx, n - 1);
      var last := before[n - 1];
      ChecksNeedMapping(last, tx);
      var next := NextValidator(last, tx);
      NextIsSuccessor(last, tx);
      assert Valid(next) && next.group == Updated(last, tx) by { SuccessorParts(last, tx, next); }
      OnlyNewKeysAgain(last, tx, next);
      ChecksNeedMapping(next, tx);
      vis := before + [next];
      if n >= 2 {
        SameAgain(before[n - 2], last, next, tx);
      }
    }
  }

  lemma SuccessorParts(vi: Validator, tx: ConfigTx, vi': Validator)
    requires Valid(vi) && ChecksPass(vi, tx) && Successor(vi, tx, vi')
    ensures Valid(vi') && vi'.group == Updated(vi, tx)
  {
    hide ChecksPass, Updated;
  }

  lemma SameAgain(vi: Validator, vi': Validator, vi'': Validator, tx: ConfigTx)
    requires Valid(vi) && ChecksPass(vi, tx) && Successor(vi, tx, vi')
    requires ChecksPass(vi', tx) && OnlyNewKeys(vi', tx) && Successor(vi', tx, vi'')
    ensures vi''.group == vi'.group
  {
    hide Valid, ChecksPass, UpdateResult, DeltaOf, Updated, Mapped, SettledTree, ProposeConfigUpdate;
    ChecksNeedMapping(vi, tx);
    ChecksNeedMapping(vi', tx);
    Replay(vi, tx, vi');
    AcceptedExactlyWhenChecksPass(vi', tx);
    OnlyNewKeysChangeNothing(vi, tx);
    OnlyNewKeysChangeNothing(vi', tx);
    OnlyNewKeysAgain(vi, tx, vi');
    SettledOnce(ORDERER_CAPABILITIES in UpdateResult(vi, DeltaOf(vi, tx)), vi.group);
  }

  // --------------------------------------------------------------------- histories

  /** One accepted update: the configuration before it, the policies in force, the transaction. */
  datatype Update = Update(channelID: string, namespace: string, pm: Manager, tx: ConfigTx)

  ghost predicate AcceptedStep(c: Config, u: Update, c': Config) {
    var vi := NewValidator(u.channelID, Some(c), u.namespace, u.pm);
    vi.Ok? && ProposeConfigUpdate(vi.value, u.tx) == Ok(c')
  }

  ghost predicate History(configs: seq<Config>, updates: seq<Update>) {
    && |configs| == |updates| + 1
    && forall i | 0 <= i < |updates| :: AcceptedStep(configs[i], updates[i], configs[i + 1])
  }

  ghost function ValidatorOf(c: Config, u: Update, c': Config): Validator
    requires AcceptedStep(c, u, c')
  {
    NewValidator(u.channelID, Some(c), u.namespace, u.pm).value
  }

  /** The update moved on `b` with the consent of its mod_policy at the time. */
  ghost predicate BumpedBy(c: Config, u: Update, c': Config, b: Address) {
    && AcceptedStep(c, u, c') && c'.channelGroup.Some?
    && AuthorisedBump(ValidatorOf(c, u, c'), u.tx, c'.channelGroup.value, b)
  }

  function OwnIn(c: Config, a: Address): Option<OwnContent> {
    if c.channelGroup.None? then None else OwnOf(Lookup(c.channelGroup.value, a))
  }

  /** Nothing but an empty mod_policy was filled in. */
  predicate Kept(before: Option<OwnContent>, after: Option<OwnContent>) {
    after == before || after == SettledOwn(true, before)
  }

  lemma KeptTwice(x: Option<OwnContent>, y: Option<OwnContent>, z: Option<OwnContent>)
    requires Kept(x, y) && Kept(y, z)
    ensures Kept(x, z)
  {
  }

  lemma SettledIsKept(upgrade: bool, x: Option<OwnContent>)
    ensures Kept(x, SettledOwn(upgrade, x))
  {
  }

  lemma StepIsAuthorised(c: Config, u: Update, c': Config, a: Address)
    requires AcceptedStep(c, u, c')
    ensures c'.sequence == c.sequence + 1
    ensures c'.channelGroup.Some? && LegalTree(u.namespace, c'.channelGroup.value)
    ensures Kept(OwnIn(c, a), OwnIn(c', a)) || exists b :: OnPath(b, a) && BumpedBy(c, u, c', b)
  {
    hide Valid, ChecksPass, Updated, Lookup, OwnOf, SettledOwn, LegalTree, ProposeConfigUpdate,
      MapConfig, AuthorisedBump, OnPath;
    var vi := ValidatorOf(c, u, c');
    NewValidatorIsValid(u.channelID, Some(c), u.namespace, u.pm);
    AcceptedExactlyWhenChecksPass(vi, u.tx);
    UpdatedIsLegal(vi, u.tx);
    ChangesAreAuthorised(vi, u.tx, a);
    ChecksNeedMapping(vi, u.tx);
    var upgrade := ORDERER_CAPABILITIES in UpdateResult(vi, DeltaOf(vi, u.tx));
    SettledIsKept(upgrade, OwnOf(Lookup(vi.group, a)));
    if b :| OnPath(b, a) && AuthorisedBump(vi, u.tx, Updated(vi, u.tx), b) {
      assert BumpedBy(c, u, c', b);
    }
  }

  ghost predicate BumpedSomewhere(configs: seq<Config>, updates: seq<Update>, a: Address)
    requires |configs| == |updates| + 1
  {
    exists i, b :: 0 <= i < |updates| && OnPath(b, a) && BumpedBy(configs[i], updates[i], configs[i + 1], b)
  }

  /**
   Over any history of accepted updates the sequence number grows by one per update, and an
   element whose own content changed had, at some update, itself or a group above it moved on by
   one version with its mod_policy satisfied.
   */
  lemma {:induction false} HistoryIsAuthorised(configs: seq<Config>, updates: seq<Update>, a: Address)
    requires History(configs, updates)
    ensures configs[|updates|].sequence == configs[0].sequence + |updates|
    ensures Kept(OwnIn(configs[0], a), OwnIn(configs[|updates|], a)) || BumpedSomewhere(configs, updates, a)
    decreases |updates|
  {
    hide AcceptedStep, BumpedBy, OwnIn, Kept, OnPath;
    var n := |updates|;
    if n == 0 {
      assert Kept(OwnIn(configs[0], a), OwnIn(configs[0], a)) by { KeptItself(OwnIn(configs[0], a)); }
    } else {
      var cs, us := configs[..n], updates[..n - 1];
      HistoryIsAuthorised(cs, us, a);
      StepIsAuthorised(configs[n - 1], updates[n - 1], configs[n], a);
      if BumpedSomewhere(cs, us, a) {
        var i, b :| 0 <= i < |us| && OnPath(b, a) && BumpedBy(cs[i], us[i], cs[i + 1], b);
        assert BumpedBy(configs[i], updates[i], configs[i + 1], b);
      } else if Kept(OwnIn(configs[n - 1], a), OwnIn(configs[n], a)) {
        KeptTwice(OwnIn(configs[0], a), OwnIn(configs[n - 1], a), OwnIn(configs[n], a));
      }
    }
  }

  lemma KeptItself(x: Option<OwnContent>)
    ensures Kept(x, x)
  {
  }
}
