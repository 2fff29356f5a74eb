/**
 Writing a whole tree: which updates of this form are accepted, and that they yield that tree.
 Writing only new keys: accepted without a signature, and without effect on what was there.
 */
module ConfigReach {
  import opened Common
  import opened ConfigTree
  import opened ConfigMap
  import opened Update = ConfigUpdate
  import opened ConfigPolicies
  import opened ConfigGuarantees
  import opened ConfigAcceptance
  import opened ConfigHistory

  /** The element keeps its version. */
  predicate SameVersion(g: ConfigGroup, t: ConfigGroup, a: Address)
    requires Lookup(t, a).Some?
  {
    Lookup(g, a).Some? && Lookup(g, a).value.Version() == Lookup(t, a).value.Version()
  }

  /** An element that keeps its version says what it said. */
  predicate SaysTheSame(g: ConfigGroup, t: ConfigGroup, a: Address)
    requires Lookup(t, a).Some?
  {
    SameVersion(g, t, a) ==> OwnOf(Lookup(g, a)) == OwnOf(Lookup(t, a))
  }

  ghost predicate BumpsWhatItChanges(g: ConfigGroup, t: ConfigGroup) {
    forall a | Lookup(t, a).Some? :: SaysTheSame(g, t, a)
  }

  /** The transaction that reads the whole current tree and writes the whole tree `t`. */
  function WholeTree(vi: Validator, t: ConfigGroup, signedData: seq<SignedData>): ConfigTx {
    ConfigTx(ConfigUpdate(vi.channelID, Some(vi.group), Some(t)), Ok(signedData))
  }

  /** What the transaction writes is what has a new version. */
  lemma WholeTreeWrites(vi: Validator, t: ConfigGroup, signedData: seq<SignedData>, a: Address)
    ensures Writes(WholeTree(vi, t, signedData).update, a)
       <==> Lookup(t, a).Some? && !SameVersion(vi.group, t, a)
  {
    hide Lookup;
  }

  /** Every element with a new version may be written. */
  ghost predicate MayBecome(vi: Validator, t: ConfigGroup, signedData: seq<SignedData>) {
    MayBeWritten(vi, WholeTree(vi, t, signedData).update, signedData)
  }

  lemma WholeTreeIsMapped(vi: Validator, t: ConfigGroup, signedData: seq<SignedData>)
    requires Valid(vi) && LegalTree(vi.namespace, t)
    ensures Mapped(vi, WholeTree(vi, t, signedData))
    ensures ReadIsCurrent(vi, WholeTree(vi, t, signedData).update)
  {
    hide Flatten, LegalTree, Lookup;
  }

  /** Which whole-tree updates pass the checks. */
  lemma WholeTreeChecks(vi: Validator, t: ConfigGroup, signedData: seq<SignedData>)
    requires Valid(vi) && LegalTree(vi.namespace, t)
    ensures ChecksPass(vi, WholeTree(vi, t, signedData)) <==> MayBecome(vi, t, signedData)
  {
    hide Valid, LegalTree, ReadIsCurrent, MayBeWritten, ChecksPass, ProposeConfigUpdate, Mapped, LegalSet;
    var tx := WholeTree(vi, t, signedData);
    WholeTreeIsMapped(vi, t, signedData);
    MappedExactlyWhen(vi, tx);
    AcceptedExactlyWhen(vi, tx);
    AcceptedExactlyWhenChecksPass(vi, tx);
  }

  // ----------------------------------------------------------------- the rebuilt tree

  /** The map says of every element of the tree what the element itself says. */
  ghost predicate Tells(m: FlatMap, root: string, tree: ConfigGroup) {
    forall a | Lookup(tree, a).Some? :: TellsAt(m, root, tree, a)
  }

  predicate TellsAt(m: FlatMap, root: string, tree: ConfigGroup, a: Address)
    requires Lookup(tree, a).Some?
  {
    KeyOf(root, a) in m && OwnOf(Some(m[KeyOf(root, a)].element)) == OwnOf(Lookup(tree, a))
  }

  lemma TellsMember(
    m: FlatMap, root: string, tree: ConfigGroup, names: seq<string>, g: ConfigGroup, kind: Kind, k: string)
    requires Tells(m, root, tree)
    requires Lookup(tree, Address(GroupKind, names)) == Some(GroupElement(g))
    requires Lookup(g, Address(kind, [k])).Some?
    ensures Lookup(tree, Address(kind, names + [k])) == Lookup(g, Address(kind, [k]))
    ensures var s := FlatKey(kind, Child(Slashed([root] + names), k));
            s in m && OwnOf(Some(m[s].element)) == OwnOf(Lookup(g, Address(kind, [k])))
  {
    hide Lookup, Slashed, FlatKey, OwnOf;
    LookupThrough(tree, names, g, Address(kind, [k]));
    PathOfChild(root, names, k);
    assert TellsAt(m, root, tree, Address(kind, names + [k]));
    RootedKey(root, kind, names + [k]);
  }

  lemma TellsGroup(m: FlatMap, root: string, tree: ConfigGroup, names: seq<string>, g: ConfigGroup)
    requires Tells(m, root, tree) && Lookup(tree, Address(GroupKind, names)) == Some(GroupElement(g))
    ensures var path := Slashed([root] + names);
            HasGroup(m, path) && OwnOf(Some(GroupElement(GroupAt(m, path)))) == OwnOf(Some(GroupElement(g)))
  {
    hide Lookup, Slashed, FlatKey;
    assert TellsAt(m, root, tree, Address(GroupKind, names));
    RootedKey(root, GroupKind, names);
  }

  lemma TellsValue(m: FlatMap, path: string, k: string, v: ConfigValue)
    requires var s := FlatKey(ValueKind, Child(path, k));
             s in m && OwnOf(Some(m[s].element)) == OwnOf(Some(ValueElement(v)))
    ensures HasValue(m, path, k) && ValueAt(m, path, k) == v
  {
    hide Child, FlatKey;
  }

  lemma TellsPolicy(m: FlatMap, path: string, k: string, p: ConfigPolicy)
    requires var s := FlatKey(PolicyKind, Child(path, k));
             s in m && OwnOf(Some(m[s].element)) == OwnOf(Some(PolicyElement(p)))
    ensures HasPolicy(m, path, k) && PolicyAt(m, path, k) == p
  {
    hide Child, FlatKey;
  }

  lemma RebuildFromOwn(path: string, m: FlatMap, g: ConfigGroup)
    requires HasGroup(m, path) && OwnOf(Some(GroupElement(GroupAt(m, path)))) == OwnOf(Some(GroupElement(g)))
    requires forall k | k in g.groups ::
               Rebuild(Child(path, k), m) == Ok(SettledTree(ORDERER_CAPABILITIES in m, g.groups[k]))
    requires forall k | k in g.values :: HasValue(m, path, k) && ValueAt(m, path, k) == g.values[k]
    requires forall k | k in g.policies :: HasPolicy(m, path, k) && PolicyAt(m, path, k) == g.policies[k]
    ensures Rebuild(path, m) == Ok(SettledTree(ORDERER_CAPABILITIES in m, g))
  {
    hide HasGroup, HasValue, HasPolicy, GroupAt, ValueAt, PolicyAt, Child, Rebuild;
    hide SettledTree, SettledValue, SettledPolicy, Settled;
    SettledMembers(ORDERER_CAPABILITIES in m, g);
    RebuildDescribed(path, m, SettledTree(ORDERER_CAPABILITIES in m, g));
  }

  /** A map that tells the own content of every element of a tree is rebuilt to that tree, whatever else it holds. */
  lemma {:induction false} RebuildTold(root: string, tree: ConfigGroup, m: FlatMap, names: seq<string>, g: ConfigGroup)
    requires Tells(m, root, tree)
    requires Lookup(tree, Address(GroupKind, names)) == Some(GroupElement(g))
    ensures Rebuild(Slashed([root] + names), m) == Ok(SettledTree(ORDERER_CAPABILITIES in m, g))
    decreases g
  {
    hide Tells, Slashed, Lookup, FlatKey, Child, OwnOf, HasGroup, GroupAt, HasValue, HasPolicy, ValueAt,
      PolicyAt, Rebuild;
    var path := Slashed([root] + names);
    TellsGroup(m, root, tree, names, g);
    forall k | k in g.groups
      ensures Rebuild(Child(path, k), m) == Ok(SettledTree(ORDERER_CAPABILITIES in m, g.groups[k]))
    {
      GroupMember(g, k);
      TellsMember(m, root, tree, names, g, GroupKind, k);
      PathOfChild(root, names, k);
      RebuildTold(root, tree, m, names + [k], g.groups[k]);
    }
    forall k | k in g.values ensures HasValue(m, path, k) && ValueAt(m, path, k) == g.values[k] {
      ValueMember(g, k);
      TellsMember(m, root, tree, names, g, ValueKind, k);
      TellsValue(m, path, k, g.values[k]);
    }
    forall k | k in g.policies ensures HasPolicy(m, path, k) && PolicyAt(m, path, k) == g.policies[k] {
      PolicyMember(g, k);
      TellsMember(m, root, tree, names, g, PolicyKind, k);
      TellsPolicy(m, path, k, g.policies[k]);
    }
    RebuildFromOwn(path, m, g);
  }

  lemma OverlayTells(vi: Validator, t: ConfigGroup, signedData: seq<SignedData>)
    requires Valid(vi) && LegalTree(vi.namespace, t) && BumpsWhatItChanges(vi.group, t)
    requires Mapped(vi, WholeTree(vi, t, signedData))
    ensures Tells(UpdateResult(vi, DeltaOf(vi, WholeTree(vi, t, signedData))), vi.namespace, t)
  {
    hide Valid, LegalTree, KeyOf, Lookup, Entry, DeltaOf, SameVersion, OwnOf, Mapped;
    var m := UpdateResult(vi, DeltaOf(vi, WholeTree(vi, t, signedData)));
    forall a | Lookup(t, a).Some? ensures TellsAt(m, vi.namespace, t, a) {
      OverlayAt(vi, WholeTree(vi, t, signedData), t, a);
      WholeTreeWrites(vi, t, signedData, a);
      if SameVersion(vi.group, t, a) {
        SameVersionIsThere(vi.group, t, a);
        assert SaysTheSame(vi.group, t, a);
      }
    }
  }

  lemma SameVersionIsThere(g: ConfigGroup, t: ConfigGroup, a: Address)
    requires Lookup(t, a).Some? && SameVersion(g, t, a)
    ensures Lookup(g, a).Some?
  {
  }

  /**
   Any legal tree that bumps what it changes can be reached in one update, exactly if every bump
   is to the next version, every new element is at zero and the old mod_policies accept the
   signatures; and then the new configuration is that tree, up to the mod_policy upgrade.
   */
  lemma WholeTreeIsReached(vi: Validator, t: ConfigGroup, signedData: seq<SignedData>)
    requires Valid(vi) && LegalTree(vi.namespace, t) && BumpsWhatItChanges(vi.group, t)
    ensures var tx := WholeTree(vi, t, signedData);
            && (ProposeConfigUpdate(vi, tx).Ok? <==> MayBecome(vi, t, signedData))
            && (MayBecome(vi, t, signedData) ==>
                  Mapped(vi, tx)
                  && var upgrade := ORDERER_CAPABILITIES in UpdateResult(vi, DeltaOf(vi, tx));
                     ProposeConfigUpdate(vi, tx) == Ok(Config(vi.sequence + 1, Some(SettledTree(upgrade, t)))))
  {
    hide Valid, LegalTree, MayBecome, ChecksPass, ProposeConfigUpdate, DeltaOf, UpdateResult, Rebuild,
      Child, SettledTree, Mapped;
    hide BumpsWhatItChanges, Tells, Lookup, Slashed;
    var tx := WholeTree(vi, t, signedData);
    WholeTreeChecks(vi, t, signedData);
    AcceptedExactlyWhenChecksPass(vi, tx);
    if MayBecome(vi, t, signedData) {
      ChecksNeedMapping(vi, tx);
      OverlayTells(vi, t, signedData);
      assert Lookup(t, Address(GroupKind, [])) == Some(GroupElement(t)) by { RootLookup(t); }
      RebuildTold(vi.namespace, t, UpdateResult(vi, DeltaOf(vi, tx)), [], t);
      RootPath(vi.namespace);
      RebuildSucceeds(vi, tx);
    }
  }

  // ------------------------------------------------------------- accepted without effect

  /** The tree with one more value under its root, the root's version left as it is. */
  function WithValue(g: ConfigGroup, k: string, v: ConfigValue): ConfigGroup {
    g.(values := g.values[k := v])
  }

  lemma WithValueLookup(g: ConfigGroup, k: string, v: ConfigValue, a: Address)
    requires k !in g.values
    ensures Lookup(WithValue(g, k, v), Address(ValueKind, [k])) == Some(ValueElement(v))
    ensures Lookup(g, Address(ValueKind, [k])) == None
    ensures a != Address(ValueKind, [k]) && Lookup(WithValue(g, k, v), a).Some? ==>
              SameVersion(g, WithValue(g, k, v), a)
  {
    if |a.names| == 1 { assert a.names == [a.names[0]]; }
  }

  lemma WithValueLegal(root: string, g: ConfigGroup, k: string, v: ConfigValue)
    requires LegalTree(root, g) && ValidateConfigID(k)
    ensures LegalTree(root, WithValue(g, k, v))
  {
  }

  /**
   On every configuration and with any signatures, an update that adds a value under the root
   without a new version of the root is accepted, and names only new keys.
   */
  lemma NewValueIsAccepted(vi: Validator, k: string, v: ConfigValue, signedData: seq<SignedData>)
    requires Valid(vi) && ValidateConfigID(k) && k !in vi.group.values
    requires v.version == 0 && LegalModPolicy(v.modPolicy)
    ensures var tx := WholeTree(vi, WithValue(vi.group, k, v), signedData);
            ChecksPass(vi, tx) && OnlyNewKeys(vi, tx)
  {
    hide Lookup, LegalTree, Flatten, ChecksPass, DeltaOf, SameVersion, WithValue, KeyOf, Mapped, Valid;
    var t, b := WithValue(vi.group, k, v), Address(ValueKind, [k]);
    var tx := WholeTree(vi, t, signedData);
    assert LegalTree(vi.namespace, vi.group) by { ValidIsLegal(vi); }
    WithValueLegal(vi.namespace, vi.group, k, v);
    WithValueLookup(vi.group, k, v, b);
    assert !SameVersion(vi.group, t, b) by { AbsentHasNoVersion(vi.group, t, b); }
    WholeTreeWrites(vi, t, signedData, b);
    forall a | Writes(tx.update, a) ensures MayWrite(vi, tx.update, signedData, a) {
      WholeTreeWrites(vi, t, signedData, a);
      WithValueLookup(vi.group, k, v, a);
    }
    WholeTreeChecks(vi, t, signedData);
    ChecksNeedMapping(vi, tx);
    forall s | s in DeltaOf(vi, tx) ensures s !in vi.configMap {
      var a := DeltaFrom(vi, tx, s);
      WholeTreeWrites(vi, t, signedData, a);
      WithValueLookup(vi.group, k, v, a);
      CurrentMap(vi);
      KeyInMap(vi.namespace, Some(vi.group), t, a);
    }
  }

  lemma ValidIsLegal(vi: Validator)
    requires Valid(vi)
    ensures LegalTree(vi.namespace, vi.group)
  {
  }

  lemma AbsentHasNoVersion(g: ConfigGroup, t: ConfigGroup, a: Address)
    requires Lookup(t, a).Some? && Lookup(g, a) == None
    ensures !SameVersion(g, t, a)
  {
  }

  /** A root without members, and the smallest such update of it, signed by nobody. */
  ghost function SmallValidator(): Validator {
    var root := ConfigGroup(0, map[], map[], map[], "A");
    Validator("c", 0, Flatten("Channel", root), root, "Channel", Manager("Channel", map[], map[]))
  }

  lemma SmallIsLegal()
    ensures ValidateConfigID("x") && LegalModPolicy("A")
    ensures LegalTree("Channel", ConfigGroup(0, map[], map[], map[], "A"))
  {
    hide ValidateConfigID;
    ValidConfigIDs("Channel");
    ValidConfigIDs("x");
    ValidConfigIDs("A");
    assert ["A"][..0] == [] && "/" + "A" == Slashed(["A"]);
    assert PathOf("A", ["A"]);
  }

  /** An update nobody signed is accepted, and the configuration is what it was. */
  lemma UnsignedUpdateIsAccepted()
    ensures var vi := SmallValidator();
            var tx := WholeTree(vi, WithValue(vi.group, "x", ConfigValue(0, "", "A")), []);
            && Valid(vi) && ChecksPass(vi, tx) && OnlyNewKeys(vi, tx)
            && ProposeConfigUpdate(vi, tx) == Ok(Config(1, Some(vi.group)))
  {
    hide Lookup, Flatten, ChecksPass, WithValue, OnlyNewKeys, ProposeConfigUpdate, Rebuild, Child;
    hide ValidateConfigID, LegalModPolicy, DeltaOf, Mapped, Updated;
    var vi := SmallValidator();
    var v := ConfigValue(0, "", "A");
    var tx := WholeTree(vi, WithValue(vi.group, "x", v), []);
    SmallIsLegal();
    NewValueIsAccepted(vi, "x", v, []);
    ChecksNeedMapping(vi, tx);
    AcceptedExactlyWhenChecksPass(vi, tx);
    OnlyNewKeysUnchangedWhen(vi, tx);
  }
}
