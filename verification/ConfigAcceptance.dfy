/** Which updates are accepted and what they result in, over the trees read and written alone. */
module ConfigAcceptance {
  import opened Common
  import opened ConfigTree
  import opened ConfigMap
  import opened Update = ConfigUpdate
  import opened ConfigPolicies
  import opened ConfigGuarantees

  // ----------------------------------------------------------------- what is accepted

  /** The element at an address of a set, which may be absent altogether. */
  function Find(t: Option<ConfigGroup>, a: Address): (r: Option<Element>)
    ensures r.Some? ==> t.Some?
  {
    if t.None? then None else Lookup(t.value, a)
  }

  function VersionAt(t: Option<ConfigGroup>, a: Address): Option<nat> {
    if Find(t, a).Some? then Some(Find(t, a).value.Version()) else None
  }

  predicate LegalSet(root: string, t: Option<ConfigGroup>) {
    t.Some? ==> LegalTree(root, t.value)
  }

  /** Everything that was read is there now, at the version it was read at. */
  ghost predicate ReadIsCurrent(vi: Validator, u: Update.ConfigUpdate) {
    forall a | VersionAt(u.readSet, a).Some? :: VersionAt(Some(vi.group), a) == VersionAt(u.readSet, a)
  }

  /** The element is written, and not only read back at its version. */
  predicate Writes(u: Update.ConfigUpdate, a: Address) {
    VersionAt(u.writeSet, a).Some? && VersionAt(u.writeSet, a) != VersionAt(u.readSet, a)
  }

  /** A new element is at zero; an old one moves to its next version, and its old mod_policy allows it. */
  ghost predicate MayWrite(vi: Validator, u: Update.ConfigUpdate, signedData: seq<SignedData>, a: Address)
    requires Find(u.writeSet, a).Some?
  {
    var now, next := Lookup(vi.group, a), Find(u.writeSet, a).value;
    && LegalModPolicy(next.ModPolicy())
    && if now.None? then next.Version() == 0
       else
         && next.Version() == now.value.Version() + 1
         && Allowed(vi.pm, a, now.value.ModPolicy(), signedData)
  }

  ghost predicate MayBeWritten(vi: Validator, u: Update.ConfigUpdate, signedData: seq<SignedData>) {
    && (exists a :: Writes(u, a))
    && forall a | Writes(u, a) :: MayWrite(vi, u, signedData, a)
  }

  lemma MappedExactlyWhen(vi: Validator, tx: ConfigTx)
    ensures Mapped(vi, tx)
       <==> tx.ConfigTx? && LegalSet(vi.namespace, tx.update.readSet) && LegalSet(vi.namespace, tx.update.writeSet)
  {
    hide Flatten, LegalTree;
  }

  /** A map holds the key of an address of some legal tree exactly if its own tree has the address. */
  lemma KeyInMap(root: string, t: Option<ConfigGroup>, h: ConfigGroup, a: Address)
    requires LegalSet(root, t) && LegalTree(root, h) && Lookup(h, a).Some?
    ensures var m := MapConfig(t, root).value;
            && (KeyOf(root, a) in m <==> Find(t, a).Some?)
            && (Find(t, a).Some? ==> m[KeyOf(root, a)] == Entry(root, t.value, a))
            && (Find(t, a).Some? ==> m[KeyOf(root, a)].element == Find(t, a).value)
  {
    hide Flatten, LegalTree, KeyOf, Lookup;
    var m := MapConfig(t, root).value;
    if Find(t, a).Some? {
      FlattenAt(root, t.value, a);
    }
    if KeyOf(root, a) in m {
      var b := FlattenFrom(root, t.value, KeyOf(root, a));
      KeysAreDistinct(root, h, a, t.value, b);
    }
  }

  /** Every key of a map is that of an address of its tree. */
  lemma KeyFromMap(root: string, t: Option<ConfigGroup>, k: string) returns (a: Address)
    requires LegalSet(root, t) && k in MapConfig(t, root).value
    ensures Find(t, a).Some? && k == KeyOf(root, a)
  {
    hide Flatten, LegalTree, KeyOf, Lookup;
    a := FlattenFrom(root, t.value, k);
  }

  lemma CurrentMap(vi: Validator)
    requires Valid(vi)
    ensures LegalTree(vi.namespace, vi.group) && LegalSet(vi.namespace, Some(vi.group))
    ensures MapConfig(Some(vi.group), vi.namespace) == Ok(vi.configMap)
  {
    hide Flatten, LegalTree;
  }

  /** The read set passes exactly if everything read is current. */
  lemma ReadSetPasses(vi: Validator, tx: ConfigTx)
    requires Valid(vi) && Mapped(vi, tx)
    ensures VerifyReadSet(vi, ReadSetOf(vi, tx)) <==> ReadIsCurrent(vi, tx.update)
  {
    hide Valid, LegalTree, MapConfig, KeyOf, Lookup, Entry;
    MappedExactlyWhen(vi, tx);
    CurrentMap(vi);
    var root, t, m := vi.namespace, tx.update.readSet, ReadSetOf(vi, tx);
    if VerifyReadSet(vi, m) {
      forall a | VersionAt(t, a).Some? ensures VersionAt(Some(vi.group), a) == VersionAt(t, a) {
        KeyInMap(root, t, t.value, a);
        KeyInMap(root, Some(vi.group), t.value, a);
      }
    }
    if ReadIsCurrent(vi, tx.update) {
      forall k | k in m
        ensures k in vi.configMap && vi.configMap[k].element.Version() == m[k].element.Version()
      {
        var a := KeyFromMap(root, t, k);
        KeyInMap(root, t, t.value, a);
        KeyInMap(root, Some(vi.group), t.value, a);
        assert VersionAt(t, a).Some?;
      }
    }
  }

  /** The delta holds exactly the elements that are written, as they are written. */
  lemma DeltaHolds(vi: Validator, tx: ConfigTx, a: Address)
    requires Mapped(vi, tx) && Find(tx.update.writeSet, a).Some?
    ensures var k := KeyOf(vi.namespace, a);
            && (k in DeltaOf(vi, tx) <==> Writes(tx.update, a))
            && (k in DeltaOf(vi, tx) ==> DeltaOf(vi, tx)[k].element == Find(tx.update.writeSet, a).value)
            && (k in DeltaOf(vi, tx) ==>
                  DeltaOf(vi, tx)[k] == Entry(vi.namespace, tx.update.writeSet.value, a))
  {
    hide LegalTree, MapConfig, KeyOf, Lookup, Entry;
    MappedExactlyWhen(vi, tx);
    var w := tx.update.writeSet;
    KeyInMap(vi.namespace, w, w.value, a);
    KeyInMap(vi.namespace, tx.update.readSet, w.value, a);
  }

  lemma DeltaFrom(vi: Validator, tx: ConfigTx, k: string) returns (a: Address)
    requires Mapped(vi, tx) && k in DeltaOf(vi, tx)
    ensures Find(tx.update.writeSet, a).Some? && Writes(tx.update, a) && k == KeyOf(vi.namespace, a)
  {
    hide LegalTree, MapConfig, KeyOf, Lookup, Entry;
    MappedExactlyWhen(vi, tx);
    a := KeyFromMap(vi.namespace, tx.update.writeSet, k);
    DeltaHolds(vi, tx, a);
  }

  lemma DeltaAllowed(vi: Validator, tx: ConfigTx, signedData: seq<SignedData>, a: Address)
    requires Valid(vi) && Mapped(vi, tx) && Writes(tx.update, a) && Find(tx.update.writeSet, a).Some?
    requires var k := KeyOf(vi.namespace, a);
             k in DeltaOf(vi, tx) && DeltaOf(vi, tx)[k].element == Find(tx.update.writeSet, a).value
    ensures VerifyDelta(vi, KeyOf(vi.namespace, a), DeltaOf(vi, tx)[KeyOf(vi.namespace, a)], signedData)
       <==> MayWrite(vi, tx.update, signedData, a)
  {
    hide Valid, LegalTree, MapConfig, KeyOf, Lookup, Entry, DeltaSet, ValidateModPolicy, LegalModPolicy;
    hide ModPolicySatisfied, Allowed, Writes;
    MappedExactlyWhen(vi, tx);
    CurrentMap(vi);
    KeyInMap(vi.namespace, Some(vi.group), tx.update.writeSet.value, a);
    ModPolicyForms(Find(tx.update.writeSet, a).value.ModPolicy());
    if Lookup(vi.group, a).Some? {
      AsksTheNamedPolicy(vi.pm, vi.namespace, vi.group, a, signedData);
    }
  }

  /** The delta passes exactly if something is written and everything written may be. */
  lemma DeltaPasses(vi: Validator, tx: ConfigTx, signedData: seq<SignedData>)
    requires Valid(vi) && Mapped(vi, tx)
    ensures VerifyDeltaSet(vi, DeltaOf(vi, tx), signedData) <==> MayBeWritten(vi, tx.update, signedData)
  {
    hide Valid, Mapped, KeyOf, DeltaOf, VerifyDelta, MayWrite, Lookup, LegalSet;
    MappedExactlyWhen(vi, tx);
    var u, delta := tx.update, DeltaOf(vi, tx);
    if VerifyDeltaSet(vi, delta, signedData) {
      var k :| k in delta;
      var b := DeltaFrom(vi, tx, k);
      forall a | Writes(u, a) ensures MayWrite(vi, u, signedData, a) {
        DeltaHolds(vi, tx, a);
        DeltaAllowed(vi, tx, signedData, a);
      }
    }
    if MayBeWritten(vi, u, signedData) {
      var b :| Writes(u, b);
      DeltaHolds(vi, tx, b);
      forall k | k in delta ensures VerifyDelta(vi, k, delta[k], signedData) {
        var a := DeltaFrom(vi, tx, k);
        DeltaHolds(vi, tx, a);
        DeltaAllowed(vi, tx, signedData, a);
      }
    }
  }

  /**
   An update is accepted exactly if it is for this channel, its sets have legal keys, everything
   it reads is current, and it writes something and only what may be written.
   */
  lemma AcceptedExactlyWhen(vi: Validator, tx: ConfigTx)
    requires Valid(vi)
    ensures ProposeConfigUpdate(vi, tx).Ok? <==>
              && tx.ConfigTx? && tx.update.channelID == vi.channelID && tx.signedData.Ok?
              && LegalSet(vi.namespace, tx.update.readSet) && LegalSet(vi.namespace, tx.update.writeSet)
              && ReadIsCurrent(vi, tx.update)
              && MayBeWritten(vi, tx.update, tx.signedData.value)
  {
    hide Valid, Mapped, LegalSet, ReadIsCurrent, MayBeWritten, VerifyReadSet, VerifyDeltaSet, DeltaOf, ReadSetOf;
    AcceptedExactlyWhenChecksPass(vi, tx);
    MappedExactlyWhen(vi, tx);
    if Mapped(vi, tx) {
      ReadSetPasses(vi, tx);
      if tx.signedData.Ok? { DeltaPasses(vi, tx, tx.signedData.value); }
    }
  }

  /** A read set with anything that has moved on, or was never there, is rejected. */
  lemma StaleReadIsRejected(vi: Validator, tx: ConfigTx, a: Address)
    requires Valid(vi) && tx.ConfigTx? && Find(tx.update.readSet, a).Some?
    requires VersionAt(Some(vi.group), a) != VersionAt(tx.update.readSet, a)
    ensures ProposeConfigUpdate(vi, tx).Err?
  {
    hide Valid, LegalSet, MayBeWritten, ProposeConfigUpdate, Lookup;
    AcceptedExactlyWhen(vi, tx);
    assert VersionAt(tx.update.readSet, a).Some?;
  }

  // ------------------------------------------------------------------ what comes of it

  /** What is written, or else what was there. */
  function Overlaid(vi: Validator, u: Update.ConfigUpdate, a: Address): Option<Element> {
    if Writes(u, a) then Find(u.writeSet, a) else Lookup(vi.group, a)
  }

  predicate Lists(e: Option<Element>, kind: Kind, k: string) {
    e.Some? && e.value.GroupElement? &&
    match kind
    case GroupKind => k in e.value.group.groups
    case ValueKind => k in e.value.group.values
    case PolicyKind => k in e.value.group.policies
  }

  /** Every group on the way, as it is overlaid, lists the next name. */
  predicate Reached(vi: Validator, u: Update.ConfigUpdate, a: Address)
    decreases |a.names|
  {
    if a.names == [] then a.kind == GroupKind
    else
      var above := Address(GroupKind, a.names[..|a.names| - 1]);
      Reached(vi, u, above) && Lists(Overlaid(vi, u, above), a.kind, a.names[|a.names| - 1])
  }

  lemma ListedIsFound(g: ConfigGroup, kind: Kind, k: string)
    ensures Lists(Some(GroupElement(g)), kind, k) <==> Lookup(g, Address(kind, [k])).Some?
  {
    assert [k][1..] == [];
  }

  /** An element is found exactly if the group above it is found and lists it. */
  lemma {:induction false} LookupLast(t: ConfigGroup, names: seq<string>, kind: Kind, k: string)
    ensures Lookup(t, Address(kind, names + [k]))
         == match Lookup(t, Address(GroupKind, names))
            case Some(GroupElement(g)) => Lookup(g, Address(kind, [k]))
            case _ => None
    decreases |names|
  {
    var all := names + [k];
    if names == [] {
      assert all == [k];
    } else {
      assert all[0] == names[0] && all[1..] == names[1..] + [k];
      if names[0] in t.groups {
        LookupLast(t.groups[names[0]], names[1..], kind, k);
      }
    }
  }

  /** What the overlay holds for an address of any legal tree. */
  lemma OverlayAt(vi: Validator, tx: ConfigTx, h: ConfigGroup, a: Address)
    requires Valid(vi) && Mapped(vi, tx) && LegalTree(vi.namespace, h) && Lookup(h, a).Some?
    ensures var m, k := UpdateResult(vi, DeltaOf(vi, tx)), KeyOf(vi.namespace, a);
            && (k in m <==> Overlaid(vi, tx.update, a).Some?)
            && (k in m ==> m[k].element == Overlaid(vi, tx.update, a).value)
  {
    hide Valid, LegalTree, MapConfig, KeyOf, Lookup, Entry, DeltaSet;
    MappedExactlyWhen(vi, tx);
    CurrentMap(vi);
    var root, w := vi.namespace, tx.update.writeSet;
    KeyInMap(root, Some(vi.group), h, a);
    if Find(w, a).Some? {
      DeltaHolds(vi, tx, a);
    } else {
      KeyInMap(root, w, h, a);
      OnlyWrittenInDelta(vi, tx, KeyOf(root, a));
    }
  }

  lemma OnlyWrittenInDelta(vi: Validator, tx: ConfigTx, k: string)
    requires Mapped(vi, tx) && k !in WriteSetOf(vi, tx)
    ensures k !in DeltaOf(vi, tx)
  {
  }

  /** What a listed member is in the overlay: it is there, for its group lists it in the tree it comes from. */
  lemma MemberOverlaid(vi: Validator, tx: ConfigTx, names: seq<string>, kind: Kind, k: string)
    requires Valid(vi) && Mapped(vi, tx) && ReadIsCurrent(vi, tx.update)
    requires Lists(Overlaid(vi, tx.update, Address(GroupKind, names)), kind, k)
    ensures var m, a := UpdateResult(vi, DeltaOf(vi, tx)), Address(kind, names + [k]);
            && KeyOf(vi.namespace, a) in m && Overlaid(vi, tx.update, a).Some?
            && m[KeyOf(vi.namespace, a)].element == Overlaid(vi, tx.update, a).value
  {
    hide Valid, LegalTree, KeyOf, Lookup, DeltaOf, UpdateResult, Mapped;
    MappedExactlyWhen(vi, tx);
    CurrentMap(vi);
    var u, a, b := tx.update, Address(kind, names + [k]), Address(GroupKind, names);
    var x := if Writes(u, b) then u.writeSet.value else vi.group;
    ListedIsFound(Lookup(x, b).value.group, kind, k);
    LookupLast(x, names, kind, k);
    OverlayAt(vi, tx, x, a);
    if Writes(u, b) && !Writes(u, a) {
      assert VersionAt(u.readSet, a).Some?;
    }
  }

  /** A group that is reached is rebuilt from its overlaid entry. */
  lemma {:induction false} GroupReached(vi: Validator, tx: ConfigTx, names: seq<string>) returns (g: ConfigGroup)
    requires Valid(vi) && ChecksPass(vi, tx) && ReadIsCurrent(vi, tx.update)
    requires Reached(vi, tx.update, Address(GroupKind, names))
    ensures var m, path := UpdateResult(vi, DeltaOf(vi, tx)), Slashed([vi.namespace] + names);
            && Rebuild(path, m) == Ok(g) && HasGroup(m, path)
            && Overlaid(vi, tx.update, Address(GroupKind, names)) == Some(GroupElement(GroupAt(m, path)))
            && Lookup(Updated(vi, tx), Address(GroupKind, names)) == Some(GroupElement(g))
    decreases |names|
  {
    hide Valid, Mapped, KeyOf, DeltaOf, UpdateResult, Rebuild, Slashed, Overlaid, Child, ReadIsCurrent;
    ChecksNeedMapping(vi, tx);
    var m, path := UpdateResult(vi, DeltaOf(vi, tx)), Slashed([vi.namespace] + names);
    if names == [] {
      g := Updated(vi, tx);
      RootReached(vi, tx);
    } else {
      var init, k := names[..|names| - 1], names[|names| - 1];
      assert names == init + [k];
      var h := GroupReached(vi, tx, init);
      var above := Slashed([vi.namespace] + init);
      MemberOverlaid(vi, tx, init, GroupKind, k);
      DescribedByRebuild(above, m);
      g := h.groups[k];
      PathOfChild(vi.namespace, init, k);
      RootedKey(vi.namespace, GroupKind, names);
      DescribedByRebuild(path, m);
      LookupLast(Updated(vi, tx), init, GroupKind, k);
      ListedIsFound(h, GroupKind, k);
      GroupMember(h, k);
    }
  }

  lemma RootReached(vi: Validator, tx: ConfigTx)
    requires Valid(vi) && ChecksPass(vi, tx)
    ensures var m, path := UpdateResult(vi, DeltaOf(vi, tx)), Slashed([vi.namespace] + []);
            && Rebuild(path, m) == Ok(Updated(vi, tx)) && HasGroup(m, path)
            && Overlaid(vi, tx.update, Address(GroupKind, [])) == Some(GroupElement(GroupAt(m, path)))
            && Lookup(Updated(vi, tx), Address(GroupKind, [])) == Some(GroupElement(Updated(vi, tx)))
  {
    hide Valid, Mapped, LegalTree, KeyOf, DeltaOf, UpdateResult, Rebuild, Slashed, Overlaid, Child;
    ChecksNeedMapping(vi, tx);
    var m := UpdateResult(vi, DeltaOf(vi, tx));
    RebuildSucceeds(vi, tx);
    RootPath(vi.namespace);
    assert [vi.namespace] + [] == [vi.namespace];
    DescribedByRebuild(Slashed([vi.namespace] + []), m);
    CurrentMap(vi);
    OverlayAt(vi, tx, vi.group, Address(GroupKind, []));
    RootedKey(vi.namespace, GroupKind, []);
  }

  lemma {:induction false} AboveIsFound(t: ConfigGroup, a: Address)
    requires a.names != []
    ensures var above := Lookup(t, Address(GroupKind, a.names[..|a.names| - 1]));
            Lookup(t, a) == match above
                            case Some(GroupElement(g)) => Lookup(g, Address(a.kind, [a.names[|a.names| - 1]]))
                            case _ => None
  {
    hide Lookup;
    var init, k := a.names[..|a.names| - 1], a.names[|a.names| - 1];
    assert a.names == init + [k];
    LookupLast(t, init, a.kind, k);
  }

  /** A value or policy of a rebuilt group is its overlaid one. */
  lemma MemberReached(vi: Validator, tx: ConfigTx, names: seq<string>, g: ConfigGroup, kind: Kind, k: string)
    requires Valid(vi) && Mapped(vi, tx) && ReadIsCurrent(vi, tx.update) && kind != GroupKind
    requires var m, path := UpdateResult(vi, DeltaOf(vi, tx)), Slashed([vi.namespace] + names);
             && Rebuild(path, m) == Ok(g) && HasGroup(m, path)
             && Overlaid(vi, tx.update, Address(GroupKind, names)) == Some(GroupElement(GroupAt(m, path)))
    ensures var upgrade := ORDERER_CAPABILITIES in UpdateResult(vi, DeltaOf(vi, tx));
            OwnOf(Lookup(g, Address(kind, [k])))
            == if Lists(Overlaid(vi, tx.update, Address(GroupKind, names)), kind, k)
               then SettledOwn(upgrade, OwnOf(Overlaid(vi, tx.update, Address(kind, names + [k]))))
               else None
  {
    hide Valid, Mapped, KeyOf, DeltaOf, UpdateResult, Rebuild, Slashed, Overlaid, Child, ReadIsCurrent, FlatKey;
    hide Settled;
    MappedExactlyWhen(vi, tx);
    var m, path := UpdateResult(vi, DeltaOf(vi, tx)), Slashed([vi.namespace] + names);
    DescribedByRebuild(path, m);
    if Lists(Overlaid(vi, tx.update, Address(GroupKind, names)), kind, k) {
      MemberOverlaid(vi, tx, names, kind, k);
      PathOfChild(vi.namespace, names, k);
      RootedKey(vi.namespace, kind, names + [k]);
    }
  }

  /**
   After an accepted update a path is there exactly if every group on the way, as written or else
   as it was, lists the next name; and then it says what was written or else what was there.
   */
  lemma {:induction false} ResultExactly(vi: Validator, tx: ConfigTx, a: Address)
    requires Valid(vi) && ChecksPass(vi, tx)
    ensures var upgrade := ORDERER_CAPABILITIES in UpdateResult(vi, DeltaOf(vi, tx));
            OwnOf(Lookup(Updated(vi, tx), a))
            == if Reached(vi, tx.update, a) then SettledOwn(upgrade, OwnOf(Overlaid(vi, tx.update, a))) else None
    decreases |a.names|
  {
    hide Valid, ChecksPass, Mapped, KeyOf, DeltaOf, UpdateResult, Rebuild, Slashed, Overlaid, ReadIsCurrent, Updated;
    hide SettledOwn;
    ChecksNeedMapping(vi, tx);
    assert ReadIsCurrent(vi, tx.update) by { ChecksNeedCurrent(vi, tx); }
    var m, t := UpdateResult(vi, DeltaOf(vi, tx)), Updated(vi, tx);
    if a.kind == GroupKind && Reached(vi, tx.update, a) {
      var g := GroupReached(vi, tx, a.names);
      var path := Slashed([vi.namespace] + a.names);
      DescribedByRebuild(path, m);
      OwnGroupKept(path, m, GroupAt(m, path), g);
    } else if a.names != [] {
      var init, k := a.names[..|a.names| - 1], a.names[|a.names| - 1];
      var above := Address(GroupKind, init);
      assert a.names == init + [k];
      AboveIsFound(t, a);
      if Reached(vi, tx.update, above) {
        var h := GroupReached(vi, tx, init);
        if a.kind == GroupKind {
          DescribedByRebuild(Slashed([vi.namespace] + init), m);
          ListedIsFound(h, GroupKind, k);
        } else {
          MemberReached(vi, tx, init, h, a.kind, k);
        }
      } else {
        ResultExactly(vi, tx, above);
      }
    }
  }

  lemma ChecksNeedCurrent(vi: Validator, tx: ConfigTx)
    requires Valid(vi) && ChecksPass(vi, tx)
    ensures ReadIsCurrent(vi, tx.update)
  {
    hide Valid, Mapped, VerifyDeltaSet, DeltaOf, ReadSetOf, VerifyReadSet, ReadIsCurrent;
    ReadSetPasses(vi, tx);
  }

  /** The mod_policy upgrade is set off by capabilities that were there or are written, listed or not. */
  lemma UpgradedExactlyWhen(vi: Validator, tx: ConfigTx)
    requires Valid(vi) && ChecksPass(vi, tx)
    ensures var a := Address(ValueKind, ["Orderer", "Capabilities"]);
            ORDERER_CAPABILITIES in UpdateResult(vi, DeltaOf(vi, tx))
            <==> vi.namespace == "Channel" && (Lookup(vi.group, a).Some? || Find(tx.update.writeSet, a).Some?)
  {
    hide Valid, Mapped, LegalTree, Flatten, Lookup, DeltaOf, WriteSetOf, VerifyFullProposedConfig;
    ChecksNeedMapping(vi, tx);
    ChecksImplyOverlay(vi, tx);
    MappedExactlyWhen(vi, tx);
    CurrentMap(vi);
    UpgradeApplies(vi.namespace, vi.group);
    WrittenMap(vi, tx);
    if tx.update.writeSet.Some? { UpgradeApplies(vi.namespace, tx.update.writeSet.value); }
  }

  lemma WrittenMap(vi: Validator, tx: ConfigTx)
    requires Mapped(vi, tx)
    ensures WriteSetOf(vi, tx)
         == if tx.update.writeSet.None? then map[] else Flatten(vi.namespace, tx.update.writeSet.value)
  {
    hide Flatten, LegalTree;
  }
}
