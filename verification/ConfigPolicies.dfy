/** Whose policy an element's mod_policy names, and which mod_policies are legal, in terms of names alone. */
module ConfigPolicies {
  import opened Common
  import opened Texts
  import opened ConfigTree
  import opened ConfigMap
  import opened Update = ConfigUpdate

  // ------------------------------------------------------------- whose policy is asked

  /** The group an element belongs to; a group belongs to itself. */
  function GroupOf(a: Address): seq<string> {
    if a.kind == GroupKind || a.names == [] then a.names else a.names[..|a.names| - 1]
  }

  /** The manager at the end of a path of group names, one step after the other. */
  function ManagerAt(pm: Manager, names: seq<string>): Option<Manager> {
    if names == [] then Some(pm)
    else
      var above, last := ManagerAt(pm, names[..|names| - 1]), names[|names| - 1];
      if above.Some? && last in above.value.managers then Some(above.value.managers[last]) else None
  }

  /** The identifier is the manager's path after a slash, one more character, and the name. */
  predicate NamesFrom(path: string, id: string, name: string) {
    |id| > |path| + 1 && id == PATH_SEPARATOR + path + [id[|path| + 1]] + name
  }

  /**
   A relative mod_policy is a policy of the manager of the element's own group, an absolute one a
   policy of the manager of the root; it has to be there and to accept the signatures.
   */
  predicate Allowed(pm: Manager, a: Address, modPolicy: string, signedData: seq<SignedData>) {
    modPolicy != "" &&
    if modPolicy[0] == '/' then
      exists name | name in pm.policies :: NamesFrom(pm.path, modPolicy, name) && pm.policies[name].accepts(signedData)
    else
      var manager := ManagerAt(pm, GroupOf(a));
      manager.Some? && modPolicy in manager.value.policies && manager.value.policies[modPolicy].accepts(signedData)
  }

  lemma {:induction false} SubManagerStep(pm: Manager, names: seq<string>, last: string)
    ensures SubManager(pm, names + [last])
         == if SubManager(pm, names).Some? then SubManager(SubManager(pm, names).value, [last]) else None
    decreases |names|
  {
    var all := names + [last];
    if names == [] {
      assert all == [last];
    } else {
      assert all[0] == names[0] && all[1..] == names[1..] + [last];
      if names[0] in pm.managers {
        SubManagerStep(pm.managers[names[0]], names[1..], last);
      }
    }
  }

  lemma SubManagerOne(pm: Manager, name: string)
    ensures SubManager(pm, [name]) == if name in pm.managers then Some(pm.managers[name]) else None
  {
    assert [name][1..] == [];
  }

  lemma {:induction false} SubManagerIsManagerAt(pm: Manager, names: seq<string>)
    ensures SubManager(pm, names) == ManagerAt(pm, names)
    decreases |names|
  {
    if names != [] {
      var init, last := names[..|names| - 1], names[|names| - 1];
      assert names == init + [last];
      SubManagerIsManagerAt(pm, init);
      SubManagerStep(pm, init, last);
      if SubManager(pm, init).Some? { SubManagerOne(SubManager(pm, init).value, last); }
    }
  }

  lemma NamesBelow(path: string, id: string, name: string)
    ensures NamesFrom(path, id, name) ==> PATH_SEPARATOR + path <= id && |id| > |path| + 1
  {
  }

  lemma AbsolutePolicy(pm: Manager, id: string, signedData: seq<SignedData>)
    requires id != "" && id[0] == '/'
    ensures (GetPolicy(pm, id).Some? && GetPolicy(pm, id).value.accepts(signedData))
       <==> exists name | name in pm.policies :: NamesFrom(pm.path, id, name) && pm.policies[name].accepts(signedData)
  {
    var prefix := PATH_SEPARATOR + pm.path;
    if prefix <= id && |id| >= |prefix| + 1 {
      var name := id[|prefix| + 1..];
      assert id == prefix + [id[|pm.path| + 1]] + name;
      forall other | NamesFrom(pm.path, id, other) ensures other == name {
        assert (prefix + [id[|pm.path| + 1]] + other)[|prefix| + 1..] == other;
      }
      assert NamesFrom(pm.path, id, name);
    } else {
      forall other ensures !NamesFrom(pm.path, id, other) {
        NamesBelow(pm.path, id, other);
      }
    }
  }

  /** Of every element of a configuration, the policy asked is the one its address and its mod_policy name. */
  lemma AsksTheNamedPolicy(pm: Manager, root: string, g: ConfigGroup, a: Address, signedData: seq<SignedData>)
    requires Lookup(g, a).Some?
    ensures ModPolicySatisfied(pm, Entry(root, g, a), signedData)
       <==> Allowed(pm, a, Lookup(g, a).value.ModPolicy(), signedData)
  {
    hide ManagerAt, SubManager, Lookup;
    var item, modPolicy := Entry(root, g, a), Lookup(g, a).value.ModPolicy();
    if modPolicy != "" && modPolicy[0] == '/' {
      AbsolutePolicy(pm, modPolicy, signedData);
    } else if a.names == [] {
      RootIsAGroup(g, a);
      ManagerOfRoot(pm);
    } else {
      var init, last := a.names[..|a.names| - 1], a.names[|a.names| - 1];
      assert item.key == last && item.path == [root] + init && item.path[1..] == init && a.names == init + [last];
      SubManagerIsManagerAt(pm, init);
      SubManagerIsManagerAt(pm, a.names);
      SubManagerStep(pm, init, last);
    }
  }

  lemma RootIsAGroup(g: ConfigGroup, a: Address)
    requires Lookup(g, a).Some? && a.names == []
    ensures a.kind == GroupKind
  {
  }

  lemma ManagerOfRoot(pm: Manager)
    ensures ManagerAt(pm, []) == Some(pm)
  {
  }

  // -------------------------------------------------------------- legal mod_policies

  /** A path of legal names, with or without a slash before the first. */
  ghost predicate LegalModPolicy(modPolicy: string) {
    exists names :: PathOf(modPolicy, names)
  }

  predicate PathOf(modPolicy: string, names: seq<string>) {
    names != [] && LegalNames(names) && (modPolicy == Slashed(names) || PATH_SEPARATOR + modPolicy == Slashed(names))
  }

  /** A legal mod_policy is one or more legal names. */
  lemma ModPolicyForms(modPolicy: string)
    ensures ValidateModPolicy(modPolicy) <==> LegalModPolicy(modPolicy)
  {
    hide Slashed, ValidateConfigID, Split, Join;
    if ValidateModPolicy(modPolicy) {
      var trimmed := if modPolicy[0] == '/' then modPolicy[1..] else modPolicy;
      var names := Split(trimmed, '/');
      JoinSplit(trimmed, '/');
      JoinIsSlashed(names);
      assert modPolicy[0] == '/' ==> modPolicy == PATH_SEPARATOR + trimmed;
      assert forall i | 0 <= i < |names| :: names[i] in names;
      assert PathOf(modPolicy, names);
    }
    if names :| PathOf(modPolicy, names) {
      PathIsValid(modPolicy, names);
    }
  }

  lemma PathIsValid(modPolicy: string, names: seq<string>)
    requires PathOf(modPolicy, names)
    ensures ValidateModPolicy(modPolicy)
  {
    hide Slashed, ValidateConfigID, Split, Join;
    var text := Join(names, PATH_SEPARATOR);
    JoinIsSlashed(names);
    LegalNamesHaveNoSeparators(names);
    SplitJoin(names, '/');
    assert text != "" && text[0] != '/' by { FirstOfPath(names); }
    if modPolicy == Slashed(names) {
      assert modPolicy[1..] == text;
    } else {
      assert (PATH_SEPARATOR + modPolicy)[1..] == modPolicy && (PATH_SEPARATOR + text)[1..] == text;
    }
  }

  lemma FirstOfPath(names: seq<string>)
    requires names != [] && LegalNames(names)
    ensures Join(names, PATH_SEPARATOR) != "" && Join(names, PATH_SEPARATOR)[0] != '/'
  {
    hide Join, ValidateConfigID;
    ValidConfigIDs(names[0]);
    assert names[0][0] in names[0];
    if |names| == 1 {
      JoinOne(names, PATH_SEPARATOR);
    } else {
      JoinFirst(names, PATH_SEPARATOR);
    }
  }
}
