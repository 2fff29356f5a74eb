/**
 Channel configuration trees, the addresses of their elements, and the flattened
 keys under which the update code stores those elements.
 */
module ConfigTree {
  import opened Common

  datatype ConfigValue = ConfigValue(version: nat, value: Bytes, modPolicy: string)

  datatype ConfigPolicy = ConfigPolicy(version: nat, policy: Bytes, modPolicy: string)

  datatype ConfigGroup = ConfigGroup(
    version: nat,
    groups: map<string, ConfigGroup>,
    values: map<string, ConfigValue>,
    policies: map<string, ConfigPolicy>,
    modPolicy: string)

  /** Exactly one of the three parts of a `comparable` is set. */
  datatype Element =
    | GroupElement(group: ConfigGroup)
    | ValueElement(value: ConfigValue)
    | PolicyElement(policy: ConfigPolicy)
  {
    function Version(): nat {
      match this
      case GroupElement(g) => g.version
      case ValueElement(v) => v.version
      case PolicyElement(p) => p.version
    }

    function ModPolicy(): string {
      match this
      case GroupElement(g) => g.modPolicy
      case ValueElement(v) => v.modPolicy
      case PolicyElement(p) => p.modPolicy
    }
  }

  /** A flattened element: its content, its own key and the keys of the groups above it. */
  datatype Comparable = Comparable(element: Element, key: string, path: seq<string>)

  datatype Kind = GroupKind | ValueKind | PolicyKind

  /** Names an element of a tree by the keys that lead to it from the root group. */
  datatype Address = Address(kind: Kind, names: seq<string>)

  /** The element of `g` at an address, if there is one. */
  function Lookup(g: ConfigGroup, a: Address): (r: Option<Element>)
    ensures r.Some? ==> KindOf(r.value) == a.kind
    decreases |a.names|
  {
    if |a.names| == 0 then
      if a.kind == GroupKind then Some(GroupElement(g)) else None
    else if |a.names| == 1 && a.kind == ValueKind then
      if a.names[0] in g.values then Some(ValueElement(g.values[a.names[0]])) else None
    else if |a.names| == 1 && a.kind == PolicyKind then
      if a.names[0] in g.policies then Some(PolicyElement(g.policies[a.names[0]])) else None
    else if a.names[0] in g.groups then
      Lookup(g.groups[a.names[0]], Address(a.kind, a.names[1..]))
    else None
  }

  function KindOf(e: Element): Kind {
    match e
    case GroupElement(_) => GroupKind
    case ValueElement(_) => ValueKind
    case PolicyElement(_) => PolicyKind
  }

  /** All addresses of a tree. */
  ghost function Addresses(g: ConfigGroup): set<Address>
    decreases g, 1
  {
    {Address(GroupKind, [])}
    + (set k | k in g.values :: Address(ValueKind, [k]))
    + (set k | k in g.policies :: Address(PolicyKind, [k]))
    + AddressesInGroups(g)
  }

  ghost function AddressesInGroups(g: ConfigGroup): set<Address>
    decreases g, 0
  {
    set k, a | k in g.groups && a in Addresses(g.groups[k]) :: Address(a.kind, [k] + a.names)
  }

  lemma AddressesParts(g: ConfigGroup, a: Address)
    ensures a in Addresses(g)
       <==> || a == Address(GroupKind, [])
            || (a.kind == ValueKind && |a.names| == 1 && a.names[0] in g.values)
            || (a.kind == PolicyKind && |a.names| == 1 && a.names[0] in g.policies)
            || a in AddressesInGroups(g)
  {
    hide AddressesInGroups;
    if |a.names| == 1 { assert a.names == [a.names[0]]; }
  }

  lemma InGroupsFrom(g: ConfigGroup, a: Address) returns (k: string, b: Address)
    requires a in AddressesInGroups(g)
    ensures k in g.groups && b in Addresses(g.groups[k]) && a == Address(b.kind, [k] + b.names)
  {
    hide Addresses;
    k, b :| k in g.groups && b in Addresses(g.groups[k]) && a == Address(b.kind, [k] + b.names);
  }

  lemma InGroupsHas(g: ConfigGroup, k: string, b: Address)
    requires k in g.groups && b in Addresses(g.groups[k])
    ensures Address(b.kind, [k] + b.names) in AddressesInGroups(g)
  {
    hide Addresses;
  }

  /** The root itself is the only address without a name. */
  lemma AddressesHere(g: ConfigGroup, kind: Kind)
    ensures Address(kind, []) in Addresses(g) <==> kind == GroupKind
  {
    hide Addresses, AddressesInGroups;
    var a := Address(kind, []);
    AddressesParts(g, a);
    if a in AddressesInGroups(g) {
      var k, b := InGroupsFrom(g, a);
    }
  }

  /** Below a group, its own name in front. */
  lemma AddressesBelow(g: ConfigGroup, k: string, rest: Address)
    ensures Address(rest.kind, [k] + rest.names) in AddressesInGroups(g)
       <==> k in g.groups && rest in Addresses(g.groups[k])
  {
    hide Addresses, AddressesInGroups;
    var a := Address(rest.kind, [k] + rest.names);
    if a in AddressesInGroups(g) {
      var l, b := InGroupsFrom(g, a);
      assert ([l] + b.names)[0] == l && ([l] + b.names)[1..] == b.names;
      assert ([k] + rest.names)[0] == k && ([k] + rest.names)[1..] == rest.names;
    }
    if k in g.groups && rest in Addresses(g.groups[k]) {
      InGroupsHas(g, k, rest);
    }
  }

  lemma LookupHere(g: ConfigGroup, kind: Kind)
    ensures Lookup(g, Address(kind, [])).Some? <==> kind == GroupKind
  {
  }

  lemma LookupMember(g: ConfigGroup, k: string)
    ensures Lookup(g, Address(ValueKind, [k])).Some? <==> k in g.values
    ensures Lookup(g, Address(PolicyKind, [k])).Some? <==> k in g.policies
  {
  }

  lemma LookupBelow(g: ConfigGroup, k: string, rest: Address)
    requires rest.kind == GroupKind || rest.names != []
    ensures Lookup(g, Address(rest.kind, [k] + rest.names)).Some?
       <==> k in g.groups && Lookup(g.groups[k], rest).Some?
  {
    var a := Address(rest.kind, [k] + rest.names);
    assert a.names[0] == k && a.names[1..] == rest.names;
  }

  lemma {:induction false} AddressesAreLookups(g: ConfigGroup, a: Address)
    ensures a in Addresses(g) <==> Lookup(g, a).Some?
    decreases |a.names|
  {
    hide Addresses, AddressesInGroups, Lookup;
    if a.names == [] {
      AddressesHere(g, a.kind);
      LookupHere(g, a.kind);
    } else {
      var k, rest := a.names[0], Address(a.kind, a.names[1..]);
      assert a == Address(rest.kind, [k] + rest.names);
      AddressesParts(g, a);
      AddressesBelow(g, k, rest);
      if rest.kind != GroupKind && rest.names == [] {
        assert a.names == [k];
        LookupMember(g, k);
        if k in g.groups { AddressesHere(g.groups[k], rest.kind); }
      } else {
        LookupBelow(g, k, rest);
        if k in g.groups {
          AddressesAreLookups(g.groups[k], rest);
        }
      }
    }
  }

  // ---------------------------------------------------------------- legal keys

  const MAX_LENGTH := 249

  predicate AllowedChar(c: char) {
    'a' <= c <= 'z' || 'A' <= c <= 'Z' || '0' <= c <= '9' || c == '.' || c == '-'
  }

  function AllowedRun(s: string): (n: nat)
    ensures n <= |s|
  {
    if s != "" && AllowedChar(s[0]) then 1 + AllowedRun(s[1..]) else 0
  }

  /** The leftmost longest match of the allowed-characters expression. */
  function FindAllowed(s: string): (r: string)
    ensures |r| <= |s|
  {
    if s == "" then ""
    else if AllowedChar(s[0]) then s[..AllowedRun(s)]
    else FindAllowed(s[1..])
  }

  predicate ValidateConfigID(id: string) {
    && 0 < |id| <= MAX_LENGTH
    && id != "." && id != ".."
    && |FindAllowed(id)| == |id|
  }

  lemma {:induction false} AllowedRunIsWhole(s: string)
    ensures AllowedRun(s) == |s| <==> forall c | c in s :: AllowedChar(c)
  {
    if s != "" {
      AllowedRunIsWhole(s[1..]);
      assert s == [s[0]] + s[1..];
    }
  }

  /** The regular-expression test accepts a key exactly when all its characters are allowed. */
  lemma ValidConfigIDs(id: string)
    ensures ValidateConfigID(id)
       <==> && 0 < |id| <= 249 && id != "." && id != ".."
            && forall c | c in id ::
                 'a' <= c <= 'z' || 'A' <= c <= 'Z' || '0' <= c <= '9' || c == '.' || c == '-'
  {
    AllowedRunIsWhole(id);
    if id != "" && !AllowedChar(id[0]) {
      assert id[0] in id;
      assert |FindAllowed(id)| <= |id[1..]|;
    }
  }

  lemma LegalIDsHaveNoSeparator(id: string)
    requires ValidateConfigID(id)
    ensures '/' !in id
  {
    ValidConfigIDs(id);
  }

  /** Every key of the tree, the root's own key included, passes `ValidateConfigID`. */
  predicate LegalTree(key: string, g: ConfigGroup)
    decreases g
  {
    && ValidateConfigID(key)
    && (forall k | k in g.groups :: LegalTree(k, g.groups[k]))
    && (forall k | k in g.values :: ValidateConfigID(k))
    && (forall k | k in g.policies :: ValidateConfigID(k))
  }

  predicate LegalNames(names: seq<string>) {
    forall i | 0 <= i < |names| :: ValidateConfigID(names[i])
  }

  lemma {:induction false} LegalLookup(key: string, g: ConfigGroup, a: Address)
    requires LegalTree(key, g) && Lookup(g, a).Some?
    ensures LegalNames(a.names)
    decreases |a.names|
  {
    if a.names != [] {
      var k, rest := a.names[0], Address(a.kind, a.names[1..]);
      assert a.names == [k] + rest.names;
      if k in g.groups && Lookup(g.groups[k], rest).Some? {
        LegalLookup(k, g.groups[k], rest);
      }
    }
  }

  // ------------------------------------------------------------- flattened keys

  const PATH_SEPARATOR := "/"

  function Prefix(kind: Kind): string {
    match kind
    case GroupKind => "[Group]  "
    case ValueKind => "[Value]  "
    case PolicyKind => "[Policy] "
  }

  /** The rooted path string: a separator before every name. */
  function Slashed(names: seq<string>): string {
    if names == [] then "" else Slashed(names[..|names|-1]) + PATH_SEPARATOR + names[|names|-1]
  }

  function FlatKey(kind: Kind, path: string): string {
    Prefix(kind) + path
  }

  /** The key under which an element of the tree rooted at `root` is stored. */
  function KeyOf(root: string, a: Address): string {
    FlatKey(a.kind, Slashed([root] + a.names))
  }

  lemma FlatKeyInjective(k1: Kind, p1: string, k2: Kind, p2: string)
    requires FlatKey(k1, p1) == FlatKey(k2, p2)
    ensures k1 == k2 && p1 == p2
  {
    assert FlatKey(k1, p1)[1] == Prefix(k1)[1] && FlatKey(k2, p2)[1] == Prefix(k2)[1];
    assert FlatKey(k1, p1)[9..] == p1 && FlatKey(k2, p2)[9..] == p2;
  }

  lemma SplitAtLastSeparator(a: string, x: string, b: string, y: string)
    requires a + PATH_SEPARATOR + x == b + PATH_SEPARATOR + y
    requires '/' !in x && '/' !in y
    ensures a == b && x == y
  {
    var s, t := a + PATH_SEPARATOR + x, b + PATH_SEPARATOR + y;
    assert s[|a|] == '/' && t[|b|] == '/';
    assert forall i | |a| < i < |s| :: s[i] in x;
    assert forall i | |b| < i < |t| :: t[i] in y;
    assert |a| == |b|;
    assert s[..|a|] == a && t[..|b|] == b;
    assert s[|a| + 1..] == x && t[|b| + 1..] == y;
  }

  predicate NoSeparators(names: seq<string>) {
    forall i | 0 <= i < |names| :: '/' !in names[i]
  }

  lemma LegalNamesHaveNoSeparators(names: seq<string>)
    requires LegalNames(names)
    ensures NoSeparators(names)
  {
    forall i | 0 <= i < |names| ensures '/' !in names[i] {
      LegalIDsHaveNoSeparator(names[i]);
    }
  }

  lemma {:induction false} SlashedInjective(p: seq<string>, q: seq<string>)
    requires NoSeparators(p) && NoSeparators(q)
    requires Slashed(p) == Slashed(q)
    ensures p == q
  {
    if p != [] && q != [] {
      var m, n := |p| - 1, |q| - 1;
      SplitAtLastSeparator(Slashed(p[..m]), p[m], Slashed(q[..n]), q[n]);
      SlashedInjective(p[..m], q[..n]);
      assert p == p[..m] + [p[m]] && q == q[..n] + [q[n]];
    }
  }

  /** Distinct elements, of one legal tree or of two, never share a flattened key. */
  lemma KeysAreDistinct(root: string, g: ConfigGroup, a: Address, h: ConfigGroup, b: Address)
    requires LegalTree(root, g) && Lookup(g, a).Some?
    requires LegalTree(root, h) && Lookup(h, b).Some?
    requires KeyOf(root, a) == KeyOf(root, b)
    ensures a == b
  {
    hide Slashed;
    LegalLookup(root, g, a);
    LegalLookup(root, h, b);
    FlatKeyInjective(a.kind, Slashed([root] + a.names), b.kind, Slashed([root] + b.names));
    LegalNamesHaveNoSeparators([root] + a.names);
    LegalNamesHaveNoSeparators([root] + b.names);
    SlashedInjective([root] + a.names, [root] + b.names);
    assert ([root] + a.names)[1..] == a.names && ([root] + b.names)[1..] == b.names;
  }
}
