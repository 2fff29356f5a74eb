/** The checks a configuration update has to pass, and the configuration it proposes. */
module ConfigUpdate {
  import opened Common
  import opened Texts
  import opened ConfigTree
  import opened ConfigMap

  // --------------------------------------------------------------- policy lookup

  /** A policy is what it accepts; evaluation itself is modelled in `SignaturePolicies`. */
  datatype Policy = Policy(accepts: seq<SignedData> -> bool)

  datatype Manager = Manager(path: string, policies: map<string, Policy>, managers: map<string, Manager>)

  function SubManager(pm: Manager, path: seq<string>): Option<Manager>
    decreases |path|
  {
    if path == [] then Some(pm)
    else if path[0] in pm.managers then SubManager(pm.managers[path[0]], path[1..])
    else None
  }

  /** An absolute identifier too short to name anything below the manager's path finds nothing. */
  function GetPolicy(pm: Manager, id: string): Option<Policy> {
    var prefix := PATH_SEPARATOR + pm.path;
    if id == "" then None
    else if id[0] == '/' && !(prefix <= id) then None
    else if id[0] == '/' && |id| < |prefix| + 1 then None
    else
      var relative := if id[0] == '/' then id[|prefix| + 1..] else id;
      if relative in pm.policies then Some(pm.policies[relative]) else None
  }

  /** A relative mod_policy is resolved by the manager of the element's own group. */
  function PolicyForItem(pm: Manager, item: Comparable): Option<Policy> {
    var modPolicy := item.element.ModPolicy();
    if modPolicy != "" && modPolicy[0] != '/' && item.path != [] then
      var manager := SubManager(pm, item.path[1..]);
      if manager.None? then None
      else
        var own := if item.element.GroupElement? then SubManager(manager.value, [item.key]) else manager;
        if own.None? then None else GetPolicy(own.value, modPolicy)
    else
      GetPolicy(pm, modPolicy)
  }

  predicate ModPolicySatisfied(pm: Manager, item: Comparable, signedData: seq<SignedData>) {
    var policy := PolicyForItem(pm, item);
    policy.Some? && policy.value.accepts(signedData)
  }

  // ----------------------------------------------------------------- the validator

  datatype Config = Config(sequence: nat, channelGroup: Option<ConfigGroup>)

  datatype Validator = Validator(
    channelID: string, sequence: nat, configMap: FlatMap, group: ConfigGroup, namespace: string, pm: Manager)

  datatype ConfigUpdate = ConfigUpdate(
    channelID: string, readSet: Option<ConfigGroup>, writeSet: Option<ConfigGroup>)

  /** A transaction that does not decode to a config update is malformed. */
  datatype ConfigTx = MalformedTx | ConfigTx(update: ConfigUpdate, signedData: Result<seq<SignedData>>)

  predicate ChannelChar(c: char) {
    'a' <= c <= 'z' || '0' <= c <= '9' || c == '.' || c == '-'
  }

  function ChannelRun(s: string): (n: nat)
    ensures n <= |s|
  {
    if s != "" && ChannelChar(s[0]) then 1 + ChannelRun(s[1..]) else 0
  }

  /** The leftmost longest match of a letter followed by allowed characters. */
  function FindChannel(s: string): (r: string)
    ensures |r| <= |s|
  {
    if s == "" then ""
    else if 'a' <= s[0] <= 'z' then s[..1 + ChannelRun(s[1..])]
    else FindChannel(s[1..])
  }

  predicate ValidateChannelID(id: string) {
    0 < |id| <= MAX_LENGTH && |FindChannel(id)| == |id|
  }

  lemma {:induction false} ChannelRunIsWhole(s: string)
    ensures ChannelRun(s) == |s| <==> forall c | c in s :: ChannelChar(c)
  {
    if s != "" {
      ChannelRunIsWhole(s[1..]);
      assert s == [s[0]] + s[1..];
    }
  }

  /** The regular-expression test accepts lower-case alphanumerics, dots and dashes after a first letter. */
  lemma ValidChannelIDs(id: string)
    ensures ValidateChannelID(id) <==>
              && 0 < |id| <= 249 && 'a' <= id[0] <= 'z'
              && forall c | c in id :: 'a' <= c <= 'z' || '0' <= c <= '9' || c == '.' || c == '-'
  {
    if id != "" {
      ChannelRunIsWhole(id[1..]);
      assert id == [id[0]] + id[1..];
      assert forall c | c in id[1..] :: c in id;
      assert id[0] in id;
      if !('a' <= id[0] <= 'z') { assert |FindChannel(id)| <= |id[1..]|; }
    }
  }

  ghost function NewValidator(channelID: string, config: Option<Config>, namespace: string, pm: Manager)
    : Result<Validator>
  {
    if config.None? || config.value.channelGroup.None? || !ValidateChannelID(channelID) then Err
    else
      var group := config.value.channelGroup;
      var configMap := MapConfig(group, namespace);
      if configMap.Err? then Err
      else Ok(Validator(channelID, config.value.sequence, configMap.value, group.value, namespace, pm))
  }

  /** What the constructor establishes and nothing later changes. */
  ghost predicate Valid(vi: Validator) {
    LegalTree(vi.namespace, vi.group) && vi.configMap == Flatten(vi.namespace, vi.group)
  }

  predicate VerifyReadSet(vi: Validator, readSet: FlatMap) {
    forall k | k in readSet ::
      k in vi.configMap && vi.configMap[k].element.Version() == readSet[k].element.Version()
  }

  predicate ReadUnchanged(readSet: FlatMap, writeSet: FlatMap, k: string)
    requires k in writeSet
  {
    k in readSet && readSet[k].element.Version() == writeSet[k].element.Version()
  }

  function DeltaSet(readSet: FlatMap, writeSet: FlatMap): FlatMap {
    map k | k in writeSet && !ReadUnchanged(readSet, writeSet, k) :: writeSet[k]
  }

  predicate ValidateModPolicy(modPolicy: string) {
    modPolicy != "" &&
    var trimmed := if modPolicy[0] == '/' then modPolicy[1..] else modPolicy;
    forall name | name in Split(trimmed, '/') :: ValidateConfigID(name)
  }

  predicate VerifyDelta(vi: Validator, k: string, value: Comparable, signedData: seq<SignedData>) {
    && ValidateModPolicy(value.element.ModPolicy())
    && if k !in vi.configMap then value.element.Version() == 0
       else
         && value.element.Version() == vi.configMap[k].element.Version() + 1
         && ModPolicySatisfied(vi.pm, vi.configMap[k], signedData)
  }

  predicate VerifyDeltaSet(vi: Validator, deltaSet: FlatMap, signedData: seq<SignedData>) {
    && deltaSet != map[]
    && forall k | k in deltaSet :: VerifyDelta(vi, k, deltaSet[k], signedData)
  }

  predicate VerifyFullProposedConfig(writeSet: FlatMap, proposed: FlatMap) {
    forall k | k in writeSet :: k in proposed
  }

  /** The delta laid over the current configuration. */
  function UpdateResult(vi: Validator, deltaSet: FlatMap): FlatMap {
    vi.configMap + deltaSet
  }

  ghost function AuthorizeUpdate(vi: Validator, tx: ConfigTx): Result<FlatMap> {
    if tx.MalformedTx? || tx.update.channelID != vi.channelID then Err
    else
      var readSet, writeSet := MapConfig(tx.update.readSet, vi.namespace), MapConfig(tx.update.writeSet, vi.namespace);
      if readSet.Err? || !VerifyReadSet(vi, readSet.value) || writeSet.Err? || tx.signedData.Err? then Err
      else
        var deltaSet := DeltaSet(readSet.value, writeSet.value);
        if !VerifyDeltaSet(vi, deltaSet, tx.signedData.value) then Err
        else
          var proposed := UpdateResult(vi, deltaSet);
          if VerifyFullProposedConfig(writeSet.value, proposed) then Ok(proposed) else Err
  }

  ghost function ProposeConfigUpdate(vi: Validator, tx: ConfigTx): Result<Config> {
    var configMap := AuthorizeUpdate(vi, tx);
    if configMap.Err? then Err
    else
      var group := Rebuild(Child("", vi.namespace), configMap.value);
      if group.Err? then Err else Ok(Config(vi.sequence + 1, Some(group.value)))
  }

  datatype ConfigEnvelope = ConfigEnvelope(config: Option<Config>, lastUpdate: ConfigTx)

  ghost predicate Validate(vi: Validator, env: Option<ConfigEnvelope>) {
    && env.Some? && env.value.config.Some?
    && env.value.config.value.sequence == vi.sequence + 1
    && var configMap := AuthorizeUpdate(vi, env.value.lastUpdate);
       configMap.Ok? &&
       var group := Rebuild(Child("", vi.namespace), configMap.value);
       group.Ok? && Some(group.value) == env.value.config.value.channelGroup
  }

  // ----------------------------------------------------------- the update loops

  method ComputeDeltaSet(readSet: FlatMap, writeSet: FlatMap) returns (result: FlatMap)
    ensures result == DeltaSet(readSet, writeSet)
  {
    result := map[];
    var todo := writeSet.Keys;
    while todo != {}
      invariant todo <= writeSet.Keys
      invariant forall k :: k in result <==> k in writeSet && k !in todo && !ReadUnchanged(readSet, writeSet, k)
      invariant forall k | k in result :: result[k] == writeSet[k]
    {
      var k :| k in todo;
      todo := todo - {k};
      if ReadUnchanged(readSet, writeSet, k) {
        continue;
      }
      result := result[k := writeSet[k]];
    }
  }

  method ComputeUpdateResult(vi: Validator, updated: FlatMap) returns (result: FlatMap)
    ensures result == UpdateResult(vi, updated)
  {
    result := map[];
    var todo := vi.configMap.Keys;
    while todo != {}
      invariant todo <= vi.configMap.Keys
      invariant result.Keys == vi.configMap.Keys - todo
      invariant forall k | k in result :: result[k] == vi.configMap[k]
    {
      var k :| k in todo;
      result := result[k := vi.configMap[k]];
      todo := todo - {k};
    }
    todo := updated.Keys;
    while todo != {}
      invariant todo <= updated.Keys
      invariant result.Keys == vi.configMap.Keys + (updated.Keys - todo)
      invariant forall k | k in result ::
                  result[k] == if k in updated && k !in todo then updated[k] else vi.configMap[k]
    {
      var k :| k in todo;
      result := result[k := updated[k]];
      todo := todo - {k};
    }
  }

  method ComputeProposal(vi: Validator, tx: ConfigTx) returns (r: Result<Config>)
    ensures r == ProposeConfigUpdate(vi, tx)
  {
    hide MapConfig, Rebuild, VerifyReadSet, VerifyDeltaSet, VerifyFullProposedConfig, DeltaSet, UpdateResult, Child;
    if tx.MalformedTx? || tx.update.channelID != vi.channelID {
      return Err;
    }
    var readSet := ComputeMapConfig(tx.update.readSet, vi.namespace);
    if readSet.Err? || !VerifyReadSet(vi, readSet.value) {
      return Err;
    }
    var writeSet := ComputeMapConfig(tx.update.writeSet, vi.namespace);
    if writeSet.Err? || tx.signedData.Err? {
      return Err;
    }
    var deltaSet := ComputeDeltaSet(readSet.value, writeSet.value);
    if !VerifyDeltaSet(vi, deltaSet, tx.signedData.value) {
      return Err;
    }
    var proposed := ComputeUpdateResult(vi, deltaSet);
    if !VerifyFullProposedConfig(writeSet.value, proposed) {
      return Err;
    }
    var group := RecurseConfigMap(Child("", vi.namespace), proposed);
    if group.Err? {
      return Err;
    }
    return Ok(Config(vi.sequence + 1, Some(group.value)));
  }
}
