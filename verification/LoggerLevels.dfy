/** The levels of named loggers: activating a specification, looking a level up, the fast check. */
module LoggerLevels {
  import opened Common
  import opened Texts

  type Level = int

  const PAYLOAD: Level := -2
  const DEBUG: Level := -1
  const INFO: Level := 0
  const WARN: Level := 1
  const ERROR: Level := 2
  const DPANIC: Level := 3
  const PANIC: Level := 4
  const FATAL: Level := 5

  function LevelOfName(name: string): Option<Level> {
    if name == "PAYLOAD" || name == "payload" then Some(PAYLOAD)
    else if name == "DEBUG" || name == "debug" then Some(DEBUG)
    else if name == "INFO" || name == "info" || name == "NOTICE" || name == "notice" then Some(INFO)
    else if name == "WARNING" || name == "WARN" || name == "warning" || name == "warn" then Some(WARN)
    else if name == "ERROR" || name == "error" || name == "CRITICAL" || name == "critical" then Some(ERROR)
    else if name == "DPANIC" || name == "dpanic" then Some(DPANIC)
    else if name == "PANIC" || name == "panic" then Some(PANIC)
    else if name == "FATAL" || name == "fatal" then Some(FATAL)
    else None
  }

  function NameToLevel(name: string): Level {
    if LevelOfName(name).Some? then LevelOfName(name).value else INFO
  }

  /** How a level prints. The logging library has no name for the payload level. */
  function PrintedLevel(level: Level): string {
    if level == PAYLOAD then "Level(-2)"
    else if level == DEBUG then "debug"
    else if level == INFO then "info"
    else if level == WARN then "warn"
    else if level == ERROR then "error"
    else if level == DPANIC then "dpanic"
    else if level == PANIC then "panic"
    else "fatal"
  }

  // -------------------------------------------------------------- which level applies

  datatype Spec = Spec(entries: map<string, Level>, defaultLevel: Level)

  /** A place where a logger name can be cut: at its end or before a dot. */
  predicate Boundary(name: string, i: int) {
    0 < i <= |name| && (i == |name| || name[i] == '.')
  }

  predicate Matches(spec: Spec, name: string, i: int) {
    Boundary(name, i) && name[..i] in spec.entries
  }

  /**
   The level of a logger: of the entry for exactly this logger, else of the longest entry that is
   a prefix of the name up to a dot, else the default.
   */
  ghost predicate MostSpecific(spec: Spec, name: string, level: Level) {
    if name + "." in spec.entries then level == spec.entries[name + "."]
    else if exists i :: Matches(spec, name, i) then
      exists i ::
        Matches(spec, name, i) && level == spec.entries[name[..i]] && forall j :: Matches(spec, name, j) ==> j <= i
    else level == spec.defaultLevel
  }

  function LongestEntry(spec: Spec, name: string, n: nat): Level
    requires n <= |name|
  {
    if n == 0 then spec.defaultLevel
    else if Matches(spec, name, n) then spec.entries[name[..n]]
    else LongestEntry(spec, name, n - 1)
  }

  function LevelOf(spec: Spec, name: string): Level {
    if name + "." in spec.entries then spec.entries[name + "."] else LongestEntry(spec, name, |name|)
  }

  lemma {:induction false} LongestEntryIs(spec: Spec, name: string, n: nat)
    requires n <= |name| && forall j | n < j :: !Matches(spec, name, j)
    ensures if exists i :: Matches(spec, name, i) then
              exists i :: Matches(spec, name, i) && LongestEntry(spec, name, n) == spec.entries[name[..i]]
                          && forall j :: Matches(spec, name, j) ==> j <= i
            else LongestEntry(spec, name, n) == spec.defaultLevel
  {
    if n > 0 && !Matches(spec, name, n) {
      LongestEntryIs(spec, name, n - 1);
    } else if n > 0 {
      assert Matches(spec, name, n);
    }
  }

  lemma LevelIsMostSpecific(spec: Spec, name: string)
    ensures MostSpecific(spec, name, LevelOf(spec, name))
  {
    LongestEntryIs(spec, name, |name|);
  }

  /** At most one level is the most specific. */
  lemma MostSpecificIsUnique(spec: Spec, name: string, a: Level, b: Level)
    requires MostSpecific(spec, name, a) && MostSpecific(spec, name, b)
    ensures a == b
  {
    if name + "." !in spec.entries && exists i :: Matches(spec, name, i) {
      var i :| Matches(spec, name, i) && a == spec.entries[name[..i]] && forall j :: Matches(spec, name, j) ==> j <= i;
      var k :| Matches(spec, name, k) && b == spec.entries[name[..k]] && forall j :: Matches(spec, name, j) ==> j <= k;
      assert i == k;
    }
  }

  /** No entry matches between two cuts without a dot in between. */
  lemma {:induction false} SkipsToDot(spec: Spec, name: string, from: nat, n: nat)
    requires from <= n <= |name| && forall i | from < i <= n :: !Matches(spec, name, i)
    ensures LongestEntry(spec, name, n) == LongestEntry(spec, name, from)
    decreases n
  {
    if from < n {
      SkipsToDot(spec, name, from, n - 1);
    }
  }

  // ------------------------------------------------------------------------- the state

  predicate LegalChar(c: char) {
    'a' <= c <= 'z' || 'A' <= c <= 'Z' || '0' <= c <= '9' || c in "_#:-"
  }

  predicate LegalPart(part: string) {
    part != "" && forall i | 0 <= i < |part| :: LegalChar(part[i])
  }

  /** Dot-separated parts of legal characters, none of them empty. */
  predicate LegalName(name: string) {
    var parts := Split(name, '.');
    forall i | 0 <= i < |parts| :: LegalPart(parts[i])
  }

  function TrimDot(name: string): string {
    if name != "" && name[|name| - 1] == '.' then name[..|name| - 1] else name
  }

  function WithLoggers(spec: Spec, loggers: seq<string>, level: Level): Result<Spec> {
    if loggers == [] then Ok(spec)
    else
      var k := |loggers| - 1;
      var before := WithLoggers(spec, loggers[..k], level);
      if before.Err? || !LegalName(TrimDot(loggers[k])) then Err
      else Ok(before.value.(entries := before.value.entries[loggers[k] := level]))
  }

  /** One field: a default level, or loggers and their level. */
  function WithField(spec: Spec, field: string): Result<Spec> {
    var split := Split(field, '=');
    if |split| == 1 then
      if field != "" && LevelOfName(field).None? then Err else Ok(spec.(defaultLevel := NameToLevel(field)))
    else if |split| == 2 then
      if split[0] == "" || LevelOfName(split[1]).None? then Err
      else WithLoggers(spec, Split(split[0], ','), NameToLevel(split[1]))
    else Err
  }

  function WithFields(spec: Spec, fields: seq<string>): Result<Spec> {
    if fields == [] then Ok(spec)
    else
      var before := WithFields(spec, fields[..|fields| - 1]);
      if before.Err? then Err else WithField(before.value, fields[|fields| - 1])
  }

  function Parsed(text: string): Result<Spec> {
    WithFields(Spec(map[], INFO), Split(text, ':'))
  }

  /** Every entry once, in some order. */
  ghost predicate Enumerates(keys: seq<string>, spec: Spec) {
    NoRepeats(keys) && forall k :: k in keys <==> k in spec.entries
  }

  function PrintedEntries(spec: Spec, keys: seq<string>): (r: seq<string>)
    requires forall k | k in keys :: k in spec.entries
    ensures |r| == |keys|
  {
    seq(|keys|, i requires 0 <= i < |keys| => keys[i] + "=" + PrintedLevel(spec.entries[keys[i]]))
  }

  /** The printed form of a specification: its entries, then its default. */
  function Printed(spec: Spec, keys: seq<string>): string
    requires forall k | k in keys :: k in spec.entries
  {
    Join(PrintedEntries(spec, keys) + [PrintedLevel(spec.defaultLevel)], ":")
  }

  predicate IsMinimum(spec: Spec, level: Level) {
    && level <= spec.defaultLevel && (forall k | k in spec.entries :: level <= spec.entries[k])
    && (level == spec.defaultLevel || exists k :: k in spec.entries && level == spec.entries[k])
  }

  predicate KeysNonEmpty(spec: Spec) {
    "" !in spec.entries
  }

  class LoggerLevels {
    var levelCache: map<string, Level>
    var specs: map<string, Level>
    var defaultLevel: Level
    var minLevel: Level

    ghost function Active(): Spec
      reads this
    {
      Spec(specs, defaultLevel)
    }

    /** Cached levels are those of the active specification; every lock section keeps this. */
    ghost predicate Valid()
      reads this
    {
      && (forall n | n in levelCache :: levelCache[n] == LevelOf(Active(), n))
      && IsMinimum(Active(), minLevel) && KeysNonEmpty(Active())
    }

    constructor ()
      ensures Valid() && Active() == Spec(map[], INFO)
    {
      levelCache, specs, defaultLevel, minLevel := map[], map[], INFO, INFO;
    }

    /** Replaces the specification, or changes nothing if the text is malformed. */
    method ActivateSpec(text: string) returns (ok: bool)
      requires Valid()
      modifies this
      ensures Valid()
      ensures ok <==> Parsed(text).Ok?
      ensures ok ==> Parsed(text) == Ok(Active()) && levelCache == map[]
      ensures !ok ==> Active() == old(Active()) && levelCache == old(levelCache) && minLevel == old(minLevel)
    {
      hide LevelOf, WithField, WithFields, IsMinimum;
      ParsedKeys(text);
      var fields := Split(text, ':');
      var spec := Spec(map[], INFO);
      NoFields(spec);
      for i := 0 to |fields|
        invariant WithFields(Spec(map[], INFO), fields[..i]) == Ok(spec)
        invariant Active() == old(Active()) && levelCache == old(levelCache) && minLevel == old(minLevel)
      {
        OneMoreField(Spec(map[], INFO), fields, i);
        var r := ReadField(spec, fields[i]);
        if r.Err? {
          FieldsFail(Spec(map[], INFO), fields, i + 1);
          return false;
        }
        spec := r.value;
      }
      assert fields[..|fields|] == fields;
      var least := Minimum(spec);
      minLevel, defaultLevel, specs, levelCache := least, spec.defaultLevel, spec.entries, map[];
      ok := true;
    }

    method CachedLevel(name: string) returns (level: Option<Level>)
      ensures level == if name in levelCache then Some(levelCache[name]) else None
    {
      level := if name in levelCache then Some(levelCache[name]) else None;
    }

    /** Cuts the name back at its last dot until an entry matches. */
    method CalculateLevel(name: string) returns (level: Level)
      ensures level == LevelOf(Active(), name) && MostSpecific(Active(), name, level)
    {
      hide LongestEntry, MostSpecific;
      LevelIsMostSpecific(Active(), name);
      if name + "." in specs {
        return specs[name + "."];
      }
      var n := |name|;
      while n > 0
        invariant 0 <= n <= |name| && (n == 0 || Boundary(name, n))
        invariant LongestEntry(Active(), name, |name|) == LongestEntry(Active(), name, n)
      {
        LongestEntryHere(Active(), name, n);
        if name[..n] in specs {
          return specs[name[..n]];
        }
        var dot := LastDot(name[..n]);
        var next := if dot <= 0 then 0 else dot;
        SkipsToDot(Active(), name, next, n);
        n := next;
      }
      LongestEntryHere(Active(), name, 0);
      level := defaultLevel;
    }

    /** The level of a logger, from the cache if it is there. */
    method GetLevel(name: string) returns (level: Level)
      requires Valid()
      modifies this`levelCache
      ensures Valid() && level == LevelOf(Active(), name) && MostSpecific(Active(), name, level)
      ensures forall n | n in old(levelCache) :: n in levelCache && levelCache[n] == old(levelCache[n])
    {
      hide LevelOf, MostSpecific, IsMinimum;
      LevelIsMostSpecific(Active(), name);
      var cached := CachedLevel(name);
      if cached.Some? {
        return cached.value;
      }
      level := CalculateLevel(name);
      levelCache := levelCache[name := level];
    }

    /** The active specification as a text. */
    method SpecText() returns (text: string, ghost keys: seq<string>)
      ensures Enumerates(keys, Active()) && text == Printed(Active(), keys)
    {
      var fields := [];
      keys := [];
      var todo := specs.Keys;
      while todo != {}
        invariant todo <= specs.Keys && NoRepeats(keys)
        invariant forall k :: k in keys <==> k in specs && k !in todo
        invariant fields == PrintedEntries(Active(), keys)
      {
        var k :| k in todo;
        fields, keys := fields + [k + "=" + PrintedLevel(specs[k])], keys + [k];
        todo := todo - {k};
      }
      text := Join(fields + [PrintedLevel(defaultLevel)], ":");
    }

    /** Whether any logger at all might emit at the level. */
    method Enabled(level: Level) returns (enabled: bool)
      requires Valid()
      ensures enabled <==> exists name :: level >= LevelOf(Active(), name)
    {
      hide LevelOf, IsMinimum;
      enabled := level >= minLevel;
      MinimumIsReached(Active(), minLevel, level);
    }
  }

  /** The position of the last dot, or -1. */
  method LastDot(s: string) returns (i: int)
    ensures -1 <= i < |s| && (i >= 0 ==> s[i] == '.') && forall j | i < j < |s| :: s[j] != '.'
  {
    i := |s| - 1;
    while i >= 0 && s[i] != '.'
      invariant -1 <= i < |s| && forall j | i < j < |s| :: s[j] != '.'
    {
      i := i - 1;
    }
  }

  lemma LongestEntryHere(spec: Spec, name: string, n: nat)
    requires n == 0 || Boundary(name, n)
    ensures n <= |name|
    ensures n == 0 ==> LongestEntry(spec, name, n) == spec.defaultLevel
    ensures n > 0 && name[..n] in spec.entries ==> LongestEntry(spec, name, n) == spec.entries[name[..n]]
    ensures n > 0 && name[..n] !in spec.entries ==> !Matches(spec, name, n)
  {
  }

  // ------------------------------------------------------------------ reading the text

  method ReadLoggers(spec: Spec, loggers: seq<string>, level: Level) returns (r: Result<Spec>)
    ensures r == WithLoggers(spec, loggers, level)
  {
    hide LegalName;
    var entries := spec;
    for i := 0 to |loggers|
      invariant WithLoggers(spec, loggers[..i], level) == Ok(entries)
    {
      assert loggers[..i + 1][..i] == loggers[..i];
      if !LegalName(TrimDot(loggers[i])) {
        LoggersFail(spec, loggers, level, i + 1);
        return Err;
      }
      entries := entries.(entries := entries.entries[loggers[i] := level]);
    }
    assert loggers[..|loggers|] == loggers;
    r := Ok(entries);
  }

  method ReadField(spec: Spec, field: string) returns (r: Result<Spec>)
    ensures r == WithField(spec, field)
  {
    hide WithLoggers;
    var split := Split(field, '=');
    if |split| == 1 {
      if field != "" && LevelOfName(field).None? {
        return Err;
      }
      return Ok(spec.(defaultLevel := NameToLevel(field)));
    } else if |split| == 2 {
      if split[0] == "" {
        return Err;
      }
      if LevelOfName(split[1]).None? {
        return Err;
      }
      r := ReadLoggers(spec, Split(split[0], ','), NameToLevel(split[1]));
    } else {
      return Err;
    }
  }

  method Minimum(spec: Spec) returns (least: Level)
    ensures IsMinimum(spec, least)
  {
    least := spec.defaultLevel;
    var todo := spec.entries.Keys;
    while todo != {}
      invariant todo <= spec.entries.Keys && least <= spec.defaultLevel
      invariant forall k | k in spec.entries && k !in todo :: least <= spec.entries[k]
      invariant least == spec.defaultLevel || exists k :: k in spec.entries && least == spec.entries[k]
    {
      var k :| k in todo;
      if spec.entries[k] < least {
        least := spec.entries[k];
      }
      todo := todo - {k};
    }
  }

  lemma {:induction false} LoggersFail(spec: Spec, loggers: seq<string>, level: Level, k: nat)
    requires k <= |loggers| && WithLoggers(spec, loggers[..k], level).Err?
    ensures WithLoggers(spec, loggers, level).Err?
  {
    hide LegalName;
    if k == |loggers| {
      assert loggers[..k] == loggers;
    } else {
      assert loggers[..|loggers| - 1][..k] == loggers[..k];
      LoggersFail(spec, loggers[..|loggers| - 1], level, k);
    }
  }

  lemma {:induction false} FieldsFail(spec: Spec, fields: seq<string>, k: nat)
    requires k <= |fields| && WithFields(spec, fields[..k]).Err?
    ensures WithFields(spec, fields).Err?
  {
    hide WithField;
    if k == |fields| {
      assert fields[..k] == fields;
    } else {
      assert fields[..|fields| - 1][..k] == fields[..k];
      FieldsFail(spec, fields[..|fields| - 1], k);
    }
  }

  lemma NoFields(spec: Spec)
    ensures WithFields(spec, []) == Ok(spec)
  {
  }

  lemma OneMoreField(spec: Spec, fields: seq<string>, i: nat)
    requires i < |fields|
    ensures var before := WithFields(spec, fields[..i]);
            WithFields(spec, fields[..i + 1]) == if before.Err? then Err else WithField(before.value, fields[i])
  {
    hide WithField;
    assert fields[..i + 1][..i] == fields[..i];
  }

  lemma EmptyIsIllegal()
    ensures !LegalName(TrimDot(""))
  {
    assert Split("", '.')[0] == "" && !LegalPart(Split("", '.')[0]);
  }

  lemma {:induction false} LoggersKeys(spec: Spec, loggers: seq<string>, level: Level)
    requires KeysNonEmpty(spec) && WithLoggers(spec, loggers, level).Ok?
    ensures KeysNonEmpty(WithLoggers(spec, loggers, level).value)
  {
    if loggers != [] {
      LoggersKeys(spec, loggers[..|loggers| - 1], level);
      EmptyIsIllegal();
    }
  }

  lemma {:induction false} FieldsKeys(spec: Spec, fields: seq<string>)
    requires KeysNonEmpty(spec) && WithFields(spec, fields).Ok?
    ensures KeysNonEmpty(WithFields(spec, fields).value)
  {
    hide WithLoggers;
    if fields != [] {
      var k := |fields| - 1;
      FieldsKeys(spec, fields[..k]);
      var split := Split(fields[k], '=');
      if |split| == 2 {
        LoggersKeys(WithFields(spec, fields[..k]).value, Split(split[0], ','), NameToLevel(split[1]));
      }
    }
  }

  lemma ParsedKeys(text: string)
    ensures Parsed(text).Ok? ==> KeysNonEmpty(Parsed(text).value)
  {
    if Parsed(text).Ok? {
      FieldsKeys(Spec(map[], INFO), Split(text, ':'));
    }
  }

  // --------------------------------------------------------------- what the text means

  predicate Names(field: string, logger: string) {
    var split := Split(field, '=');
    |split| == 2 && logger in Split(split[0], ',')
  }

  /** The level a field gives to the loggers it names. */
  function LevelIn(field: string): Level {
    var split := Split(field, '=');
    if |split| == 2 then NameToLevel(split[1]) else INFO
  }

  predicate IsBareLevel(field: string) {
    |Split(field, '=')| == 1
  }

  predicate LastNaming(fields: seq<string>, logger: string, i: int) {
    0 <= i < |fields| && Names(fields[i], logger) && forall j | i < j < |fields| :: !Names(fields[j], logger)
  }

  predicate LastBare(fields: seq<string>, i: int) {
    0 <= i < |fields| && IsBareLevel(fields[i]) && forall j | i < j < |fields| :: !IsBareLevel(fields[j])
  }

  predicate SameEntry(a: Spec, b: Spec, logger: string) {
    (logger in a.entries <==> logger in b.entries) && (logger in a.entries ==> a.entries[logger] == b.entries[logger])
  }

  lemma {:induction false} LoggersAreSet(spec: Spec, loggers: seq<string>, level: Level, logger: string)
    requires WithLoggers(spec, loggers, level).Ok?
    ensures var r := WithLoggers(spec, loggers, level).value;
            && r.defaultLevel == spec.defaultLevel
            && (logger in loggers ==> logger in r.entries && r.entries[logger] == level)
            && (logger !in loggers ==> SameEntry(r, spec, logger))
  {
    hide LegalName;
    if loggers != [] {
      var k := |loggers| - 1;
      LoggersAreSet(spec, loggers[..k], level, logger);
      assert loggers == loggers[..k] + [loggers[k]];
    }
  }

  lemma FieldIsApplied(spec: Spec, field: string, logger: string)
    requires WithField(spec, field).Ok?
    ensures var r := WithField(spec, field).value;
            && (Names(field, logger) ==> logger in r.entries && r.entries[logger] == LevelIn(field))
            && (!Names(field, logger) ==> SameEntry(r, spec, logger))
            && r.defaultLevel == if IsBareLevel(field) then NameToLevel(field) else spec.defaultLevel
  {
    hide WithLoggers;
    var split := Split(field, '=');
    if |split| == 2 {
      LoggersAreSet(spec, Split(split[0], ','), NameToLevel(split[1]), logger);
    }
  }

  predicate NeverNamed(fields: seq<string>, logger: string) {
    forall i | 0 <= i < |fields| :: !Names(fields[i], logger)
  }

  predicate NoneBare(fields: seq<string>) {
    forall i | 0 <= i < |fields| :: !IsBareLevel(fields[i])
  }

  lemma LastNamingOf(fields: seq<string>, logger: string, i: int)
    requires fields != []
    ensures var k := |fields| - 1;
            && (LastNaming(fields, logger, i) ==>
                  if i == k then Names(fields[k], logger)
                  else i < k && !Names(fields[k], logger) && LastNaming(fields[..k], logger, i))
            && (NeverNamed(fields, logger) ==> !Names(fields[k], logger) && NeverNamed(fields[..k], logger))
  {
    hide Names;
  }

  lemma LastBareOf(fields: seq<string>, i: int)
    requires fields != []
    ensures var k := |fields| - 1;
            && (LastBare(fields, i) ==>
                  if i == k then IsBareLevel(fields[k])
                  else i < k && !IsBareLevel(fields[k]) && LastBare(fields[..k], i))
            && (NoneBare(fields) ==> !IsBareLevel(fields[k]) && NoneBare(fields[..k]))
  {
    hide IsBareLevel;
  }

  /** The last field that names a logger sets its entry; a logger no field names has the entry it had. */
  lemma {:induction false} LastNamingWins(spec: Spec, fields: seq<string>, logger: string, i: int)
    requires WithFields(spec, fields).Ok?
    ensures var r := WithFields(spec, fields).value;
            && (LastNaming(fields, logger, i) ==> logger in r.entries && r.entries[logger] == LevelIn(fields[i]))
            && (NeverNamed(fields, logger) ==> SameEntry(r, spec, logger))
  {
    if fields != [] {
      hide WithField, Names, LevelIn, LastNaming, NeverNamed;
      var k := |fields| - 1;
      LastNamingWins(spec, fields[..k], logger, i);
      FieldIsApplied(WithFields(spec, fields[..k]).value, fields[k], logger);
      LastNamingOf(fields, logger, i);
    }
  }

  /** The last bare level is the default; without any, the default is what it was. */
  lemma {:induction false} LastBareLevelWins(spec: Spec, fields: seq<string>, i: int)
    requires WithFields(spec, fields).Ok?
    ensures var r := WithFields(spec, fields).value;
            && (LastBare(fields, i) ==> r.defaultLevel == NameToLevel(fields[i]))
            && (NoneBare(fields) ==> r.defaultLevel == spec.defaultLevel)
  {
    if fields != [] {
      hide WithField, IsBareLevel, NameToLevel, LastBare, NoneBare;
      var k := |fields| - 1;
      LastBareLevelWins(spec, fields[..k], i);
      FieldIsApplied(WithFields(spec, fields[..k]).value, fields[k], "");
      LastBareOf(fields, i);
    }
  }

  // -------------------------------------------------------------------- the fast check

  lemma {:induction false} NotBelowMinimum(spec: Spec, least: Level, name: string, n: nat)
    requires IsMinimum(spec, least) && n <= |name|
    ensures least <= LongestEntry(spec, name, n)
  {
    if n > 0 && !Matches(spec, name, n) {
      NotBelowMinimum(spec, least, name, n - 1);
    }
  }

  /** A number no key reaches in length. */
  lemma LongerThanKeys(keys: set<string>) returns (n: nat)
    ensures n > 0 && forall k | k in keys :: |k| < n
  {
    if keys == {} {
      n := 1;
    } else {
      var k :| k in keys;
      var m := LongerThanKeys(keys - {k});
      n := if |k| < m then m else |k| + 1;
      forall j | j in keys ensures |j| < n {
        assert j == k || j in keys - {k};
      }
    }
  }

  function Xs(n: nat): (s: string)
    ensures |s| == n && forall i | 0 <= i < n :: s[i] == 'x'
  {
    seq(n, _ => 'x')
  }

  /** A logger no entry names gets the default. */
  lemma SomeLoggerHasDefault(spec: Spec) returns (name: string)
    ensures LevelOf(spec, name) == spec.defaultLevel
  {
    var n := LongerThanKeys(spec.entries.Keys);
    name := Xs(n);
    assert |name + "."| == n + 1;
    SkipsToDot(spec, name, 0, n);
  }

  /** Every entry decides the level of some logger. */
  lemma SomeLoggerHasEntry(spec: Spec, key: string) returns (name: string)
    requires KeysNonEmpty(spec) && key in spec.entries
    ensures LevelOf(spec, name) == spec.entries[key]
  {
    var k := |key| - 1;
    if key[k] == '.' {
      name := key[..k];
      assert name + "." == key;
    } else {
      var n := LongerThanKeys(spec.entries.Keys);
      name := key + "." + Xs(n);
      assert |name + "."| > n && |name| > n;
      forall i | |key| < i <= |name| ensures !Matches(spec, name, i) {
        assert i < |name| ==> name[i] == 'x';
        assert name[..|name|] == name;
      }
      SkipsToDot(spec, name, |key|, |name|);
      assert name[..|key|] == key && name[|key|] == '.';
      assert Matches(spec, name, |key|);
    }
  }

  /** The minimum passes exactly the levels at which some logger emits. */
  lemma MinimumIsReached(spec: Spec, least: Level, level: Level)
    requires IsMinimum(spec, least) && KeysNonEmpty(spec)
    ensures level >= least <==> exists name :: level >= LevelOf(spec, name)
  {
    forall name ensures least <= LevelOf(spec, name) {
      NotBelowMinimum(spec, least, name, |name|);
    }
    if least == spec.defaultLevel {
      var name := SomeLoggerHasDefault(spec);
      assert LevelOf(spec, name) == least;
    } else {
      var k :| k in spec.entries && least == spec.entries[k];
      var name := SomeLoggerHasEntry(spec, k);
      assert LevelOf(spec, name) == least;
    }
  }
}
