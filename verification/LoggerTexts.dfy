/** Which texts are logging specifications, what they mean, and when a printed one can be read again. */
module LoggerTexts {
  import opened Common
  import opened Texts
  import opened Levels = LoggerLevels

  // ------------------------------------------------------------------- names of levels

  /** The names of a level, in small letters or in capitals. */
  function NamesOf(level: Level): set<string> {
    if level == PAYLOAD then {"payload", "PAYLOAD"}
    else if level == DEBUG then {"debug", "DEBUG"}
    else if level == INFO then {"info", "INFO", "notice", "NOTICE"}
    else if level == WARN then {"warn", "WARN", "warning", "WARNING"}
    else if level == ERROR then {"error", "ERROR", "critical", "CRITICAL"}
    else if level == DPANIC then {"dpanic", "DPANIC"}
    else if level == PANIC then {"panic", "PANIC"}
    else if level == FATAL then {"fatal", "FATAL"}
    else {}
  }

  /** The length and the first letter tell the names of different levels apart. */
  function LevelBySign(length: nat, first: char): Level {
    if length == 7 && first in "pP" then PAYLOAD
    else if length == 5 && first in "dD" then DEBUG
    else if first in "iInN" then INFO
    else if first in "wW" then WARN
    else if first in "eEcC" then ERROR
    else if length == 6 && first in "dD" then DPANIC
    else if length == 5 && first in "pP" then PANIC
    else FATAL
  }

  lemma SignOfName(name: string, level: Level)
    requires name in NamesOf(level)
    ensures name != "" && LevelBySign(|name|, name[0]) == level
  {
  }

  lemma NamedBy(name: string)
    ensures LevelOfName(name).Some? ==> name in NamesOf(LevelOfName(name).value)
  {
  }

  lemma NameIsKnown(name: string, level: Level)
    requires name in NamesOf(level)
    ensures LevelOfName(name).Some?
  {
  }

  /** A text means a level exactly if it is one of its names. */
  lemma LevelNames(name: string, level: Level)
    ensures LevelOfName(name) == Some(level) <==> name in NamesOf(level)
  {
    hide LevelOfName, NamesOf, LevelBySign;
    NamedBy(name);
    if name in NamesOf(level) {
      NameIsKnown(name, level);
      SignOfName(name, level);
      SignOfName(name, LevelOfName(name).value);
    }
  }

  lemma LowNamesAreLetters(name: string, level: Level)
    requires name in NamesOf(level) && level <= WARN
    ensures name != "" && Without(name, ':') && Without(name, '=')
  {
  }

  lemma HighNamesAreLetters(name: string, level: Level)
    requires name in NamesOf(level) && level > WARN
    ensures name != "" && Without(name, ':') && Without(name, '=')
  {
  }

  predicate IsLevel(name: string) {
    LevelOfName(name).Some?
  }

  lemma LevelIsPlain(name: string)
    requires IsLevel(name)
    ensures name != "" && Without(name, ':') && Without(name, '=')
  {
    hide LevelOfName, NamesOf;
    NamedBy(name);
    var level := LevelOfName(name).value;
    if level <= WARN { LowNamesAreLetters(name, level); } else { HighNamesAreLetters(name, level); }
  }

  // --------------------------------------------------------------------- the grammar

  /** One field: a level alone, or loggers and their level. */
  datatype Field = Bare(level: string) | Assigns(loggers: seq<string>, level: string)

  /** Dot-separated parts of legal characters, with or without a dot at the end, and no field separator. */
  ghost predicate LegalLogger(logger: string) {
    Without(logger, ':') && exists parts :: LoggerOf(logger, parts)
  }

  /** Letters, digits, underscores, hashes, colons and dashes, at least one of them. */
  predicate LoggerPart(part: string) {
    && part != ""
    && forall c | c in part ::
         'a' <= c <= 'z' || 'A' <= c <= 'Z' || '0' <= c <= '9' || c == '_' || c == '#' || c == ':' || c == '-'
  }

  lemma PartIsLegal(part: string)
    ensures LegalPart(part) <==> LoggerPart(part)
  {
    if LegalPart(part) {
      forall c | c in part
        ensures 'a' <= c <= 'z' || 'A' <= c <= 'Z' || '0' <= c <= '9' || c == '_' || c == '#' || c == ':' || c == '-'
      {
        var i :| 0 <= i < |part| && part[i] == c;
      }
    }
    if LoggerPart(part) {
      assert forall i | 0 <= i < |part| :: part[i] in part;
    }
  }

  predicate LoggerOf(logger: string, parts: seq<string>) {
    && parts != [] && (forall i | 0 <= i < |parts| :: LoggerPart(parts[i]))
    && (logger == Join(parts, ".") || logger == Join(parts, ".") + ".")
  }

  /** A level alone may be left out; loggers need a level, and there is at least one of them. */
  ghost predicate LegalField(f: Field) {
    match f
    case Bare(level) => level == "" || IsLevel(level)
    case Assigns(loggers, level) =>
      loggers != [] && (forall i | 0 <= i < |loggers| :: LegalLogger(loggers[i])) && IsLevel(level)
  }

  function FieldText(f: Field): string {
    match f
    case Bare(level) => level
    case Assigns(loggers, level) => Join(loggers, ",") + "=" + level
  }

  function FieldTexts(fs: seq<Field>): (r: seq<string>)
    ensures |r| == |fs|
  {
    seq(|fs|, i requires 0 <= i < |fs| => FieldText(fs[i]))
  }

  ghost predicate LegalFields(fs: seq<Field>) {
    fs != [] && forall i | 0 <= i < |fs| :: LegalField(fs[i])
  }

  // ------------------------------------------------------------------ legal loggers

  lemma {:induction false} JoinWithout(parts: seq<string>, separator: string, c: char)
    requires AllWithout(parts, c) && Without(separator, c)
    ensures Without(Join(parts, separator), c)
  {
    if |parts| > 1 { JoinWithout(parts[..|parts| - 1], separator, c); }
  }

  lemma {:induction false} JoinedIsWithout(parts: seq<string>, separator: string, c: char, i: nat)
    requires Without(Join(parts, separator), c) && i < |parts|
    ensures Without(parts[i], c)
  {
    if |parts| > 1 {
      var init, last := parts[..|parts| - 1], parts[|parts| - 1];
      var text := Join(init, separator);
      assert forall x | x in text :: x in text + separator + last;
      assert forall x | x in last :: x in text + separator + last;
      if i < |init| { JoinedIsWithout(init, separator, c, i); }
    }
  }

  lemma LegalPartIsPlain(part: string)
    requires LegalPart(part)
    ensures Without(part, '.') && Without(part, ',') && Without(part, '=')
  {
  }

  lemma {:induction false} JoinEndsWithLast(parts: seq<string>, separator: string)
    requires parts != [] && parts[|parts| - 1] != ""
    ensures var text, last := Join(parts, separator), parts[|parts| - 1];
            text != "" && text[|text| - 1] == last[|last| - 1]
  {
  }

  /** The names that pass are those made of legal parts. */
  lemma LegalNameForms(name: string)
    ensures LegalName(name)
       <==> exists parts ::
              parts != [] && (forall i | 0 <= i < |parts| :: LegalPart(parts[i])) && name == Join(parts, ".")
  {
    hide LegalPart, Split, Join;
    if LegalName(name) { JoinSplit(name, '.'); }
    if parts :| parts != [] && (forall i | 0 <= i < |parts| :: LegalPart(parts[i])) && name == Join(parts, ".") {
      forall i | 0 <= i < |parts| ensures Without(parts[i], '.') { LegalPartIsPlain(parts[i]); }
      SplitJoin(parts, '.');
    }
  }

  lemma LegalLoggerForms(logger: string)
    ensures LegalLogger(logger) <==> Without(logger, ':') && LegalName(TrimDot(logger))
  {
    hide LegalName, LoggerOf, TrimDot;
    if parts :| LoggerOf(logger, parts) { PartsAreName(logger, parts); }
    if LegalName(TrimDot(logger)) { var parts := NameHasParts(logger); }
  }

  lemma PartsAreName(logger: string, parts: seq<string>)
    requires LoggerOf(logger, parts)
    ensures LegalName(TrimDot(logger))
  {
    hide LegalName, Join, LegalPart, LoggerPart;
    forall i | 0 <= i < |parts| ensures LegalPart(parts[i]) { PartIsLegal(parts[i]); }
    var name := Join(parts, ".");
    EndOfName(parts);
    assert (name + ".")[..|name|] == name;
    LegalNameForms(name);
  }

  lemma NameHasParts(logger: string) returns (parts: seq<string>)
    requires LegalName(TrimDot(logger))
    ensures LoggerOf(logger, parts)
  {
    hide LegalName, Join, LegalPart, LoggerPart;
    LegalNameForms(TrimDot(logger));
    parts :| parts != [] && (forall i | 0 <= i < |parts| :: LegalPart(parts[i])) && TrimDot(logger) == Join(parts, ".");
    forall i | 0 <= i < |parts| ensures LoggerPart(parts[i]) { PartIsLegal(parts[i]); }
  }

  lemma EndOfName(parts: seq<string>)
    requires parts != [] && forall i | 0 <= i < |parts| :: LegalPart(parts[i])
    ensures var text := Join(parts, "."); text != "" && text[|text| - 1] != '.'
  {
    hide Join;
    var last := parts[|parts| - 1];
    JoinEndsWithLast(parts, ".");
    LegalPartIsPlain(last);
    assert last[|last| - 1] in last;
  }

  lemma LegalLoggerIsPlain(logger: string)
    requires LegalLogger(logger)
    ensures logger != "" && Without(logger, ',') && Without(logger, '=')
  {
    hide Join, LegalPart, LoggerPart;
    var parts :| LoggerOf(logger, parts);
    forall i | 0 <= i < |parts| ensures LegalPart(parts[i]) { PartIsLegal(parts[i]); }
    EndOfName(parts);
    forall i | 0 <= i < |parts| ensures Without(parts[i], ',') && Without(parts[i], '=') {
      LegalPartIsPlain(parts[i]);
    }
    JoinWithout(parts, ".", ',');
    JoinWithout(parts, ".", '=');
  }

  // ------------------------------------------------------------------------- fields

  lemma LoggersArePlain(loggers: seq<string>)
    requires loggers != [] && forall i | 0 <= i < |loggers| :: LegalLogger(loggers[i])
    ensures AllWithout(loggers, ',') && AllWithout(loggers, ':')
    ensures var text := Join(loggers, ","); text != "" && Without(text, '=') && Without(text, ':')
  {
    hide Join;
    forall i | 0 <= i < |loggers| ensures Without(loggers[i], ',') && Without(loggers[i], '=') && loggers[i] != "" {
      LegalLoggerIsPlain(loggers[i]);
    }
    JoinWithout(loggers, ",", '=');
    JoinWithout(loggers, ",", ':');
    JoinEndsWithLast(loggers, ",");
  }

  /** How a legal field is taken apart again. */
  lemma FieldParts(f: Field)
    requires LegalField(f)
    ensures Without(FieldText(f), ':')
    ensures var split := Split(FieldText(f), '=');
            match f
            case Bare(level) => split == [level]
            case Assigns(loggers, level) =>
              |split| == 2 && split[0] != "" && Split(split[0], ',') == loggers && split[1] == level
  {
    hide Split, Join, IsLevel, LegalLogger;
    if f.level != "" { LevelIsPlain(f.level); }
    SplitNothing(f.level, '=');
    if f.Assigns? {
      LoggersArePlain(f.loggers);
      SplitOff(Join(f.loggers, ","), '=', f.level);
      SplitJoin(f.loggers, ',');
    }
  }

  lemma {:induction false} LoggersAccepted(spec: Spec, loggers: seq<string>, level: Level)
    ensures WithLoggers(spec, loggers, level).Ok?
       <==> forall i | 0 <= i < |loggers| :: LegalName(TrimDot(loggers[i]))
  {
    hide LegalName, TrimDot;
    if loggers != [] {
      LoggersAccepted(spec, loggers[..|loggers| - 1], level);
    }
  }

  /** A legal field is accepted, whatever came before it. */
  lemma LegalIsAccepted(spec: Spec, f: Field)
    requires LegalField(f)
    ensures WithField(spec, FieldText(f)).Ok?
  {
    hide Split, Join, WithLoggers, LegalName, TrimDot, FieldText, LevelOfName;
    FieldParts(f);
    if f.Assigns? {
      LoggersAccepted(spec, f.loggers, NameToLevel(f.level));
      forall i | 0 <= i < |f.loggers| ensures LegalName(TrimDot(f.loggers[i])) { LegalLoggerForms(f.loggers[i]); }
    } else {
      BareText(f);
    }
  }

  lemma BareText(f: Field)
    requires f.Bare?
    ensures FieldText(f) == f.level
  {
  }

  /** And only such fields are. */
  lemma AcceptedIsLegal(spec: Spec, field: string) returns (f: Field)
    requires WithField(spec, field).Ok? && Without(field, ':')
    ensures LegalField(f) && FieldText(f) == field
  {
    hide Split, Join, WithLoggers, LegalName, TrimDot, LegalLogger, LevelOfName;
    var split := Split(field, '=');
    JoinSplit(field, '=');
    if |split| == 1 {
      f := Bare(field);
    } else {
      var loggers := Split(split[0], ',');
      f := Assigns(loggers, split[1]);
      JoinSplit(split[0], ',');
      JoinFirst(split, "=");
      JoinOne(split[1..], "=");
      LoggersAccepted(spec, loggers, NameToLevel(split[1]));
      assert forall x | x in split[0] :: x in split[0] + "=" + split[1];
      forall i | 0 <= i < |loggers| ensures LegalLogger(loggers[i]) {
        JoinedIsWithout(loggers, ",", ':', i);
        LegalLoggerForms(loggers[i]);
      }
    }
  }

  // -------------------------------------------------------------------------- texts

  lemma {:induction false} LegalAreAccepted(spec: Spec, fs: seq<Field>)
    requires forall i | 0 <= i < |fs| :: LegalField(fs[i])
    ensures WithFields(spec, FieldTexts(fs)).Ok?
  {
    hide WithField, FieldText, LegalField;
    if fs != [] {
      var k := |fs| - 1;
      LegalAreAccepted(spec, fs[..k]);
      assert FieldTexts(fs)[..k] == FieldTexts(fs[..k]);
      LegalIsAccepted(WithFields(spec, FieldTexts(fs[..k])).value, fs[k]);
    }
  }

  lemma {:induction false} AcceptedAreLegal(spec: Spec, fields: seq<string>) returns (fs: seq<Field>)
    requires WithFields(spec, fields).Ok? && AllWithout(fields, ':')
    ensures (forall i | 0 <= i < |fs| :: LegalField(fs[i])) && FieldTexts(fs) == fields
  {
    hide WithField, FieldText, LegalField;
    fs := [];
    if fields != [] {
      var k := |fields| - 1;
      fs := AcceptedAreLegal(spec, fields[..k]);
      assert FieldTexts(fs) == fields[..k];
      var f := AcceptedIsLegal(WithFields(spec, fields[..k]).value, fields[k]);
      fs := fs + [f];
      assert fields == fields[..k] + [fields[k]];
    }
  }

  lemma TextIsItsFields(fs: seq<Field>)
    requires LegalFields(fs)
    ensures Split(Join(FieldTexts(fs), ":"), ':') == FieldTexts(fs)
  {
    hide Split, Join, FieldText, LegalField;
    forall i | 0 <= i < |fs| ensures Without(FieldText(fs[i]), ':') { FieldParts(fs[i]); }
    SplitJoin(FieldTexts(fs), ':');
  }

  /**
   The texts that can be activated are exactly those of the documented form: fields separated by
   colons, each a level or loggers separated by commas, an equals sign and a level.
   */
  lemma AcceptedTexts(text: string)
    ensures Parsed(text).Ok? <==> exists fs :: LegalFields(fs) && text == Join(FieldTexts(fs), ":")
  {
    hide Split, Join, FieldText, LegalField, WithFields;
    if Parsed(text).Ok? {
      SplitIsWithout(text, ':');
      JoinSplit(text, ':');
      var fs := AcceptedAreLegal(Spec(map[], INFO), Split(text, ':'));
      assert |FieldTexts(fs)| == |fs|;
      assert LegalFields(fs);
    }
    if fs :| LegalFields(fs) && text == Join(FieldTexts(fs), ":") {
      TextIsItsFields(fs);
      LegalAreAccepted(Spec(map[], INFO), fs);
    }
  }

  // ------------------------------------------------------------------------ meaning

  /** Field `i` is the last that gives a level to the logger. */
  predicate LastFor(fs: seq<Field>, logger: string, i: int) {
    && 0 <= i < |fs| && fs[i].Assigns? && logger in fs[i].loggers
    && forall j | i < j < |fs| && fs[j].Assigns? :: logger !in fs[j].loggers
  }

  /** Field `i` is the last level alone. */
  predicate LastAlone(fs: seq<Field>, i: int) {
    0 <= i < |fs| && fs[i].Bare? && forall j | i < j < |fs| :: fs[j].Assigns?
  }

  lemma FieldMeans(f: Field, logger: string)
    requires LegalField(f)
    ensures Names(FieldText(f), logger) <==> f.Assigns? && logger in f.loggers
    ensures IsBareLevel(FieldText(f)) <==> f.Bare?
    ensures f.Assigns? ==> LevelIn(FieldText(f)) == NameToLevel(f.level)
  {
    hide Split, FieldText, NameToLevel;
    FieldParts(f);
  }

  /** An entry says what the last field for its logger says, and there is one for every logger some field is for. */
  lemma EntriesMean(fs: seq<Field>, logger: string, i: int)
    requires LegalFields(fs)
    ensures var r := Parsed(Join(FieldTexts(fs), ":"));
            && r.Ok?
            && (LastFor(fs, logger, i) ==>
                  logger in r.value.entries && LevelOfName(fs[i].level) == Some(r.value.entries[logger]))
            && ((forall j | 0 <= j < |fs| && fs[j].Assigns? :: logger !in fs[j].loggers) ==>
                  logger !in r.value.entries)
  {
    hide Split, Join, FieldText, LegalField, WithFields, Names, LevelIn, LevelOfName;
    TextIsItsFields(fs);
    LegalAreAccepted(Spec(map[], INFO), fs);
    var texts := FieldTexts(fs);
    forall j | 0 <= j < |fs|
      ensures Names(texts[j], logger) <==> fs[j].Assigns? && logger in fs[j].loggers
    {
      FieldMeans(fs[j], logger);
    }
    LastNamingWins(Spec(map[], INFO), texts, logger, i);
    if LastFor(fs, logger, i) {
      FieldMeans(fs[i], logger);
      LevelOfLegal(fs[i]);
    }
  }

  lemma LevelOfLegal(f: Field)
    requires LegalField(f) && (f.Assigns? || f.level != "")
    ensures LevelOfName(f.level) == Some(NameToLevel(f.level))
  {
    hide LevelOfName, LegalLogger;
  }

  /** The default is the last level alone; info if it is left out or there is none. */
  lemma DefaultMeans(fs: seq<Field>, i: int)
    requires LegalFields(fs)
    ensures var r := Parsed(Join(FieldTexts(fs), ":"));
            && r.Ok?
            && (LastAlone(fs, i) ==>
                  if fs[i].level == "" then r.value.defaultLevel == INFO
                  else LevelOfName(fs[i].level) == Some(r.value.defaultLevel))
            && ((forall j | 0 <= j < |fs| :: fs[j].Assigns?) ==> r.value.defaultLevel == INFO)
  {
    hide Split, Join, FieldText, LegalField, WithFields, IsBareLevel, LevelOfName, NameToLevel;
    TextIsItsFields(fs);
    LegalAreAccepted(Spec(map[], INFO), fs);
    var texts := FieldTexts(fs);
    forall j | 0 <= j < |fs| ensures IsBareLevel(texts[j]) <==> fs[j].Bare? { FieldMeans(fs[j], ""); }
    LastBareLevelWins(Spec(map[], INFO), texts, i);
    if LastAlone(fs, i) {
      BareText(fs[i]);
      if fs[i].level == "" { NoLevelIsInfo(); } else { LevelOfLegal(fs[i]); }
    }
  }

  lemma NoLevelIsInfo()
    ensures NameToLevel("") == INFO
  {
  }

  // ----------------------------------------------------------------- reading what was printed

  lemma {:induction false} FindLast(fs: seq<Field>, logger: string) returns (i: int)
    ensures if exists j :: 0 <= j < |fs| && fs[j].Assigns? && logger in fs[j].loggers then LastFor(fs, logger, i)
            else i == -1
  {
    i := |fs| - 1;
    if fs != [] && !(fs[i].Assigns? && logger in fs[i].loggers) {
      i := FindLast(fs[..|fs| - 1], logger);
    }
  }

  /** What activation yields: legal loggers, and levels that have names. */
  lemma ParsedIsLegal(text: string, logger: string)
    requires Parsed(text).Ok? && logger in Parsed(text).value.entries
    ensures LegalLogger(logger) && exists name :: LevelOfName(name) == Some(Parsed(text).value.entries[logger])
  {
    hide Split, Join, FieldTexts, LevelOfName, LegalLogger, WithFields, Parsed;
    AcceptedTexts(text);
    var fs :| LegalFields(fs) && text == Join(FieldTexts(fs), ":");
    var i := FindLast(fs, logger);
    EntriesMean(fs, logger, i);
    assert LegalField(fs[i]);
  }

  lemma DefaultIsNamed(text: string)
    requires Parsed(text).Ok?
    ensures exists name :: LevelOfName(name) == Some(Parsed(text).value.defaultLevel)
  {
    hide Split, Join, FieldTexts, LevelOfName, LegalLogger, WithFields, Parsed;
    AcceptedTexts(text);
    var fs :| LegalFields(fs) && text == Join(FieldTexts(fs), ":");
    var i := FindLastAlone(fs);
    DefaultMeans(fs, i);
    InfoHasName();
  }

  lemma {:induction false} FindLastAlone(fs: seq<Field>) returns (i: int)
    ensures if exists j :: 0 <= j < |fs| && fs[j].Bare? then LastAlone(fs, i) else i == -1
  {
    i := |fs| - 1;
    if fs != [] && fs[i].Assigns? {
      i := FindLastAlone(fs[..|fs| - 1]);
    }
  }

  lemma InfoHasName()
    ensures LevelOfName("info") == Some(INFO)
  {
    hide LevelOfName;
    LevelNames("info", INFO);
  }

  /** A level prints as one of its names, except the payload level. */
  lemma PrintedIsName(level: Level, name: string)
    requires LevelOfName(name) == Some(level)
    ensures level != PAYLOAD ==> LevelOfName(PrintedLevel(level)) == Some(level)
    ensures level == PAYLOAD ==> !IsLevel(PrintedLevel(level))
    ensures Without(PrintedLevel(level), ':') && Without(PrintedLevel(level), '=')
  {
    if level == PAYLOAD {
      PayloadHasNoName();
    } else {
      assert PrintedLevel(level) in NamesOf(level);
      LevelNames(PrintedLevel(level), level);
      LevelIsPlain(PrintedLevel(level));
    }
  }

  lemma PayloadHasNoName()
    ensures !IsLevel("Level(-2)")
  {
  }

  function PrintedFields(spec: Spec, keys: seq<string>): (fs: seq<Field>)
    requires forall k | k in keys :: k in spec.entries
    ensures |fs| == |keys| + 1 && fs[|keys|] == Bare(PrintedLevel(spec.defaultLevel))
    ensures forall i | 0 <= i < |keys| :: fs[i] == Assigns([keys[i]], PrintedLevel(spec.entries[keys[i]]))
  {
    seq(|keys|, i requires 0 <= i < |keys| => Assigns([keys[i]], PrintedLevel(spec.entries[keys[i]])))
    + [Bare(PrintedLevel(spec.defaultLevel))]
  }

  lemma PrintedTexts(spec: Spec, keys: seq<string>)
    requires forall k | k in keys :: k in spec.entries
    ensures FieldTexts(PrintedFields(spec, keys)) == PrintedEntries(spec, keys) + [PrintedLevel(spec.defaultLevel)]
  {
    hide PrintedLevel;
    forall i | 0 <= i < |keys|
      ensures FieldTexts(PrintedFields(spec, keys))[i] == PrintedEntries(spec, keys)[i]
    {
      JoinOne([keys[i]], ",");
    }
  }

  predicate NoPayload(spec: Spec) {
    spec.defaultLevel != PAYLOAD && forall k | k in spec.entries :: spec.entries[k] != PAYLOAD
  }

  /** All levels have names, and all keys are legal loggers. */
  ghost predicate Readable(spec: Spec) {
    && (exists name :: LevelOfName(name) == Some(spec.defaultLevel))
    && (forall k | k in spec.entries :: LegalLogger(k) && exists name :: LevelOfName(name) == Some(spec.entries[k]))
  }

  lemma ParsedIsReadable(text: string)
    requires Parsed(text).Ok?
    ensures Readable(Parsed(text).value)
  {
    hide Parsed, LevelOfName, LegalLogger;
    DefaultIsNamed(text);
    forall k | k in Parsed(text).value.entries
      ensures LegalLogger(k) && exists name :: LevelOfName(name) == Some(Parsed(text).value.entries[k])
    {
      ParsedIsLegal(text, k);
    }
  }

  lemma PrintedAreLegal(spec: Spec, keys: seq<string>)
    requires Readable(spec) && Enumerates(keys, spec) && NoPayload(spec)
    ensures LegalFields(PrintedFields(spec, keys))
  {
    hide LevelOfName, LegalLogger, PrintedLevel;
    var fs := PrintedFields(spec, keys);
    forall i | 0 <= i < |fs| ensures LegalField(fs[i]) {
      if i < |keys| {
        assert keys[i] in keys;
        var name :| LevelOfName(name) == Some(spec.entries[keys[i]]);
        PrintedIsName(spec.entries[keys[i]], name);
      } else {
        var name :| LevelOfName(name) == Some(spec.defaultLevel);
        PrintedIsName(spec.defaultLevel, name);
      }
    }
  }

  lemma PrintedEntryMeans(spec: Spec, keys: seq<string>, k: string)
    requires Readable(spec) && Enumerates(keys, spec) && NoPayload(spec)
    requires LegalFields(PrintedFields(spec, keys))
    ensures var r := Parsed(Join(FieldTexts(PrintedFields(spec, keys)), ":"));
            r.Ok? && SameEntry(r.value, spec, k)
  {
    hide LevelOfName, LegalField, PrintedLevel, Parsed, Join, FieldTexts, LegalLogger;
    var fs := PrintedFields(spec, keys);
    if k in spec.entries {
      var i :| 0 <= i < |keys| && keys[i] == k;
      assert LastFor(fs, k, i);
      EntriesMean(fs, k, i);
      var name :| LevelOfName(name) == Some(spec.entries[k]);
      PrintedIsName(spec.entries[k], name);
    } else {
      EntriesMean(fs, k, -1);
    }
  }

  lemma PrintedReadsBack(spec: Spec, keys: seq<string>)
    requires Readable(spec) && Enumerates(keys, spec) && NoPayload(spec)
    ensures Parsed(Printed(spec, keys)) == Ok(spec)
  {
    hide LevelOfName, PrintedLevel, Parsed, Join, FieldTexts, LegalFields, PrintedEntries, LegalLogger;
    var fs := PrintedFields(spec, keys);
    PrintedTexts(spec, keys);
    PrintedAreLegal(spec, keys);
    var i := |keys|;
    assert LastAlone(fs, i);
    DefaultMeans(fs, i);
    var name :| LevelOfName(name) == Some(spec.defaultLevel);
    PrintedIsName(spec.defaultLevel, name);
    assert PrintedLevel(spec.defaultLevel) != "" by { LevelIsPlain(PrintedLevel(spec.defaultLevel)); }
    var r := Parsed(Join(FieldTexts(fs), ":")).value;
    forall k ensures SameEntry(r, spec, k) { PrintedEntryMeans(spec, keys, k); }
    SameEntries(r, spec);
  }

  lemma SameEntries(a: Spec, b: Spec)
    requires forall k :: SameEntry(a, b, k)
    ensures a.entries == b.entries
  {
    forall k ensures k in a.entries <==> k in b.entries { assert SameEntry(a, b, k); }
    forall k | k in a.entries ensures a.entries[k] == b.entries[k] { assert SameEntry(a, b, k); }
  }

  /** The text of a field with the payload level is not a legal one. */
  lemma PayloadIsIllegal(f: Field, k: string)
    requires LegalField(f) && Without(k, '=')
    ensures FieldText(f) != k + "=" + PrintedLevel(PAYLOAD) && FieldText(f) != PrintedLevel(PAYLOAD)
  {
    hide Split, LegalLogger, LevelOfName, FieldText;
    FieldParts(f);
    PayloadHasNoName();
    var text := PrintedLevel(PAYLOAD);
    SplitNothing(text, '=');
    SplitOff(k, '=', text);
    assert text != "";
  }

  lemma PrintedFails(spec: Spec, keys: seq<string>)
    requires Readable(spec) && Enumerates(keys, spec) && !NoPayload(spec)
    ensures Parsed(Printed(spec, keys)).Err?
  {
    hide LevelOfName, PrintedLevel, Parsed, Join, FieldText, LegalField, Split, LegalLogger;
    var texts := PrintedEntries(spec, keys) + [PrintedLevel(spec.defaultLevel)];
    AcceptedTexts(Join(texts, ":"));
    if fs :| LegalFields(fs) && Join(texts, ":") == Join(FieldTexts(fs), ":") {
      TextIsItsFields(fs);
      PrintedAreWithout(spec, keys);
      SplitJoin(texts, ':');
      assert texts == FieldTexts(fs);
      if spec.defaultLevel == PAYLOAD {
        assert FieldText(fs[|keys|]) == FieldTexts(fs)[|keys|] == PrintedLevel(PAYLOAD);
        PayloadIsIllegal(fs[|keys|], "");
      } else {
        var k :| k in spec.entries && spec.entries[k] == PAYLOAD;
        var i :| 0 <= i < |keys| && keys[i] == k;
        LegalLoggerIsPlain(k);
        assert FieldText(fs[i]) == FieldTexts(fs)[i] == k + "=" + PrintedLevel(PAYLOAD);
        PayloadIsIllegal(fs[i], k);
      }
    }
  }

  lemma PrintedAreWithout(spec: Spec, keys: seq<string>)
    requires Readable(spec) && Enumerates(keys, spec)
    ensures AllWithout(PrintedEntries(spec, keys) + [PrintedLevel(spec.defaultLevel)], ':')
  {
    hide LevelOfName, PrintedLevel, LegalLogger;
    var texts := PrintedEntries(spec, keys) + [PrintedLevel(spec.defaultLevel)];
    forall i | 0 <= i < |texts| ensures Without(texts[i], ':') {
      if i < |keys| {
        var k := keys[i];
        assert k in keys;
        var name :| LevelOfName(name) == Some(spec.entries[k]);
        PrintedIsName(spec.entries[k], name);
        assert Without(k, ':') by { LegalLoggerForms(k); }
      } else {
        var name :| LevelOfName(name) == Some(spec.defaultLevel);
        PrintedIsName(spec.defaultLevel, name);
      }
    }
  }

  /**
   The printed form of an activated specification, in whatever order, activates the same
   specification exactly if no level of it is the payload level; otherwise it is rejected.
   */
  lemma PrintingRoundTrip(text: string, keys: seq<string>)
    requires Parsed(text).Ok? && Enumerates(keys, Parsed(text).value)
    ensures var spec := Parsed(text).value;
            Parsed(Printed(spec, keys)) == if NoPayload(spec) then Ok(spec) else Err
  {
    hide Parsed, Printed, Readable, NoPayload;
    ParsedIsReadable(text);
    var spec := Parsed(text).value;
    if NoPayload(spec) {
      PrintedReadsBack(spec, keys);
    } else {
      PrintedFails(spec, keys);
    }
  }
}
