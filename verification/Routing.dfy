// The redaction and delivery part of Logger::log.

module Routing {
  import opened LogLevels
  import opened Redaction
  import opened RedactionExactness
  import L = LevelControl

  // ---------- The regular-expression pass ----------

  /** A search-and-replace cuts its input into text it keeps and matches it replaces. */
  datatype Part = Keep(text: string) | Match(text: string)

  /** What one compiled expression does to each text. */
  type Engine = string -> seq<Part>

  function Source(parts: seq<Part>): string {
    if parts == [] then "" else parts[0].text + Source(parts[1..])
  }

  function Replaced(parts: seq<Part>): string {
    if parts == [] then ""
    else (if parts[0].Keep? then parts[0].text else "***") + Replaced(parts[1..])
  }

  /** The engine only cuts: it neither loses nor invents text. */
  ghost predicate Cuts(rx: Engine) {
    forall s :: Source(rx(s)) == s
  }

  function ReplaceWith(s: string, engines: seq<Engine>): string
    decreases |engines|
  {
    if engines == [] then s else ReplaceWith(Replaced(engines[0](s)), engines[1..])
  }

  // ---------- Configuration ----------

  datatype Redactions = Redactions(substrings: seq<string>, regexes: seq<string>, presets: seq<string>, cloudOnly: bool)

  function Lower(s: string): string {
    seq(|s|, i requires 0 <= i < |s| => if 'A' <= s[i] <= 'Z' then (s[i] as int + 32) as char else s[i])
  }

  /** What turns expressions into engines: the regular-expression library, which may reject an
      expression, and the expressions of the built-in presets by lower-case name. */
  datatype Compiler = Compiler(pattern: string -> Option<Engine>, presets: map<string, string>)

  function CompilePreset(preset: string, compile: Compiler): Option<Engine> {
    var lower := Lower(preset);
    if lower in compile.presets then compile.pattern(compile.presets[lower]) else None
  }

  /** Expressions that do not compile are skipped. */
  function CompiledRegexes(patterns: seq<string>, compile: Compiler): seq<Engine> {
    if patterns == [] then []
    else
      var rest := CompiledRegexes(patterns[..|patterns| - 1], compile);
      match compile.pattern(patterns[|patterns| - 1])
      case None => rest
      case Some(rx) => rest + [rx]
  }

  /** Unknown presets, and those that do not compile, are skipped. */
  function CompiledPresets(presets: seq<string>, compile: Compiler): seq<Engine> {
    if presets == [] then []
    else
      var rest := CompiledPresets(presets[..|presets| - 1], compile);
      match CompilePreset(presets[|presets| - 1], compile)
      case None => rest
      case Some(rx) => rest + [rx]
  }

  function Engines(config: Redactions, compile: Compiler): seq<Engine> {
    CompiledRegexes(config.regexes, compile) + CompiledPresets(config.presets, compile)
  }

  /** The message after both passes. */
  function RedactedMessage(message: string, config: Redactions, compile: Compiler): string
    requires AllNonEmpty(config.substrings)
  {
    ReplaceWith(Redacted(message, config.substrings), Engines(config, compile))
  }

  // ---------- Delivery ----------

  /** What filters see of a log call: the source fills in the name and the level only. */
  datatype Record = Record(loggerName: string, level: LogLevel, message: string, fields: map<string, string>)

  type Filter = Record -> bool

  /** A sink entry: `present` is false for an entry holding no sink. */
  datatype Sink = Sink(present: bool, marked: bool, cloud: bool)

  class Logger {
    const name: string
    const levels: L.LevelControl
    var filter_func: Option<Filter>
    var filters: seq<Filter>
    var redactions: Redactions
    var sinks: seq<Sink>
    var overrides: map<nat, LogLevel>

    constructor (name: string)
      ensures this.name == name && fresh(levels) && levels.View() == L.Initial()
      ensures filter_func == None && filters == [] && sinks == [] && overrides == map[]
      ensures redactions == Redactions([], [], [], false)
    {
      this.name := name;
      levels := new L.LevelControl();
      filter_func, filters := None, [];
      redactions := Redactions([], [], [], false);
      sinks := [];
      overrides := map[];
    }

    ghost predicate FiltersAccept(record: Record)
      reads this
    {
      && (filter_func.Some? ==> filter_func.value(record))
      && forall i :: 0 <= i < |filters| ==> filters[i](record)
    }

    method ShouldLog(record: Record) returns (ok: bool)
      ensures ok <==> !record.level.Below(levels.min_level) && FiltersAccept(record)
    {
      if record.level.Below(levels.min_level) {
        return false;
      }
      if filter_func.Some? && !filter_func.value(record) {
        return false;
      }
      for i := 0 to |filters|
        invariant forall k :: 0 <= k < i ==> filters[k](record)
      {
        if !filters[i](record) {
          return false;
        }
      }
      return true;
    }

    /** Whether sink `i` is handed a message of this level that passed the logger's own tests. */
    predicate Takes(level: LogLevel, i: nat)
      requires i < |sinks|
      reads this
    {
      && !sinks[i].marked && sinks[i].present
      && (i in overrides ==> !level.Below(overrides[i]))
    }

    /** An expired temporary level is reverted first. Then each sink gets nothing, the original, or
        the fully redacted message. */
    method Log(level: LogLevel, message: string, now: int, compile: Compiler)
      returns (delivered: seq<Option<string>>)
      requires AllNonEmpty(redactions.substrings)
      modifies levels
      ensures levels.View() == L.Apply(old(levels.View()), L.Log(level), now)
      ensures |delivered| == |sinks|
      ensures var accepted := L.Accepts(old(levels.View()), level, now) && FiltersAccept(Record(name, level, "", map[]));
              forall i :: 0 <= i < |sinks| ==>
                delivered[i] ==
                if !accepted || !Takes(level, i) then None
                else if redactions.cloudOnly && !sinks[i].cloud then Some(message)
                else Some(RedactedMessage(message, redactions, compile))
      ensures forall i :: 0 <= i < |sinks| ==>
                (delivered[i].Some? <==>
                 && !level.Below(L.Expire(old(levels.View()), now).min) && FiltersAccept(Record(name, level, "", map[]))
                 && sinks[i].present && !sinks[i].marked
                 && (i in overrides ==> overrides[i].Rank() <= level.Rank()))
      ensures CompilesToCuts(compile) ==>
                forall i, p :: 0 <= i < |sinks| && p in redactions.substrings && StarFree(p) &&
                               delivered[i].Some? && (sinks[i].cloud || !redactions.cloudOnly) ==>
                                 !Contains(delivered[i].value, p)
    {
      levels.CheckTemporaryLevelExpiry(now);
      var ok := ShouldLog(Record(name, level, "", map[]));
      if !ok {
        delivered := seq(|sinks|, _ => None);
        return;
      }
      var redacted := ApplyRedactions(message, redactions, compile);
      var has_redaction := redacted != message;
      AllStarFreePatternsNeverSeen(message, redactions, compile);
      delivered := [];
      for i := 0 to |sinks|
        invariant |delivered| == i
        invariant forall k :: 0 <= k < i ==>
                    delivered[k] ==
                    if !Takes(level, k) then None
                    else if redactions.cloudOnly && !sinks[k].cloud then Some(message)
                    else Some(redacted)
      {
        var entry := sinks[i];
        if entry.marked || (i in overrides && level.Below(overrides[i])) || !entry.present {
          delivered := delivered + [None];
        } else {
          var use_redacted := has_redaction && (!redactions.cloudOnly || entry.cloud);
          delivered := delivered + [Some(if use_redacted then redacted else message)];
        }
      }
    }
  }

  method ApplyRedactions(message: string, config: Redactions, compile: Compiler)
    returns (redacted: string)
    requires AllNonEmpty(config.substrings)
    ensures redacted == RedactedMessage(message, config, compile)
  {
    redacted := message;
    if config.substrings != [] || config.regexes != [] || config.presets != [] {
      if config.substrings != [] {
        redacted := Redact(redacted, config.substrings);
      }
      var compiled := Compile(config, compile);
      redacted := ReplaceEach(redacted, compiled);
    }
  }

  method Compile(config: Redactions, compile: Compiler) returns (compiled: seq<Engine>)
    ensures compiled == Engines(config, compile)
  {
    compiled := [];
    for i := 0 to |config.regexes|
      invariant compiled == CompiledRegexes(config.regexes[..i], compile)
    {
      assert config.regexes[..i + 1][..i] == config.regexes[..i];
      match compile.pattern(config.regexes[i])
      case None =>
      case Some(rx) => compiled := compiled + [rx];
    }
    assert config.regexes[..|config.regexes|] == config.regexes;
    ghost var fromRegexes := compiled;
    for i := 0 to |config.presets|
      invariant compiled == fromRegexes + CompiledPresets(config.presets[..i], compile)
    {
      assert config.presets[..i + 1][..i] == config.presets[..i];
      match CompilePreset(config.presets[i], compile)
      case None =>
      case Some(rx) => compiled := compiled + [rx];
    }
    assert config.presets[..|config.presets|] == config.presets;
  }

  method ReplaceEach(message: string, compiled: seq<Engine>) returns (redacted: string)
    ensures redacted == ReplaceWith(message, compiled)
  {
    redacted := message;
    assert compiled[0..] == compiled;
    for i := 0 to |compiled|
      invariant ReplaceWith(redacted, compiled[i..]) == ReplaceWith(message, compiled)
    {
      assert compiled[i..][0] == compiled[i] && compiled[i..][1..] == compiled[i + 1..];
      redacted := Replaced(compiled[i](redacted));
    }
  }

  // ---------- What the passes apply ----------

  lemma {:induction false} ReplaceWithAppend(s: string, engines: seq<Engine>, rx: Engine)
    ensures ReplaceWith(s, engines + [rx]) == Replaced(rx(ReplaceWith(s, engines)))
    decreases |engines|
  {
    if engines == [] {
      assert [] + [rx] == [rx] && [rx][1..] == [];
      assert ReplaceWith(s, [rx]) == ReplaceWith(Replaced(rx(s)), []);
    } else {
      assert (engines + [rx])[1..] == engines[1..] + [rx];
      ReplaceWithAppend(Replaced(engines[0](s)), engines[1..], rx);
    }
  }

  /** Without expressions and presets only the substrings are redacted. */
  lemma SubstringsOnly(message: string, config: Redactions, compile: Compiler)
    requires AllNonEmpty(config.substrings) && config.regexes == [] && config.presets == []
    ensures RedactedMessage(message, config, compile) == Redacted(message, config.substrings)
  {
    assert Engines(config, compile) == [];
  }

  /** One more expression at the end replaces its matches in the text that the others leave, if it
      compiles; otherwise it changes nothing. */
  lemma LastExpressionActs(message: string, config: Redactions, compile: Compiler, pattern: string)
    requires AllNonEmpty(config.substrings) && config.presets == []
    ensures var more := config.(regexes := config.regexes + [pattern]);
            RedactedMessage(message, more, compile)
            == match compile.pattern(pattern)
               case None => RedactedMessage(message, config, compile)
               case Some(rx) => Replaced(rx(RedactedMessage(message, config, compile)))
  {
    var more := config.(regexes := config.regexes + [pattern]);
    assert more.regexes[..|more.regexes| - 1] == config.regexes;
    assert CompiledPresets(config.presets, compile) == [];
    assert Engines(config, compile) == CompiledRegexes(config.regexes, compile);
    assert Engines(more, compile) == CompiledRegexes(more.regexes, compile);
    if compile.pattern(pattern).Some? {
      ReplaceWithAppend(Redacted(message, config.substrings), Engines(config, compile), compile.pattern(pattern).value);
    }
  }

  /** The two texts differ at most in the case of letters. */
  predicate SameButCase(a: string, b: string) {
    |a| == |b| && forall i :: 0 <= i < |a| ==>
      a[i] == b[i] || ('A' <= a[i] <= 'Z' && b[i] as int == a[i] as int + 32)
      || ('A' <= b[i] <= 'Z' && a[i] as int == b[i] as int + 32)
  }

  predicate NoCapitals(s: string) {
    forall i :: 0 <= i < |s| ==> !('A' <= s[i] <= 'Z')
  }

  lemma LowerOf(preset: string, name: string)
    requires SameButCase(preset, name) && NoCapitals(name)
    ensures Lower(preset) == name
  {
  }

  /** One more preset at the end: if it spells a name of the table in any case, the expression there
      replaces its matches in the text that everything before leaves, if it compiles. */
  lemma LastPresetActs(message: string, config: Redactions, compile: Compiler, preset: string, name: string)
    requires AllNonEmpty(config.substrings) && SameButCase(preset, name) && NoCapitals(name)
    ensures var more := config.(presets := config.presets + [preset]);
            RedactedMessage(message, more, compile)
            == if name !in compile.presets || compile.pattern(compile.presets[name]).None?
               then RedactedMessage(message, config, compile)
               else Replaced(compile.pattern(compile.presets[name]).value(RedactedMessage(message, config, compile)))
  {
    var more := config.(presets := config.presets + [preset]);
    assert more.presets[..|more.presets| - 1] == config.presets;
    LowerOf(preset, name);
    var regexes, presets := CompiledRegexes(config.regexes, compile), CompiledPresets(config.presets, compile);
    if CompilePreset(preset, compile).Some? {
      var rx := CompilePreset(preset, compile).value;
      assert regexes + (presets + [rx]) == regexes + presets + [rx];
      ReplaceWithAppend(Redacted(message, config.substrings), Engines(config, compile), rx);
    }
  }

  /** For one, the preset "EMAIL" acts as the expression of the name "email". */
  lemma PresetInCapitals(message: string, config: Redactions, compile: Compiler)
    requires AllNonEmpty(config.substrings) && "email" in compile.presets
    requires compile.pattern(compile.presets["email"]).Some?
    ensures var rx := compile.pattern(compile.presets["email"]).value;
            RedactedMessage(message, config.(presets := config.presets + ["EMAIL"]), compile)
            == Replaced(rx(RedactedMessage(message, config, compile)))
  {
    LastPresetActs(message, config, compile, "EMAIL", "email");
  }

  // ---------- The expression pass rebuilds no pattern ----------

  /** An occurrence in the replaced text that starts in kept text `t` or later is an
      occurrence in the source. */
  lemma {:induction false} OccurrenceIsOld(t: string, parts: seq<Part>, p: string, i: nat)
    requires Immune(p, 3) && OccursAt(t + Replaced(parts), p, i)
    ensures Contains(t + Source(parts), p)
    decreases |parts|
  {
    if parts == [] {
      assert t + Replaced(parts) == t == t + Source(parts);
    } else if parts[0].Keep? {
      var u := parts[0].text;
      assert t + (u + Replaced(parts[1..])) == t + u + Replaced(parts[1..]);
      assert t + (u + Source(parts[1..])) == t + u + Source(parts[1..]);
      OccurrenceIsOld(t + u, parts[1..], p, i);
    } else {
      var tail, rest := Replaced(parts[1..]), Source(parts[1..]);
      assert t + ("***" + tail) == t + "***" + tail;
      assert t + (parts[0].text + rest) == t + parts[0].text + rest;
      BlockIsAvoided(t, tail, p, i);
      if i + |p| <= |t| {
        LeftOfBlock(t, tail, t + parts[0].text + rest, p, i);
      } else {
        RightOfBlock(t, tail, p, i);
        OccurrenceIsOld("", parts[1..], p, i - |t| - 3);
        assert "" + rest == rest;
        InTheTail(t + parts[0].text, rest, p);
      }
    }
  }

  lemma LeftOfBlock(t: string, tail: string, source: string, p: string, i: nat)
    requires OccursAt(t + "***" + tail, p, i) && i + |p| <= |t| && t <= source
    ensures OccursAt(source, p, i)
  {
    assert (t + "***" + tail)[i..i + |p|] == t[i..i + |p|] == source[i..i + |p|];
  }

  lemma RightOfBlock(t: string, tail: string, p: string, i: nat)
    requires OccursAt(t + "***" + tail, p, i) && |t| + 3 <= i
    ensures OccursAt("" + tail, p, i - |t| - 3)
  {
    var at := i - |t| - 3;
    assert (t + "***" + tail)[i..i + |p|] == ("" + tail)[at..at + |p|];
  }

  lemma InTheTail(left: string, s: string, p: string)
    requires Contains(s, p)
    ensures Contains(left + s, p)
  {
    var k: nat :| OccursAt(s, p, k);
    assert (left + s)[|left| + k..|left| + k + |p|] == s[k..k + |p|];
    assert OccursAt(left + s, p, |left| + k);
  }

  lemma BlockIsAvoided(t: string, tail: string, p: string, i: nat)
    requires Immune(p, 3) && OccursAt(t + "***" + tail, p, i)
    ensures i + |p| <= |t| || |t| + 3 <= i
  {
    var whole := t + "***" + tail;
    OccurrenceCharacter(whole, p, i, 0);
    OccurrenceCharacter(whole, p, i, |p| - 1);
    assert whole[|t|..|t| + 3] == Stars(3);
    RoomForStars(whole, p, i, |t|, 3);
  }

  /** No expression at all can make `p` appear in a text free of it. */
  ghost predicate SurvivesExpressions(p: string) {
    forall parts :: !Contains(Source(parts), p) ==> !Contains(Replaced(parts), p)
  }

  lemma ShorterCannotContain(s: string, p: string)
    requires |s| < |p|
    ensures !Contains(s, p)
  {
  }

  /** Exactly the patterns without '*' at either end and without "***" inside stay away
      under every possible expression. */
  lemma SurvivesExactlyIfImmune(p: string)
    requires |p| > 0
    ensures SurvivesExpressions(p) <==> Immune(p, 3)
  {
    if Immune(p, 3) {
      forall parts | !Contains(Source(parts), p)
        ensures !Contains(Replaced(parts), p)
      {
        if Contains(Replaced(parts), p) {
          var i: nat :| OccursAt(Replaced(parts), p, i);
          assert "" + Replaced(parts) == Replaced(parts) && "" + Source(parts) == Source(parts);
          OccurrenceIsOld("", parts, p, i);
        }
      }
    } else {
      var parts := RebuildingParts(p);
      assert !Contains(Source(parts), p) && Contains(Replaced(parts), p);
    }
  }

  lemma RebuildingParts(p: string) returns (parts: seq<Part>)
    requires |p| > 0 && !Immune(p, 3)
    ensures !Contains(Source(parts), p) && Contains(Replaced(parts), p)
  {
    var left, right, at := BlockMakesPattern(p, 3);
    assert Stars(3) == "***";
    parts := [Keep(left), Match(""), Keep(right)];
    TextsAround(left, right);
    ShorterCannotContain(left + right, p);
    assert OccursAt(Replaced(parts), p, at);
  }

  lemma TextsAround(left: string, right: string)
    ensures Source([Keep(left), Match(""), Keep(right)]) == left + right
    ensures Replaced([Keep(left), Match(""), Keep(right)]) == left + "***" + right
  {
    var parts := [Keep(left), Match(""), Keep(right)];
    assert parts[1..] == [Match(""), Keep(right)];
    assert parts[1..][1..] == [Keep(right)];
    assert [Keep(right)][1..] == [];
    assert Source([Keep(right)]) == right + Source([]) == right;
    assert Replaced([Keep(right)]) == right + Replaced([]) == right;
    assert Source(parts[1..]) == "" + right == right;
    assert Replaced(parts[1..]) == "***" + right;
    assert left + ("***" + right) == left + "***" + right;
  }

  // ---------- The whole pipeline ----------

  lemma {:induction false} StaysCleanThroughEngines(s: string, engines: seq<Engine>, p: string)
    requires Immune(p, 3) && !Contains(s, p)
    requires forall rx :: rx in engines ==> Cuts(rx)
    ensures !Contains(ReplaceWith(s, engines), p)
    decreases |engines|
  {
    if engines == [] {
    } else {
      var rx := engines[0];
      assert rx in engines;
      assert Source(rx(s)) == s;
      SurvivesExactlyIfImmune(p);
      StaysCleanThroughEngines(Replaced(rx(s)), engines[1..], p);
    }
  }

  ghost predicate CompilesToCuts(compile: Compiler) {
    forall s :: compile.pattern(s).Some? ==> Cuts(compile.pattern(s).value)
  }

  lemma {:induction false} RegexesCut(patterns: seq<string>, compile: Compiler, rx: Engine)
    requires CompilesToCuts(compile) && rx in CompiledRegexes(patterns, compile)
    ensures Cuts(rx)
  {
    var rest := patterns[..|patterns| - 1];
    if rx in CompiledRegexes(rest, compile) {
      RegexesCut(rest, compile, rx);
    }
  }

  lemma {:induction false} PresetsCut(presets: seq<string>, compile: Compiler, rx: Engine)
    requires CompilesToCuts(compile) && rx in CompiledPresets(presets, compile)
    ensures Cuts(rx)
  {
    var rest := presets[..|presets| - 1];
    if rx in CompiledPresets(rest, compile) {
      PresetsCut(rest, compile, rx);
    }
  }

  /** What a sink that must see redacted text receives holds none of the immune patterns,
      whatever the expressions and presets do. A pattern without '*' is always immune. */
  lemma RedactedSinksNeverSeePatterns(message: string, config: Redactions, compile: Compiler, k: nat)
    requires AllNonEmpty(config.substrings) && CompilesToCuts(compile)
    requires k < |config.substrings| && Guarded(config.substrings, k) && Immune(config.substrings[k], 3)
    ensures !Contains(RedactedMessage(message, config, compile), config.substrings[k])
  {
    RedactionIsComplete(message, config.substrings, k);
    forall rx | rx in Engines(config, compile)
      ensures Cuts(rx)
    {
      if rx in CompiledRegexes(config.regexes, compile) {
        RegexesCut(config.regexes, compile, rx);
      } else {
        PresetsCut(config.presets, compile, rx);
      }
    }
    StaysCleanThroughEngines(Redacted(message, config.substrings), Engines(config, compile), config.substrings[k]);
  }

  lemma StarFreePatternsNeverSeen(message: string, config: Redactions, compile: Compiler, p: string)
    requires AllNonEmpty(config.substrings) && CompilesToCuts(compile)
    requires p in config.substrings && StarFree(p)
    ensures !Contains(RedactedMessage(message, config, compile), p)
  {
    var k :| 0 <= k < |config.substrings| && config.substrings[k] == p;
    StarFreeIsGuarded(config.substrings, k);
    StarFreeIsImmune(p, 3);
    RedactedSinksNeverSeePatterns(message, config, compile, k);
  }

  lemma AllStarFreePatternsNeverSeen(message: string, config: Redactions, compile: Compiler)
    requires AllNonEmpty(config.substrings)
    ensures CompilesToCuts(compile) ==>
              forall p :: p in config.substrings && StarFree(p) ==>
                            !Contains(RedactedMessage(message, config, compile), p)
  {
    if CompilesToCuts(compile) {
      forall p | p in config.substrings && StarFree(p)
        ensures !Contains(RedactedMessage(message, config, compile), p)
      {
        StarFreePatternsNeverSeen(message, config, compile, p);
      }
    }
  }
}
