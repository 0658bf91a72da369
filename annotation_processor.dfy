/**
 * The annotation processor: the processor options become an OutputConfig,
 * every @Model class of the round becomes a JavaScript resource, named after
 * the model, in the package the model name gives, and optionally renamed to
 * the "Base" class of a base/subclass pair.
 */
module AnnotationProcessor {
  import opened Wrappers
  import opened JavaText
  import opened OutputConfigs
  import opened Beans
  import opened ModelAssembler
  import opened DialectSerializer

  // ---------------------------------------------------------------------------
  // Options
  // ---------------------------------------------------------------------------

  const OPTION_OUTPUTFORMAT := "outputFormat"
  const OPTION_DEBUG := "debug"
  const OPTION_INCLUDEVALIDATION := "includeValidation"
  const OPTION_CREATEBASEANDSUBCLASS := "createBaseAndSubclass"
  const OPTION_USESINGLEQUOTES := "useSingleQuotes"
  const OPTION_SURROUNDAPIWITHQUOTES := "surroundApiWithQuotes"
  const OPTION_LINEENDING := "lineEnding"

  /** Map.get on the processor options: the value, or null. */
  function OptionValue(options: map<string, string>, name: string): (r: Option<string>)
    ensures r.Some? <==> name in options
    ensures r.Some? ==> r.value == options[name]
  {
    if name in options then Some(options[name]) else None
  }

  /** `!"false".equals(option)`: only the exact text "false" switches it off. */
  predicate NotFalse(o: Option<string>) {
    o != Some("false")
  }

  /** `"true".equals(option)`: only the exact text "true" switches it on. */
  predicate IsTrue(o: Option<string>) {
    o == Some("true")
  }

  /** An option that is set and not blank after trimming. */
  predicate Given(o: Option<string>) {
    o.Some? && !TrimIsEmpty(o.value)
  }

  /** The output format option: TOUCH2 or EXTJS5 in any case, otherwise EXTJS4. */
  function FormatOption(o: Option<string>): OutputFormat {
    if Given(o) && EqualsIgnoreCase(Touch2.Name(), o.value) then Touch2
    else if Given(o) && EqualsIgnoreCase(ExtJs5.Name(), o.value) then ExtJs5
    else ExtJs4
  }

  /** The validation option: ALL or BUILTIN in any case, otherwise NONE. */
  function ValidationOption(o: Option<string>): IncludeValidation {
    if Given(o) && EqualsIgnoreCase(IncludeAll.Name(), o.value) then IncludeAll
    else if Given(o) && EqualsIgnoreCase(IncludeBuiltin.Name(), o.value) then IncludeBuiltin
    else IncludeNone
  }

  /** LineEnding.valueOf(option.toUpperCase()), with SYSTEM kept when it throws. */
  function LineEndingOption(o: Option<string>): LineEnding {
    if o.None? then SystemEnding
    else if ToUpperCase(o.value) == CrLf.Name() then CrLf
    else if ToUpperCase(o.value) == Lf.Name() then Lf
    else SystemEnding
  }

  /** The configuration process sets up from the options. */
  function ConfigOf(options: map<string, string>): OutputConfig {
    OutputConfig(
      FormatOption(OptionValue(options, OPTION_OUTPUTFORMAT)),
      NotFalse(OptionValue(options, OPTION_DEBUG)),
      ValidationOption(OptionValue(options, OPTION_INCLUDEVALIDATION)),
      IsTrue(OptionValue(options, OPTION_USESINGLEQUOTES)),
      IsTrue(OptionValue(options, OPTION_SURROUNDAPIWITHQUOTES)),
      LineEndingOption(OptionValue(options, OPTION_LINEENDING)))
  }

  /** Every output format is chosen by its own name, whatever its case. */
  lemma FormatByName(f: OutputFormat, v: string)
    requires EqualsIgnoreCase(f.Name(), v)
    ensures FormatOption(Some(v)) == f
  {
    assert ToUpperAscii(v[0]) == f.Name()[0] && ToUpperAscii(v[5]) == f.Name()[5];
    assert !TrimIsEmpty(v) by { assert v[0] > ' '; }
  }

  /** Which output format an option gives: TOUCH2 and EXTJS5 exactly when the
      option matches that name ignoring case; EXTJS4 for everything else,
      including a missing option and a blank one. */
  lemma FormatChoice(o: Option<string>)
    ensures FormatOption(o) == Touch2 <==> o.Some? && EqualsIgnoreCase(Touch2.Name(), o.value)
    ensures FormatOption(o) == ExtJs5 <==> o.Some? && EqualsIgnoreCase(ExtJs5.Name(), o.value)
    ensures o.None? || TrimIsEmpty(o.value) ==> FormatOption(o) == ExtJs4
  {
    if o.Some? && EqualsIgnoreCase(Touch2.Name(), o.value) {
      FormatByName(Touch2, o.value);
    } else if o.Some? && EqualsIgnoreCase(ExtJs5.Name(), o.value) {
      FormatByName(ExtJs5, o.value);
    }
  }

  /** Every validation level is chosen by its own name, whatever its case. */
  lemma ValidationByName(level: IncludeValidation, v: string)
    requires level != IncludeNone && EqualsIgnoreCase(level.Name(), v)
    ensures ValidationOption(Some(v)) == level
  {
    assert ToUpperAscii(v[0]) == level.Name()[0];
    assert !TrimIsEmpty(v) by { assert v[0] > ' '; }
  }

  /** Which validation level an option gives: ALL and BUILTIN exactly when the
      option matches that name ignoring case; NONE for everything else. */
  lemma ValidationChoice(o: Option<string>)
    ensures ValidationOption(o) == IncludeAll <==> o.Some? && EqualsIgnoreCase(IncludeAll.Name(), o.value)
    ensures ValidationOption(o) == IncludeBuiltin <==> o.Some? && EqualsIgnoreCase(IncludeBuiltin.Name(), o.value)
    ensures o.None? || TrimIsEmpty(o.value) ==> ValidationOption(o) == IncludeNone
  {
    if o.Some? && EqualsIgnoreCase(IncludeAll.Name(), o.value) {
      ValidationByName(IncludeAll, o.value);
    } else if o.Some? && EqualsIgnoreCase(IncludeBuiltin.Name(), o.value) {
      ValidationByName(IncludeBuiltin, o.value);
    }
  }

  /** A line ending is chosen by any spelling whose upper case is its name; a
      missing option and one that names no line ending leave SYSTEM. */
  lemma LineEndingChoice(o: Option<string>, e: LineEnding)
    ensures o.Some? && ToUpperCase(o.value) == e.Name() ==> LineEndingOption(o) == e
    ensures LineEndingOption(o) != SystemEnding ==> o.Some? && ToUpperCase(o.value) == LineEndingOption(o).Name()
    ensures (o.None? || forall e': LineEnding :: ToUpperCase(o.value) != e'.Name()) ==> LineEndingOption(o) == SystemEnding
  {
    if o.Some? && ToUpperCase(o.value) == e.Name() {
      assert e.Name()[0] == ToUpperCase(o.value)[0];
    }
  }

  /** The flags: debug unless the option is exactly "false", the others only
      when it is exactly "true". */
  lemma FlagChoice(options: map<string, string>)
    ensures !ConfigOf(options).debug <==> OPTION_DEBUG in options && options[OPTION_DEBUG] == "false"
    ensures ConfigOf(options).useSingleQuotes <==>
      OPTION_USESINGLEQUOTES in options && options[OPTION_USESINGLEQUOTES] == "true"
    ensures ConfigOf(options).surroundApiWithQuotes <==>
      OPTION_SURROUNDAPIWITHQUOTES in options && options[OPTION_SURROUNDAPIWITHQUOTES] == "true"
    ensures ConfigOf(map[]) == OutputConfig(ExtJs4, true, IncludeNone, false, false, SystemEnding)
  {
  }

  /** The option handling of process: a fresh OutputConfig filled in setter by
      setter, and the base-and-subclass flag. */
  method ReadOptions(options: map<string, string>) returns (config: OutputConfig, createBaseAndSubclass: bool)
    ensures config == ConfigOf(options)
    ensures createBaseAndSubclass <==> IsTrue(OptionValue(options, OPTION_CREATEBASEANDSUBCLASS))
  {
    config := OutputConfig(ExtJs4, false, IncludeNone, false, false, SystemEnding);
    config := config.(debug := OptionValue(options, OPTION_DEBUG) != Some("false"));
    createBaseAndSubclass := OptionValue(options, OPTION_CREATEBASEANDSUBCLASS) == Some("true");

    var outputFormat := ReadOutputFormat(OptionValue(options, OPTION_OUTPUTFORMAT));
    config := config.(outputFormat := outputFormat);
    var includeValidation := ReadIncludeValidation(OptionValue(options, OPTION_INCLUDEVALIDATION));
    config := config.(includeValidation := includeValidation);
    config := config.(useSingleQuotes := OptionValue(options, OPTION_USESINGLEQUOTES) == Some("true"));
    config := config.(surroundApiWithQuotes := OptionValue(options, OPTION_SURROUNDAPIWITHQUOTES) == Some("true"));
    var lineEnding := ReadLineEnding(OptionValue(options, OPTION_LINEENDING));
    config := config.(lineEnding := lineEnding);
  }

  /** The output format setting: EXTJS4, replaced by a matching non-blank option. */
  method ReadOutputFormat(outputFormatString: Option<string>) returns (format: OutputFormat)
    ensures format == FormatOption(outputFormatString)
  {
    format := ExtJs4;
    if outputFormatString.Some? && !TrimIsEmpty(outputFormatString.value) {
      if EqualsIgnoreCase(Touch2.Name(), outputFormatString.value) {
        format := Touch2;
      } else if EqualsIgnoreCase(ExtJs5.Name(), outputFormatString.value) {
        format := ExtJs5;
      }
    }
  }

  /** The validation setting: NONE, replaced by a matching non-blank option. */
  method ReadIncludeValidation(includeValidationString: Option<string>) returns (level: IncludeValidation)
    ensures level == ValidationOption(includeValidationString)
  {
    level := IncludeNone;
    if includeValidationString.Some? && !TrimIsEmpty(includeValidationString.value) {
      if EqualsIgnoreCase(IncludeAll.Name(), includeValidationString.value) {
        level := IncludeAll;
      } else if EqualsIgnoreCase(IncludeBuiltin.Name(), includeValidationString.value) {
        level := IncludeBuiltin;
      }
    }
  }

  /** The line-ending setting: SYSTEM, replaced when the upper-cased option
      names a line ending (valueOf throws, and is ignored, otherwise). */
  method ReadLineEnding(lineEndingOption: Option<string>) returns (ending: LineEnding)
    ensures ending == LineEndingOption(lineEndingOption)
  {
    ending := SystemEnding;
    if lineEndingOption.Some? {
      var upper := ToUpperCase(lineEndingOption.value);
      if upper == CrLf.Name() {
        ending := CrLf;
      } else if upper == Lf.Name() {
        ending := Lf;
      } else if upper == SystemEnding.Name() {
        ending := SystemEnding;
      }
    }
  }

  // ---------------------------------------------------------------------------
  // Where a model is written
  // ---------------------------------------------------------------------------

  /** The resource a model goes to: its file name (without extension) and the
      package under the source output location. */
  datatype OutputLocation = OutputLocation(fileName: string, packageName: string)

  /** The file name is the model name's last dotted segment, and the package
      what lies strictly between its first and its last dot; a blank model
      name falls back to the class's simple name and the default package. */
  function LocationOf(modelName: string, simpleName: string): OutputLocation {
    if !TrimIsEmpty(modelName) then
      var lastDot := LastIndexOf(modelName, '.');
      if lastDot != -1 then
        var firstDot := IndexOf(modelName, '.');
        OutputLocation(modelName[lastDot + 1..], if firstDot < lastDot then modelName[firstDot + 1..lastDot] else "")
      else OutputLocation(modelName, "")
    else OutputLocation(simpleName, "")
  }

  /** A name with a dot is never blank. */
  lemma DottedNotBlank(s: string, i: int)
    requires 0 <= i < |s| && s[i] == '.'
    ensures !TrimIsEmpty(s)
  {
  }

  /** Splitting a dotted name: the first segment is dropped, what lies between
      the first and the last dot is the package, the last segment is the file. */
  lemma LocationOfDotted(first: string, pkg: string, file: string, simpleName: string)
    requires '.' !in first && '.' !in file
    ensures LocationOf(first + "." + pkg + "." + file, simpleName) == OutputLocation(file, pkg)
  {
    var name := first + "." + pkg + "." + file;
    var lastDot := |first| + 1 + |pkg|;
    assert name[|first|] == '.' && name[lastDot] == '.';
    DottedNotBlank(name, lastDot);
    assert name[lastDot + 1..] == file;
    assert name[..|first|] == first;
    assert IndexOf(name, '.') == |first|;
    assert LastIndexOf(name, '.') == lastDot;
    assert name[|first| + 1..lastDot] == pkg;
  }

  /** A name with a single dot: the text after it is the file, in the default package. */
  lemma LocationOfSingleDot(first: string, file: string, simpleName: string)
    requires '.' !in first && '.' !in file
    ensures LocationOf(first + "." + file, simpleName) == OutputLocation(file, "")
  {
    var name := first + "." + file;
    assert name[|first|] == '.';
    DottedNotBlank(name, |first|);
    assert name[..|first|] == first;
    assert IndexOf(name, '.') == |first|;
    assert LastIndexOf(name, '.') == |first|;
    assert name[|first| + 1..] == file;
  }

  /** A name without a dot is the file name itself; a blank one gives way to
      the simple name. */
  lemma LocationOfPlain(modelName: string, simpleName: string)
    ensures '.' !in modelName && !TrimIsEmpty(modelName) ==> LocationOf(modelName, simpleName) == OutputLocation(modelName, "")
    ensures TrimIsEmpty(modelName) ==> LocationOf(modelName, simpleName) == OutputLocation(simpleName, "")
  {
  }

  /** The file-name derivation of process. */
  method DeriveLocation(modelName: string, simpleName: string) returns (loc: OutputLocation)
    ensures loc == LocationOf(modelName, simpleName)
  {
    var fileName: string;
    var outPackageName := "";
    if !TrimIsEmpty(modelName) {
      var lastDot := LastIndexOf(modelName, '.');
      if lastDot != -1 {
        fileName := modelName[lastDot + 1..];
        var firstDot := IndexOf(modelName, '.');
        if firstDot < lastDot {
          outPackageName := modelName[firstDot + 1..lastDot];
        }
      } else {
        fileName := modelName;
      }
    } else {
      fileName := simpleName;
    }
    loc := OutputLocation(fileName, outPackageName);
  }

  // ---------------------------------------------------------------------------
  // The "Base" rename: replaceFirst("(Ext.define\\([\"'].+?)([\"'],)", "$1Base$2")
  // ---------------------------------------------------------------------------

  /** The characters `.` does not match: the line terminators. */
  predicate LineTerminator(c: char) {
    c == '\n' || c == '\r' || c == '\U{85}' || c == '\U{2028}' || c == '\U{2029}'
  }

  predicate IsQuote(c: char) {
    c == '"' || c == '\''
  }

  /** `Ext.define\(["']` at i: "Ext", any character but a line terminator,
      "define(", and a quote. */
  predicate DefineHeadAt(s: string, i: int)
    requires 0 <= i
  {
    i + 12 <= |s| && s[i..i + 3] == "Ext" && !LineTerminator(s[i + 3])
    && s[i + 4..i + 11] == "define(" && IsQuote(s[i + 11])
  }

  /** The lazy `.+?` followed by `["'],`: having consumed up to j, the first
      j' >= j where a quote and a comma follow, as long as no line terminator
      has to be consumed on the way. */
  function LazyEnd(s: string, j: int): (r: Option<int>)
    requires 0 <= j
    ensures r.Some? ==> j <= r.value && r.value + 2 <= |s| && IsQuote(s[r.value]) && s[r.value + 1] == ','
    ensures r.Some? ==> forall p :: j <= p < r.value ==> !LineTerminator(s[p]) && !(IsQuote(s[p]) && s[p + 1] == ',')
    decreases |s| - j
  {
    if j + 2 > |s| then None
    else if IsQuote(s[j]) && s[j + 1] == ',' then Some(j)
    else if LineTerminator(s[j]) then None
    else LazyEnd(s, j + 1)
  }

  /** Where the match starting at i ends its first group, if there is one. */
  function MatchAt(s: string, i: int): Option<int>
    requires 0 <= i
  {
    if DefineHeadAt(s, i) && i + 12 < |s| && !LineTerminator(s[i + 12]) then LazyEnd(s, i + 13) else None
  }

  /** The leftmost match at or after i, as the position where "Base" goes. */
  function FirstMatch(s: string, i: nat): (r: Option<int>)
    ensures r.Some? ==> i + 13 <= r.value <= |s|
    decreases |s| - i
  {
    if i + 12 > |s| then None
    else if MatchAt(s, i).Some? then MatchAt(s, i)
    else FirstMatch(s, i + 1)
  }

  /** String.replaceFirst with the base pattern: "Base" inserted before the
      quote that closes the first `Ext.define` name; no match, no change. */
  function BaseRenamed(code: string): (r: string)
    ensures r == code || exists j :: 0 <= j <= |code| && r == code[..j] + "Base" + code[j..]
  {
    match FirstMatch(code, 0)
    case None => code
    case Some(j) => code[..j] + "Base" + code[j..]
  }

  /** Past a stretch the lazy group may consume and where no quote-comma
      follows, the lazy end is the same. */
  lemma {:induction false} LazyEndSkips(s: string, j: int, k: int)
    requires 0 <= j <= k && k + 2 <= |s|
    requires forall p :: j <= p < k ==> !LineTerminator(s[p]) && !IsQuote(s[p])
    ensures LazyEnd(s, j) == LazyEnd(s, k)
    decreases k - j
  {
    if j < k {
      LazyEndSkips(s, j + 1, k);
    }
  }

  /** The statement the generator writes, in pieces: `Ext.define(`, the
      quote, the name, the quote, a comma, the debug separator, the JSON and
      `);`. */
  function StatementText(q: char, name: string, sep: string, json: string): string {
    DEFINE_OPEN + [q] + name + [q] + COMMA + sep + json + DEFINE_CLOSE
  }

  /** The rewritten statement, in pieces. */
  lemma StatementPieces(name: string, json: string, config: OutputConfig, system: string)
    requires '\n' !in name && (config.useSingleQuotes ==> '"' !in name)
    ensures Rewritten(DefineStatement(name, json, config.debug), config, system)
      == StatementText(if config.useSingleQuotes then '\'' else '"', name,
                       if config.debug then LineSeparator(config.lineEnding, system) else "",
                       Rewritten(json, config, system))
  {
    DefineStatementRewritten(name, json, config, system);
  }

  /** `Ext.define(` followed by a quote starts a match of the head. */
  lemma DefineOpenHead(s: string)
    requires |s| >= 12 && s[..11] == DEFINE_OPEN && IsQuote(s[11])
    ensures DefineHeadAt(s, 0)
  {
    assert s[0..3] == s[..11][0..3];
    assert s[3] == s[..11][3];
    assert s[4..11] == s[..11][4..11];
  }

  /** The statement is its head up to the end of the name, then the rest. */
  lemma StatementSplit(q: char, name: string, sep: string, json: string)
    ensures StatementText(q, name, sep, json) == (DEFINE_OPEN + [q] + name) + ([q] + COMMA + sep + json + DEFINE_CLOSE)
  {
  }

  /** The first match in the generator's statement ends its first group right
      after a non-empty name without quotes and line terminators. */
  lemma StatementMatch(q: char, name: string, sep: string, json: string)
    requires IsQuote(q) && |name| > 0
    requires forall p :: 0 <= p < |name| ==> !LineTerminator(name[p]) && !IsQuote(name[p])
    ensures FirstMatch(StatementText(q, name, sep, json), 0) == Some(12 + |name|)
  {
    var head := DEFINE_OPEN + [q] + name;
    var s := StatementText(q, name, sep, json);
    StatementSplit(q, name, sep, json);
    var end := |head|;
    assert s[..11] == DEFINE_OPEN by { assert head[..11] == DEFINE_OPEN; }
    assert s[11] == q && s[12] == name[0];
    assert s[end] == q && s[end + 1] == ',';
    DefineOpenHead(s);
    forall p | 13 <= p < end ensures !LineTerminator(s[p]) && !IsQuote(s[p]) {
      assert s[p] == name[p - 12];
    }
    LazyEndSkips(s, 13, end);
  }

  /** The generator's statement with a non-empty name without quotes and line
      terminators: "Base" goes right after the name and nothing else changes. */
  lemma BaseRenamedHead(q: char, name: string, sep: string, json: string)
    requires IsQuote(q) && |name| > 0
    requires forall p :: 0 <= p < |name| ==> !LineTerminator(name[p]) && !IsQuote(name[p])
    ensures BaseRenamed(StatementText(q, name, sep, json)) == StatementText(q, name + "Base", sep, json)
  {
    var head := DEFINE_OPEN + [q] + name;
    var rest := [q] + COMMA + sep + json + DEFINE_CLOSE;
    var s := StatementText(q, name, sep, json);
    StatementMatch(q, name, sep, json);
    StatementSplit(q, name, sep, json);
    StatementSplit(q, name + "Base", sep, json);
    assert s[..|head|] == head && s[|head|..] == rest;
    assert DEFINE_OPEN + [q] + (name + "Base") == head + "Base";
  }

  /** In base-and-subclass mode the generated statement defines the "Base"
      class: the model's name gets "Base" appended and nothing else changes. */
  lemma BaseRenamedStatement(name: string, json: string, config: OutputConfig, system: string)
    requires |name| > 0
    requires forall p :: 0 <= p < |name| ==> !LineTerminator(name[p]) && !IsQuote(name[p])
    ensures BaseRenamed(Rewritten(DefineStatement(name, json, config.debug), config, system))
      == Rewritten(DefineStatement(name + "Base", json, config.debug), config, system)
  {
    assert '\n' !in name && '"' !in name by {
      forall p | 0 <= p < |name| ensures name[p] != '\n' && name[p] != '"' {
        assert !LineTerminator(name[p]) && !IsQuote(name[p]);
      }
    }
    var based := name + "Base";
    assert '\n' !in based && '"' !in based by {
      assert forall p :: 0 <= p < |based| ==> based[p] == (if p < |name| then name[p] else "Base"[p - |name|]);
    }
    StatementPieces(name, json, config, system);
    StatementPieces(based, json, config, system);
    BaseRenamedHead(if config.useSingleQuotes then '\'' else '"', name,
                    if config.debug then LineSeparator(config.lineEnding, system) else "",
                    Rewritten(json, config, system));
  }

  /** The resource name: "<file>Base.js" in base-and-subclass mode, "<file>.js" otherwise. */
  function ResourceName(fileName: string, createBaseAndSubclass: bool): string {
    fileName + (if createBaseAndSubclass then "Base.js" else ".js")
  }

  // ---------------------------------------------------------------------------
  // A round
  // ---------------------------------------------------------------------------

  /** What becomes of one annotated class: a resource written (package, name
      and content), or an error reported through the Messager with the
      exception's message (null for the NullPointerException a class without
      @Model would raise). */
  datatype Outcome =
    | Written(packageName: string, resourceName: string, content: string)
    | Reported(message: Option<string>)

  /** The outcome of one class. */
  ghost function ElementOutcome(cls: ClassInput, config: OutputConfig, createBaseAndSubclass: bool,
                                detection: TypeDetection, env: Environment): Outcome
  {
    match AssembledModel(cls, detection, config.includeValidation)
    case Err(e) => Reported(Some(e))
    case Ok(model) =>
      if cls.modelAnnotation.None? then Reported(None)
      else
        var code := JavascriptText(model, config, env);
        var loc := LocationOf(cls.modelAnnotation.value.value, cls.simpleName);
        Written(loc.packageName, ResourceName(loc.fileName, createBaseAndSubclass),
                if createBaseAndSubclass then BaseRenamed(code) else code)
  }

  /** The outcomes of a list of classes, in order. */
  ghost function ElementOutcomes(elements: seq<ClassInput>, config: OutputConfig, createBaseAndSubclass: bool,
                                 detection: TypeDetection, env: Environment): (r: seq<Outcome>)
    ensures |r| == |elements|
    decreases |elements|
  {
    if elements == [] then []
    else
      ElementOutcomes(elements[..|elements| - 1], config, createBaseAndSubclass, detection, env)
      + [ElementOutcome(elements[|elements| - 1], config, createBaseAndSubclass, detection, env)]
  }

  /** The outcomes of the classes of each annotation in turn. */
  ghost function AnnotationOutcomes(annotated: seq<seq<ClassInput>>, config: OutputConfig, createBaseAndSubclass: bool,
                                    detection: TypeDetection, env: Environment): seq<Outcome>
    decreases |annotated|
  {
    if annotated == [] then []
    else
      AnnotationOutcomes(annotated[..|annotated| - 1], config, createBaseAndSubclass, detection, env)
      + ElementOutcomes(annotated[|annotated| - 1], config, createBaseAndSubclass, detection, env)
  }

  /** The number of annotated classes. */
  function ElementCount(annotated: seq<seq<ClassInput>>): nat
    decreases |annotated|
  {
    if annotated == [] then 0 else ElementCount(annotated[..|annotated| - 1]) + |annotated[|annotated| - 1]|
  }

  /** What a round produces: nothing in the last round, without annotations or
      without root elements; otherwise one outcome per annotated class. */
  ghost function RoundOutcomes(options: map<string, string>, processingOver: bool, hasRootElements: bool,
                               annotated: seq<seq<ClassInput>>, detection: TypeDetection, env: Environment): seq<Outcome>
  {
    if processingOver || |annotated| == 0 || !hasRootElements then []
    else AnnotationOutcomes(annotated, ConfigOf(options),
                            IsTrue(OptionValue(options, OPTION_CREATEBASEANDSUBCLASS)), detection, env)
  }

  /** One outcome per annotated class. */
  lemma {:induction false} AnnotationOutcomesCount(annotated: seq<seq<ClassInput>>, config: OutputConfig,
                                                   createBaseAndSubclass: bool, detection: TypeDetection, env: Environment)
    ensures |AnnotationOutcomes(annotated, config, createBaseAndSubclass, detection, env)| == ElementCount(annotated)
    decreases |annotated|
  {
    if annotated != [] {
      AnnotationOutcomesCount(annotated[..|annotated| - 1], config, createBaseAndSubclass, detection, env);
    }
  }

  /** A class whose model cannot be built is reported and nothing is written
      for it; a class whose model is built is written to "<file>.js", or in
      base-and-subclass mode to "<file>Base.js" with the model renamed to its
      Base class. */
  lemma ElementOutcomeRules(cls: ClassInput, config: OutputConfig, createBaseAndSubclass: bool,
                            detection: TypeDetection, env: Environment)
    ensures AssembledModel(cls, detection, config.includeValidation).Err? ==>
      ElementOutcome(cls, config, createBaseAndSubclass, detection, env)
        == Reported(Some(AssembledModel(cls, detection, config.includeValidation).message))
    ensures var r := AssembledModel(cls, detection, config.includeValidation);
      r.Ok? && cls.modelAnnotation.Some? && !createBaseAndSubclass ==>
        ElementOutcome(cls, config, createBaseAndSubclass, detection, env) == Written(
          LocationOf(cls.modelAnnotation.value.value, cls.simpleName).packageName,
          LocationOf(cls.modelAnnotation.value.value, cls.simpleName).fileName + ".js",
          JavascriptText(r.value, config, env))
    ensures var r := AssembledModel(cls, detection, config.includeValidation);
      r.Ok? && cls.modelAnnotation.Some? && createBaseAndSubclass && |r.value.name| > 0
      && (forall p :: 0 <= p < |r.value.name| ==> !LineTerminator(r.value.name[p]) && !IsQuote(r.value.name[p])) ==>
        ElementOutcome(cls, config, createBaseAndSubclass, detection, env) == Written(
          LocationOf(cls.modelAnnotation.value.value, cls.simpleName).packageName,
          LocationOf(cls.modelAnnotation.value.value, cls.simpleName).fileName + "Base.js",
          Rewritten(DefineStatement(r.value.name + "Base", env.render(ModelObject(r.value, config, env), config),
                                    config.debug), config, env.lineSeparator))
  {
    var r := AssembledModel(cls, detection, config.includeValidation);
    if r.Ok? && cls.modelAnnotation.Some? && createBaseAndSubclass && |r.value.name| > 0
      && (forall p :: 0 <= p < |r.value.name| ==> !LineTerminator(r.value.name[p]) && !IsQuote(r.value.name[p])) {
      BaseRenamedStatement(r.value.name, env.render(ModelObject(r.value, config, env), config), config, env.lineSeparator);
    }
  }

  /** One annotated class: createModel, generateJavascript, then the output name. */
  method ProcessElement(cls: ClassInput, config: OutputConfig, createBaseAndSubclass: bool,
                        detection: TypeDetection, env: Environment) returns (outcome: Outcome)
    ensures outcome == ElementOutcome(cls, config, createBaseAndSubclass, detection, env)
  {
    var model := CreateModel(cls, detection, config.includeValidation);
    if model.Err? {
      return Reported(Some(model.message));
    }
    var code, _ := GenerateJavascript(model.value, config, env);
    if cls.modelAnnotation.None? {
      return Reported(None);
    }
    var loc := DeriveLocation(cls.modelAnnotation.value.value, cls.simpleName);
    if createBaseAndSubclass {
      code := BaseRenamed(code);
      outcome := Written(loc.packageName, loc.fileName + "Base.js", code);
    } else {
      outcome := Written(loc.packageName, loc.fileName + ".js", code);
    }
  }

  /** One more element processed. */
  lemma ElementOutcomesStep(elements: seq<ClassInput>, e: int, config: OutputConfig, createBaseAndSubclass: bool,
                            detection: TypeDetection, env: Environment)
    requires 0 <= e < |elements|
    ensures ElementOutcomes(elements[..e + 1], config, createBaseAndSubclass, detection, env)
         == ElementOutcomes(elements[..e], config, createBaseAndSubclass, detection, env)
            + [ElementOutcome(elements[e], config, createBaseAndSubclass, detection, env)]
  {
    assert elements[..e + 1][..e] == elements[..e];
  }

  /** The classes annotated with one annotation, in turn. */
  method ProcessElements(elements: seq<ClassInput>, config: OutputConfig, createBaseAndSubclass: bool,
                         detection: TypeDetection, env: Environment) returns (outcomes: seq<Outcome>)
    ensures outcomes == ElementOutcomes(elements, config, createBaseAndSubclass, detection, env)
  {
    outcomes := [];
    var e := 0;
    while e < |elements|
      invariant 0 <= e <= |elements|
      invariant outcomes == ElementOutcomes(elements[..e], config, createBaseAndSubclass, detection, env)
    {
      ElementOutcomesStep(elements, e, config, createBaseAndSubclass, detection, env);
      var outcome := ProcessElement(elements[e], config, createBaseAndSubclass, detection, env);
      outcomes := outcomes + [outcome];
      e := e + 1;
    }
    assert elements[..e] == elements;
  }

  /** process: the options are read once, then every class annotated with
      each annotation is processed in turn; an exception is reported and the
      next class is processed. */
  method Process(options: map<string, string>, processingOver: bool, hasRootElements: bool,
                 annotated: seq<seq<ClassInput>>, detection: TypeDetection, env: Environment)
    returns (outcomes: seq<Outcome>)
    ensures outcomes == RoundOutcomes(options, processingOver, hasRootElements, annotated, detection, env)
  {
    if processingOver || |annotated| == 0 {
      return [];
    }
    if !hasRootElements {
      return [];
    }
    var config, createBaseAndSubclass := ReadOptions(options);
    outcomes := ProcessAnnotations(annotated, config, createBaseAndSubclass, detection, env);
  }

  /** One more annotation processed. */
  lemma AnnotationOutcomesStep(annotated: seq<seq<ClassInput>>, a: int, config: OutputConfig, createBaseAndSubclass: bool,
                               detection: TypeDetection, env: Environment)
    requires 0 <= a < |annotated|
    ensures AnnotationOutcomes(annotated[..a + 1], config, createBaseAndSubclass, detection, env)
         == AnnotationOutcomes(annotated[..a], config, createBaseAndSubclass, detection, env)
            + ElementOutcomes(annotated[a], config, createBaseAndSubclass, detection, env)
  {
    assert annotated[..a + 1][..a] == annotated[..a];
  }

  /** The loop over the annotations of the round. */
  method ProcessAnnotations(annotated: seq<seq<ClassInput>>, config: OutputConfig, createBaseAndSubclass: bool,
                            detection: TypeDetection, env: Environment) returns (outcomes: seq<Outcome>)
    ensures outcomes == AnnotationOutcomes(annotated, config, createBaseAndSubclass, detection, env)
  {
    outcomes := [];
    var a := 0;
    while a < |annotated|
      invariant 0 <= a <= |annotated|
      invariant outcomes == AnnotationOutcomes(annotated[..a], config, createBaseAndSubclass, detection, env)
    {
      AnnotationOutcomesStep(annotated, a, config, createBaseAndSubclass, detection, env);
      var processed := ProcessElements(annotated[a], config, createBaseAndSubclass, detection, env);
      outcomes := outcomes + processed;
      a := a + 1;
    }
    assert annotated[..a] == annotated;
  }
}
