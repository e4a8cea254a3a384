/**
 * The `.env` loader and the settings defaults of agent/src/rag/settings.py.
 * The process environment is an `Environment` object whose `vars` map the
 * loader updates in place; reading the file is replaced by its lines
 * (`None` when the file does not exist).
 */
module Settings {
  import opened Wrappers
  import opened PyText

  /** A `key=value` line as the loader stores it. */
  datatype Assignment = Assignment(key: string, value: string)

  predicate QuotedBy(v: string, q: char) {
    |v| >= 1 && v[0] == q && v[|v| - 1] == q
  }

  /** Python's value[1:-1]: both end characters dropped, nothing left of a single character. */
  function DropEnds(v: string): string {
    if |v| >= 2 then v[1..|v| - 1] else []
  }

  /** One layer of matching double or single quotes is removed; anything else is kept as is. */
  function Unquote(v: string): (r: string)
    ensures (QuotedBy(v, '"') || QuotedBy(v, '\'')) && |v| >= 2 ==> v == [v[0]] + r + [v[0]]
    ensures (QuotedBy(v, '"') || QuotedBy(v, '\'')) && |v| == 1 ==> r == []
    ensures !QuotedBy(v, '"') && !QuotedBy(v, '\'') ==> r == v
  {
    if QuotedBy(v, '"') then DropEnds(v)
    else if QuotedBy(v, '\'') then DropEnds(v)
    else v
  }

  /** Quoting a value with either quote character and loading it gives the value back, whatever it holds. */
  lemma UnquoteQuoted(q: char, s: string)
    requires q == '"' || q == '\''
    ensures Unquote([q] + s + [q]) == s
  {
    var v := [q] + s + [q];
    assert v[0] == q && v[|v| - 1] == q;
    assert v[1..|v| - 1] == s;
  }

  /** One line of the file: `None` for a line that sets nothing. */
  function ParseLine(line: string): (r: Option<Assignment>)
    ensures r.None? <==> (var t := Strip(line); t == [] || t[0] == '#' || '=' !in t)
  {
    var t := Strip(line);
    if t == [] || t[0] == '#' || '=' !in t then None
    else
      var (key, value) := SplitAtFirst(t, '=');
      Some(Assignment(Strip(key), Unquote(Strip(value))))
  }

  /** strip() of `a=b` only touches the outer ends, since `=` is not whitespace. */
  lemma StripAroundEquals(a: string, b: string)
    ensures Strip(a + "=" + b) == TrimStart(IsSpace, a) + "=" + TrimEnd(IsSpace, b)
  {
    assert !IsSpace('=');
    StripAround(IsSpace, a, '=', b);
  }

  /** After lstrip, a string starts with the first character of its strip(), if it has any. */
  lemma TrimStartHead(a: string)
    requires TrimStart(IsSpace, a) != []
    ensures Strip(a) != [] && TrimStart(IsSpace, a)[0] == Strip(a)[0]
  {
    var a' := TrimStart(IsSpace, a);
    TrimStartSpec(IsSpace, a);
    TrimEndSpec(IsSpace, a');
  }

  /**
   * A line `a=b`, with no `=` in `a`, assigns strip(a) the unquoted strip(b):
   * the split is at the first `=`, so `b` keeps every later `=`.
   */
  lemma ParseAssignmentLine(a: string, b: string)
    requires '=' !in a
    requires Strip(a) == [] || Strip(a)[0] != '#'
    ensures ParseLine(a + "=" + b) == Some(Assignment(Strip(a), Unquote(Strip(b))))
  {
    var a' := TrimStart(IsSpace, a);
    var b' := TrimEnd(IsSpace, b);
    StripAroundEquals(a, b);
    var t := a' + "=" + b';
    assert '=' !in a' by {
      TrimStartSpec(IsSpace, a);
      assert a == a[..|a| - |a'|] + a';
    }
    if a' != [] {
      TrimStartHead(a);
      assert t[0] == a'[0];
    } else {
      assert t[0] == '=';
    }
    assert t[|a'|] == '=';
    SplitAtFirstUnique(a', b', '=');
    StripOfTrimStart(IsSpace, a);
    StripOfTrimEnd(IsSpace, b);
  }

  predicate Assigns(line: string, key: string) {
    ParseLine(line).Some? && ParseLine(line).value.key == key
  }

  /** The environment after one line: only the key the line assigns can change, and no key is removed. */
  function AssignLine(vars: map<string, string>, line: string): (r: map<string, string>)
    ensures vars.Keys <= r.Keys
    ensures forall k :: k in r && !Assigns(line, k) ==> k in vars && r[k] == vars[k]
    ensures ParseLine(line).Some? ==>
      ParseLine(line).value.key in r && r[ParseLine(line).value.key] == ParseLine(line).value.value
  {
    match ParseLine(line)
    case None => vars
    case Some(a) => vars[a.key := a.value]
  }

  /**
   * The environment after the lines, applied in file order: loading never removes a
   * variable, and every variable it adds is assigned by some line.
   */
  function ApplyLines(vars: map<string, string>, lines: seq<string>): (r: map<string, string>)
    ensures vars.Keys <= r.Keys
    ensures forall k :: k in r && k !in vars ==> exists i :: 0 <= i < |lines| && Assigns(lines[i], k)
    decreases |lines|
  {
    if lines == [] then vars
    else
      var init := lines[..|lines| - 1];
      var prev := ApplyLines(vars, init);
      assert forall i :: 0 <= i < |init| ==> init[i] == lines[i];
      AssignLine(prev, lines[|lines| - 1])
  }

  /** A key takes the value of the last line that assigns it, whatever earlier lines or the environment said. */
  lemma {:induction false} LastAssignmentWins(vars: map<string, string>, lines: seq<string>, j: nat, key: string, value: string)
    requires j < |lines| && ParseLine(lines[j]) == Some(Assignment(key, value))
    requires forall i :: j < i < |lines| ==> !Assigns(lines[i], key)
    ensures key in ApplyLines(vars, lines) && ApplyLines(vars, lines)[key] == value
    decreases |lines|
  {
    var init := lines[..|lines| - 1];
    if j < |lines| - 1 {
      assert !Assigns(lines[|lines| - 1], key);
      LastAssignmentWins(vars, init, j, key, value);
    }
  }

  /** A key that no line assigns keeps its presence and its value. */
  lemma {:induction false} UnassignedKeyUntouched(vars: map<string, string>, lines: seq<string>, key: string)
    requires forall i :: 0 <= i < |lines| ==> !Assigns(lines[i], key)
    ensures key in ApplyLines(vars, lines) <==> key in vars
    ensures key in vars ==> ApplyLines(vars, lines)[key] == vars[key]
    decreases |lines|
  {
    if lines != [] {
      UnassignedKeyUntouched(vars, lines[..|lines| - 1], key);
    }
  }

  /** A line that is blank, a comment, or has no `=` sets nothing. */
  lemma SkippedLineSetsNothing(vars: map<string, string>, line: string)
    requires var t := Strip(line); t == [] || t[0] == '#' || '=' !in t
    ensures ApplyLines(vars, [line]) == vars
  {
    assert [line][..0] == [];
  }

  /** The process environment (os.environ). */
  class Environment {
    var vars: map<string, string>

    constructor (initial: map<string, string>)
      ensures vars == initial
    {
      vars := initial;
    }
  }

  /**
   * load_env_file: `false` and no change when the file does not exist; otherwise every
   * line is applied in order and the result is `true`, even if no line assigned anything.
   */
  method LoadEnvFile(environ: Environment, file: Option<seq<string>>) returns (loaded: bool)
    modifies environ
    ensures loaded <==> file.Some?
    ensures file.None? ==> environ.vars == old(environ.vars)
    ensures file.Some? ==> environ.vars == ApplyLines(old(environ.vars), file.value)
  {
    if file.None? {
      return false;
    }
    var lines := file.value;
    var i := 0;
    while i < |lines|
      invariant 0 <= i <= |lines|
      invariant environ.vars == ApplyLines(old(environ.vars), lines[..i])
    {
      assert lines[..i + 1][..i] == lines[..i];
      var parsed := ParseLine(lines[i]);
      if parsed.Some? {
        environ.vars := environ.vars[parsed.value.key := parsed.value.value];
      }
      i := i + 1;
    }
    assert lines[..|lines|] == lines;
    return true;
  }

  const ApiKeyName := "OPENAI_API_KEY"
  const DefaultModel := "deepseek-chat"
  const DefaultApiBase := "https://api.deepseek.com"
  const DefaultMaxTokens := 8192
  const DefaultContextWindow := 128000
  const DefaultEmbeddingModel := "BAAI/bge-large-en-v1.5"

  /** Python truthiness of os.getenv(name): set and not the empty string. */
  predicate IsSetNonEmpty(vars: map<string, string>, name: string) {
    name in vars && vars[name] != []
  }

  /** os.getenv(name) or default. */
  function GetenvOr(vars: map<string, string>, name: string, default: string): string {
    if IsSetNonEmpty(vars, name) then vars[name] else default
  }

  /** int(os.getenv(name) or default), with int() of a string given as `toInt`. */
  function GetenvIntOr(vars: map<string, string>, name: string, toInt: string -> int, default: int): int {
    if IsSetNonEmpty(vars, name) then toInt(vars[name]) else default
  }

  /** What init_settings hands to the LLM and embedding constructors (Settings.context_window is the same value). */
  datatype LlmSettings = LlmSettings(
    model: string,
    apiKey: Option<string>,
    apiBase: string,
    maxTokens: int,
    contextWindow: int,
    embeddingModel: string)

  /** The settings read from the environment, each unset or empty variable falling back to its default. */
  function ResolveSettings(vars: map<string, string>, toInt: string -> int): (s: LlmSettings)
    ensures s.model != [] && s.apiBase != [] && s.embeddingModel != []
    ensures s.model == DefaultModel <== !IsSetNonEmpty(vars, "OPENAI_MODEL")
    ensures s.apiBase == DefaultApiBase <== !IsSetNonEmpty(vars, "OPENAI_BASE_URL")
    ensures s.maxTokens == DefaultMaxTokens <== !IsSetNonEmpty(vars, "LLM_MAX_TOKENS")
    ensures s.contextWindow == DefaultContextWindow <== !IsSetNonEmpty(vars, "LLM_CONTEXT_WINDOW")
    ensures s.embeddingModel == DefaultEmbeddingModel <== !IsSetNonEmpty(vars, "EMBEDDING_MODEL")
    ensures IsSetNonEmpty(vars, "OPENAI_MODEL") ==> s.model == vars["OPENAI_MODEL"]
    ensures IsSetNonEmpty(vars, "OPENAI_BASE_URL") ==> s.apiBase == vars["OPENAI_BASE_URL"]
    ensures IsSetNonEmpty(vars, "EMBEDDING_MODEL") ==> s.embeddingModel == vars["EMBEDDING_MODEL"]
    ensures IsSetNonEmpty(vars, "LLM_MAX_TOKENS") ==> s.maxTokens == toInt(vars["LLM_MAX_TOKENS"])
    ensures IsSetNonEmpty(vars, "LLM_CONTEXT_WINDOW") ==> s.contextWindow == toInt(vars["LLM_CONTEXT_WINDOW"])
    ensures s.apiKey.Some? <==> ApiKeyName in vars
    ensures s.apiKey.Some? ==> s.apiKey.value == vars[ApiKeyName]
  {
    LlmSettings(
      model := GetenvOr(vars, "OPENAI_MODEL", DefaultModel),
      apiKey := if ApiKeyName in vars then Some(vars[ApiKeyName]) else None,
      apiBase := GetenvOr(vars, "OPENAI_BASE_URL", DefaultApiBase),
      maxTokens := GetenvIntOr(vars, "LLM_MAX_TOKENS", toInt, DefaultMaxTokens),
      contextWindow := GetenvIntOr(vars, "LLM_CONTEXT_WINDOW", toInt, DefaultContextWindow),
      embeddingModel := GetenvOr(vars, "EMBEDDING_MODEL", DefaultEmbeddingModel))
  }

  /**
   * A `.env` whose last `OPENAI_MODEL` line is `OPENAI_MODEL=""` loads an empty value,
   * and the empty value falls back to the default model.
   */
  lemma EmptyQuotedModelFallsBack(vars: map<string, string>, lines: seq<string>, j: nat, toInt: string -> int)
    requires j < |lines| && lines[j] == "OPENAI_MODEL=\"\""
    requires forall i :: j < i < |lines| ==> !Assigns(lines[i], "OPENAI_MODEL")
    ensures ResolveSettings(ApplyLines(vars, lines), toInt).model == DefaultModel
  {
    var a, b := "OPENAI_MODEL", "\"\"";
    assert lines[j] == a + "=" + b;
    assert Strip(a) == a by {
      StripPadded(IsSpace, [], a, []);
      assert [] + a + [] == a;
    }
    assert Strip(b) == b by {
      StripPadded(IsSpace, [], b, []);
      assert [] + b + [] == b;
    }
    ParseAssignmentLine(a, b);
    LastAssignmentWins(vars, lines, j, a, Unquote(b));
  }

  datatype SettingsError = MissingApiKey

  /**
   * init_settings once a `.env` file has been looked up (`envFile` holds the lines of the
   * first candidate that exists). The file is loaded only when OPENAI_API_KEY is unset; a
   * file that was loaded but did not set it is an error.
   */
  method InitSettings(environ: Environment, envFile: Option<seq<string>>, toInt: string -> int)
    returns (r: Result<LlmSettings, SettingsError>)
    modifies environ
    ensures ApiKeyName in old(environ.vars) || envFile.None? ==> environ.vars == old(environ.vars)
    ensures ApiKeyName !in old(environ.vars) && envFile.Some? ==>
      environ.vars == ApplyLines(old(environ.vars), envFile.value)
    ensures r.Failure? <==> ApiKeyName !in old(environ.vars) && envFile.Some? && ApiKeyName !in environ.vars
    ensures r.Success? ==> r.value == ResolveSettings(environ.vars, toInt)
  {
    if ApiKeyName !in environ.vars {
      var loaded := LoadEnvFile(environ, envFile);
      if loaded && ApiKeyName !in environ.vars {
        return Failure(MissingApiKey);
      }
    }
    return Success(ResolveSettings(environ.vars, toInt));
  }
}
