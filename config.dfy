/** `src/config.ts`: where the configuration file is looked for, which parser
    reads it, and how the user's object is merged over the defaults. The
    file system is the set of paths that exist; the parsed file content is
    passed in as a value. */
module Config {
  import opened Util
  import opened Strings
  import opened Json

  /** The file names `findConfigFile` tries, in order. */
  const Candidates: seq<string> := [
    ".codegate.js", ".codegate.cjs", "code-gate.config.json", "code-gate.config.yaml",
    "code-gate.config.yml", ".code-gaterc", ".code-gaterc.json", ".code-gaterc.yaml", ".code-gaterc.yml"
  ]

  /** `path.join(cwd, name)` for a directory without trailing separator. */
  function JoinPath(cwd: string, name: string): string {
    cwd + "/" + name
  }

  /** Candidate `i` exists and no earlier one does. */
  predicate FirstPresentAt(present: set<string>, cwd: string, i: int) {
    && 0 <= i < |Candidates|
    && JoinPath(cwd, Candidates[i]) in present
    && forall j :: 0 <= j < i ==> JoinPath(cwd, Candidates[j]) !in present
  }

  /** `findConfigFile`: the first candidate that exists, or nothing. */
  method FindConfigFile(present: set<string>, cwd: string) returns (r: Option<string>)
    ensures r.Some? ==> exists i :: FirstPresentAt(present, cwd, i) && r.value == JoinPath(cwd, Candidates[i])
    ensures r.None? <==> forall i :: 0 <= i < |Candidates| ==> JoinPath(cwd, Candidates[i]) !in present
  {
    var i := 0;
    while i < |Candidates|
      invariant 0 <= i <= |Candidates|
      invariant forall j :: 0 <= j < i ==> JoinPath(cwd, Candidates[j]) !in present
    {
      var p := JoinPath(cwd, Candidates[i]);
      if p in present {
        assert FirstPresentAt(present, cwd, i);
        return Some(p);
      }
      i := i + 1;
    }
    return None;
  }

  /** Index of the last occurrence of `c` in `s`. */
  function LastIndex(s: string, c: char): (r: Option<nat>)
    ensures r.None? ==> c !in s
    ensures r.Some? ==> r.value < |s| && s[r.value] == c && c !in s[r.value + 1..]
  {
    if s == [] then None
    else if s[|s| - 1] == c then Some(|s| - 1)
    else
      var r := LastIndex(s[..|s| - 1], c);
      assert s[..|s| - 1] + [s[|s| - 1]] == s;
      r
  }

  /** The last path segment. */
  function BaseName(p: string): string {
    match LastIndex(p, '/')
    case None => p
    case Some(k) => p[k + 1..]
  }

  /** `path.extname`: the base name from its last '.', empty when there is
      no '.' or the only one starts the name. */
  function Extname(p: string): string {
    var b := BaseName(p);
    match LastIndex(b, '.')
    case None => ""
    case Some(k) => if k == 0 then "" else b[k..]
  }

  datatype Format = ModuleImport | Yaml | JsonText

  /** `readFile`'s dispatch on the lower-cased extension. */
  function ParserFor(p: string): Format {
    var ext := LowerStr(Extname(p));
    if ext == ".js" || ext == ".cjs" then ModuleImport
    else if ext == ".yaml" || ext == ".yml" then Yaml
    else JsonText
  }

  lemma LastIndexAt(a: string, b: string, c: char)
    requires c !in b
    ensures LastIndex(a + [c] + b, c) == Some(|a|)
  {
    var s := a + [c] + b;
    assert s[|a|] == c;
    var k := LastIndex(s, c).value;
    assert s[|a| + 1..] == b;
  }

  /** The last segment of `cwd/name` is `name`. */
  lemma BaseNameOfJoin(cwd: string, name: string)
    requires '/' !in name
    ensures BaseName(JoinPath(cwd, name)) == name
  {
    var p := JoinPath(cwd, name);
    assert p == cwd + ['/'] + name;
    LastIndexAt(cwd, name, '/');
    assert p[|cwd| + 1..] == name;
  }

  /** The extension of a file `stem.ext` inside `cwd`. */
  lemma ExtnameOfJoin(cwd: string, stem: string, ext: string)
    requires '/' !in stem && '/' !in ext && '.' !in ext && stem != []
    ensures Extname(JoinPath(cwd, stem + "." + ext)) == "." + ext
  {
    var name := stem + ['.'] + ext;
    assert stem + "." + ext == name;
    assert '/' !in name;
    BaseNameOfJoin(cwd, name);
    LastIndexAt(stem, ext, '.');
    assert name[|stem|..] == "." + ext;
  }

  /** A dot file without a further '.' has no extension. */
  lemma ExtnameOfDotFile(cwd: string, rest: string)
    requires '/' !in rest && '.' !in rest
    ensures Extname(JoinPath(cwd, "." + rest)) == ""
  {
    var name := "." + rest;
    assert JoinPath(cwd, name) == cwd + ['/'] + name;
    assert '/' !in name;
    LastIndexAt(cwd, name, '/');
    LastIndexAt([], rest, '.');
    assert [] + ['.'] + rest == name;
  }

  /** `readFile`'s dispatch for a file `stem.ext` in any directory: by the
      extension after the last '.', without regard to ASCII case. */
  lemma ParserOfExtension(cwd: string, stem: string, ext: string)
    requires '/' !in stem && '/' !in ext && '.' !in ext && stem != []
    ensures ParserFor(JoinPath(cwd, stem + "." + ext))
         == if LowerStr(ext) in {"js", "cjs"} then ModuleImport
            else if LowerStr(ext) in {"yaml", "yml"} then Yaml
            else JsonText
  {
    ExtnameOfJoin(cwd, stem, ext);
    LowerDotted(ext);
  }

  /** Lower-casing keeps the leading '.', and `.x` names the same extension as `x`. */
  lemma LowerDotted(ext: string)
    ensures var e := LowerStr(ext);
            && LowerStr("." + ext) == "." + e
            && (LowerStr("." + ext) == ".js" <==> e == "js")
            && (LowerStr("." + ext) == ".cjs" <==> e == "cjs")
            && (LowerStr("." + ext) == ".yaml" <==> e == "yaml")
            && (LowerStr("." + ext) == ".yml" <==> e == "yml")
  {
    var e := LowerStr(ext);
    assert LowerStr("." + ext) == "." + e;
    forall w: string ensures "." + e == "." + w <==> e == w {
      if "." + e == "." + w {
        assert e == ("." + e)[1..] == ("." + w)[1..] == w;
      }
    }
    assert ".js" == "." + "js" && ".cjs" == "." + "cjs" && ".yaml" == "." + "yaml" && ".yml" == "." + "yml";
  }

  /** A dot file such as `.code-gaterc`, with no further '.', is read as JSON. */
  lemma DotFileIsJson(cwd: string, rest: string)
    requires '/' !in rest && '.' !in rest
    ensures ParserFor(JoinPath(cwd, "." + rest)) == JsonText
  {
    ExtnameOfDotFile(cwd, rest);
    assert LowerStr("") == "";
  }

  /** The extension is compared without regard to ASCII case. */
  lemma ParserIgnoresCase(p: string, q: string)
    requires EqualIgnoringCase(Extname(p), Extname(q))
    ensures ParserFor(p) == ParserFor(q)
  {
    assert LowerStr(Extname(p)) == LowerStr(Extname(q));
  }

  /** The built-in defaults. */
  const DefaultConfig: Value := Obj(map[
    "provider" := Str("deepseek"),
    "providerOptions" := Obj(map[
      "deepseek" := Obj(map[
        "baseURL" := Str("https://api.deepseek.com"),
        "apiKeyEnv" := Str("DEEPSEEK_API_KEY"),
        "model" := Str("deepseek-chat"),
        "concurrencyFiles" := Num(4),
        "request" := Obj(map["retries" := Num(1), "backoffMs" := Num(300)])
      ]),
      "ollama" := Obj(map[
        "baseURL" := Str("http://localhost:11434"),
        "model" := Str("qwen2.5-coder"),
        "concurrencyFiles" := Num(1),
        "request" := Obj(map["timeout" := Num(15000), "retries" := Num(1), "backoffMs" := Num(300)])
      ])
    ]),
    "fileTypes" := Arr([Str("ts"), Str("tsx"), Str("js"), Str("jsx"), Str("json"), Str("md"), Str("py"), Str("go"), Str("rs")]),
    "ui" := Obj(map["openBrowser" := Bool(true), "port" := Num(5175)]),
    "limits" := Obj(map["maxDiffLines" := Num(10000), "maxFiles" := Num(100)]),
    "reviewMode" := Str("files"),
    "prompt" := Str("作为资深代码审查工程师，从安全、性能、代码风格与测试覆盖角度审查本次变更，指出问题与改进建议，并给出必要的示例补丁。"),
    "output" := Obj(map["dir" := Str(".code-gate")])
  ])

  /** The providers whose options are always rebuilt. */
  const Providers: set<string> :=
    {"deepseek", "ollama", "openai", "anthropic", "gemini", "cohere", "mistral", "azureOpenAI"}

  /** The keys merged one level deep instead of replaced. */
  const Sections: set<string> := {"ui", "limits", "output"}

  /** `{...(d || {}), ...(u || {})}` */
  function Spread(d: Value, u: Value): map<string, Value> {
    PropsOr(d) + PropsOr(u)
  }

  /** One provider's options: default then user, with `request` merged the same way. */
  function MergeProvider(d: Value, u: Value): Value {
    Obj(Spread(d, u)["request" := Obj(Spread(Get(d, "request"), Get(u, "request")))])
  }

  function MergeProviderOptions(d: Value, u: Value): Value {
    Obj(Spread(d, u) + map p | p in Providers :: MergeProvider(Get(d, p), Get(u, p)))
  }

  /** A section merged one level deep: `{...d.sec, ...(user.sec || {})}`. */
  function MergedSection(d: Value, user: Value, sec: string): Value {
    Obj(Spread(Get(d, sec), Get(user, sec)))
  }

  /** The merge `loadConfig` performs of a user value over defaults `d`: the
      user's keys override wholesale, except the sections and the provider
      options, which are merged key by key. */
  function Merge(d: Value, read: Value): (r: Value)
    ensures r.Obj?
  {
    var user := if Falsy(read) then Obj(map[]) else read;
    Obj(Props(d) + Props(user) + MergedKeys(d, user))
  }

  /** The keys `loadConfig` merges instead of replacing. */
  function MergedKeys(d: Value, user: Value): (m: map<string, Value>)
    ensures m.Keys == Sections + {"providerOptions"}
  {
    map["providerOptions" := MergeProviderOptions(Get(d, "providerOptions"), Get(user, "providerOptions"))]
    + map sec | sec in Sections :: MergedSection(d, user, sec)
  }

  /** `loadConfig` given what `readFile` produced (`None`: no file found). */
  function LoadConfig(found: Option<Value>): (r: Value)
    ensures found.None? ==> r == DefaultConfig
    ensures found.Some? ==> r == Merge(DefaultConfig, found.value)
  {
    match found
    case None => DefaultConfig
    case Some(read) => Merge(DefaultConfig, read)
  }

  /** A file that reads as a falsy value counts as an empty object. */
  lemma FalsyUserIsEmpty(d: Value, read: Value)
    requires Falsy(read)
    ensures Merge(d, read) == Merge(d, Obj(map[]))
  {
  }

  /** A top-level key other than the merged ones is taken from the user
      wholesale (an array such as `fileTypes` is replaced, not merged), and
      otherwise kept from the defaults. */
  lemma TopLevelOverride(d: Value, u: map<string, Value>, k: string)
    requires k !in Sections && k != "providerOptions"
    ensures k in u ==> Get(Merge(d, Obj(u)), k) == u[k]
    ensures k !in u ==> Get(Merge(d, Obj(u)), k) == Get(Obj(Props(d)), k)
  {
    assert !Falsy(Obj(u));
    MergeTopLevel(d, Obj(u), k);
  }

  /** Outside the merged keys the result is the plain spread of the defaults
      and the user's value. */
  lemma MergeTopLevel(d: Value, read: Value, k: string)
    requires k !in Sections && k != "providerOptions"
    ensures var user := if Falsy(read) then Obj(map[]) else read;
            Get(Merge(d, read), k) == Get(Obj(Props(d) + Props(user)), k)
  {
    var user := if Falsy(read) then Obj(map[]) else read;
    assert k !in MergedKeys(d, user);
  }

  /** A configuration file that holds an array spreads its elements into the
      result under the index keys `"0"`, `"1"`, ... */
  lemma ArrayConfigSpreadsIndices(d: Value, a: seq<Value>, i: nat)
    requires i < |a|
    ensures Get(Merge(d, Arr(a)), Decimal(i)) == a[i]
  {
    var k := Decimal(i);
    DecimalNotName(i, "ui");
    DecimalNotName(i, "limits");
    DecimalNotName(i, "output");
    DecimalNotName(i, "providerOptions");
    assert !Falsy(Arr(a));
    MergeTopLevel(d, Arr(a), k);
    ArrayIndexProp(a, i);
    GetUnionRight(Props(d), Props(Arr(a)), k);
  }

  /** A section given as a string gains one key per character. */
  lemma StringSectionSpreadsChars(d: Value, u: map<string, Value>, sec: string, s: string, i: nat)
    requires sec in Sections && sec in u && u[sec] == Str(s) && i < |s|
    ensures Get(Get(Merge(d, Obj(u)), sec), Decimal(i)) == Str([s[i]])
  {
    SectionMerge(d, u, sec, Decimal(i));
    assert Get(Obj(u), sec) == Str(s);
    StringIndexProp(s, i);
  }

  /** `ui`, `limits` and `output` keep each default key the user does not set. */
  lemma SectionMerge(d: Value, u: map<string, Value>, sec: string, k: string)
    requires sec in Sections
    ensures Get(Merge(d, Obj(u)), sec).Obj?
    ensures Get(Get(Merge(d, Obj(u)), sec), k)
         == if k in PropsOr(Get(Obj(u), sec)) then PropsOr(Get(Obj(u), sec))[k] else Get(Obj(PropsOr(Get(d, sec))), k)
  {
    assert !Falsy(Obj(u));
    assert MergedKeys(d, Obj(u))[sec] == MergedSection(d, Obj(u), sec);
    SpreadKey(Get(d, sec), Get(Obj(u), sec), k);
  }

  lemma SpreadKey(d: Value, u: Value, k: string)
    ensures Get(Obj(Spread(d, u)), k) == if k in PropsOr(u) then PropsOr(u)[k] else Get(Obj(PropsOr(d)), k)
  {
  }

  /** Every known provider has an options object with a `request` object
      after merging, whatever the user wrote. */
  lemma ProvidersComplete(d: Value, read: Value, p: string)
    requires p in Providers
    ensures Get(Get(Merge(d, read), "providerOptions"), p).Obj?
    ensures Get(Get(Get(Merge(d, read), "providerOptions"), p), "request").Obj?
  {
    var user := if Falsy(read) then Obj(map[]) else read;
    var dpo, upo := Get(d, "providerOptions"), Get(user, "providerOptions");
    assert Get(Merge(d, read), "providerOptions") == MergeProviderOptions(dpo, upo) by {
      MergedProviderOptions(d, read);
    }
    KnownProviderMerged(dpo, upo, p);
    ProviderHasRequest(Get(dpo, p), Get(upo, p));
  }

  lemma ProviderHasRequest(dflt: Value, user: Value)
    ensures MergeProvider(dflt, user).Obj? && Get(MergeProvider(dflt, user), "request").Obj?
  {
  }

  /** The merged `providerOptions` is the provider-by-provider merge. */
  lemma MergedProviderOptions(d: Value, read: Value)
    ensures var user := if Falsy(read) then Obj(map[]) else read;
            Get(Merge(d, read), "providerOptions")
            == MergeProviderOptions(Get(d, "providerOptions"), Get(user, "providerOptions"))
  {
    var user := if Falsy(read) then Obj(map[]) else read;
    MergedKeysProviderOptions(d, user);
  }

  lemma MergedKeysProviderOptions(d: Value, user: Value)
    ensures MergedKeys(d, user)["providerOptions"]
         == MergeProviderOptions(Get(d, "providerOptions"), Get(user, "providerOptions"))
  {
    var sections := map sec | sec in Sections :: MergedSection(d, user, sec);
    assert "providerOptions" !in sections;
  }

  lemma KnownProviderMerged(dpo: Value, upo: Value, p: string)
    requires p in Providers
    ensures Get(MergeProviderOptions(dpo, upo), p) == MergeProvider(Get(dpo, p), Get(upo, p))
  {
    var known := map q | q in Providers :: MergeProvider(Get(dpo, q), Get(upo, q));
    assert p in known;
    GetUnionRight(Spread(dpo, upo), known, p);
  }

  /** Inside a known provider, keys and `request` keys are default-then-user. */
  lemma ProviderMerge(d: Value, u: map<string, Value>, p: string, k: string)
    requires p in Providers && k != "request"
    ensures var user := Get(Get(Obj(u), "providerOptions"), p);
            var dflt := Get(Get(d, "providerOptions"), p);
            var merged := Get(Get(Merge(d, Obj(u)), "providerOptions"), p);
            && Get(merged, k) == (if k in PropsOr(user) then PropsOr(user)[k] else Get(Obj(PropsOr(dflt)), k))
            && Get(Get(merged, "request"), k)
               == (if k in PropsOr(Get(user, "request")) then PropsOr(Get(user, "request"))[k]
                   else Get(Obj(PropsOr(Get(dflt, "request"))), k))
  {
    var user := Get(Get(Obj(u), "providerOptions"), p);
    var dflt := Get(Get(d, "providerOptions"), p);
    assert !Falsy(Obj(u));
    MergedProviderOptions(d, Obj(u));
    KnownProviderMerged(Get(d, "providerOptions"), Get(Obj(u), "providerOptions"), p);
    MergeProviderKeys(dflt, user, k);
  }

  lemma MergeProviderKeys(dflt: Value, user: Value, k: string)
    requires k != "request"
    ensures Get(MergeProvider(dflt, user), k) == (if k in PropsOr(user) then PropsOr(user)[k] else Get(Obj(PropsOr(dflt)), k))
    ensures Get(Get(MergeProvider(dflt, user), "request"), k)
         == (if k in PropsOr(Get(user, "request")) then PropsOr(Get(user, "request"))[k]
             else Get(Obj(PropsOr(Get(dflt, "request"))), k))
  {
    var spread := Spread(dflt, user);
    var request := Obj(Spread(Get(dflt, "request"), Get(user, "request")));
    assert MergeProvider(dflt, user) == Obj(spread["request" := request]);
    GetUpdateOther(spread, "request", request, k);
    assert Get(MergeProvider(dflt, user), "request") == request;
    SpreadKey(dflt, user, k);
    SpreadKey(Get(dflt, "request"), Get(user, "request"), k);
  }

  /** A user-defined provider that is not one of the known ones is kept as written. */
  lemma OtherProviderKept(d: Value, u: map<string, Value>, p: string)
    requires p !in Providers
    ensures var user := Get(Obj(u), "providerOptions");
            p in PropsOr(user) ==> Get(Get(Merge(d, Obj(u)), "providerOptions"), p) == PropsOr(user)[p]
  {
    MergedProviderOptions(d, Obj(u));
    assert !Falsy(Obj(u));
    OtherProviderMerged(Get(d, "providerOptions"), Get(Obj(u), "providerOptions"), p);
  }

  lemma OtherProviderMerged(dpo: Value, upo: Value, p: string)
    requires p !in Providers
    ensures p in PropsOr(upo) ==> Get(MergeProviderOptions(dpo, upo), p) == PropsOr(upo)[p]
  {
  }
}
