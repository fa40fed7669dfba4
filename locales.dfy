/** `src/locales/index.ts`: the module-level current language, switched by
    `setLanguage`, and the message lookup `t`, which walks a dotted key path
    through the current locale table and fills `{name}` placeholders. */
module Locales {
  import opened Util
  import opened Strings

  /** A locale table: nested groups whose leaves are messages. */
  datatype Entry = Message(text: string) | Group(members: map<string, Entry>)

  datatype Lang = ZhCN | En

  /** `String(value)` for a table entry. */
  function Show(e: Entry): string {
    match e
    case Message(t) => t
    case Group(_) => "[object Object]"
  }

  /** Following `keys` from `root`: each step needs a group holding the key. */
  function Walk(root: Entry, keys: seq<string>): Option<Entry>
    decreases |keys|
  {
    if keys == [] then Some(root)
    else if root.Group? && keys[0] in root.members then Walk(root.members[keys[0]], keys[1..])
    else None
  }

  /** A character of the regular-expression class `\w`. */
  predicate IsWordChar(c: char) {
    ('a' <= c <= 'z') || ('A' <= c <= 'Z') || ('0' <= c <= '9') || c == '_'
  }

  /** A string `\w+` matches in full. */
  predicate IsWord(s: string) {
    s != [] && forall i :: 0 <= i < |s| ==> IsWordChar(s[i])
  }

  /** Length of the longest prefix of word characters. */
  function WordRun(s: string): (n: nat)
    ensures n <= |s|
    ensures forall i :: 0 <= i < n ==> IsWordChar(s[i])
    ensures n == |s| || !IsWordChar(s[n])
  {
    if s != [] && IsWordChar(s[0]) then 1 + WordRun(s[1..]) else 0
  }

  /** `s.replace(/\{(\w+)\}/g, ...)`: scanning left to right, each `{word}`
      becomes the parameter `word` when one is given and stays as it is
      otherwise; everything else is copied. */
  function Substitute(s: string, params: map<string, string>): string
    decreases |s|
  {
    if s == [] then []
    else if s[0] == '{' then
      var n := WordRun(s[1..]);
      if n > 0 && 1 + n < |s| && s[1 + n] == '}' then
        var key := s[1..1 + n];
        (if key in params then params[key] else "{" + key + "}") + Substitute(s[n + 2..], params)
      else [s[0]] + Substitute(s[1..], params)
    else [s[0]] + Substitute(s[1..], params)
  }

  /** `t(path, params)` against the table `root`. */
  function Translate(root: Entry, path: string, params: Option<map<string, string>>): string {
    match Walk(root, Split(path, '.'))
    case None => path
    case Some(e) => if e.Message? && params.Some? then Substitute(e.text, params.value) else Show(e)
  }

  /** With no parameter supplied every placeholder stays literally. */
  lemma {:induction false} SubstituteNoParams(s: string)
    ensures Substitute(s, map[]) == s
  {
    if s != [] {
      if s[0] == '{' {
        var n := WordRun(s[1..]);
        if n > 0 && 1 + n < |s| && s[1 + n] == '}' {
          var name, b := s[1..1 + n], s[n + 2..];
          assert s == "{" + name + "}" + b;
          assert IsWord(name);
          SubstituteAtPlaceholder(name, b, map[]);
          SubstituteNoParams(b);
        } else {
          SubstituteNoParams(s[1..]);
          assert s == [s[0]] + s[1..];
        }
      } else {
        SubstituteNoParams(s[1..]);
        assert s == [s[0]] + s[1..];
      }
    }
  }

  /** Text without '{' is copied unchanged. */
  lemma {:induction false} SubstituteLiteral(a: string, rest: string, params: map<string, string>)
    requires '{' !in a
    ensures Substitute(a + rest, params) == a + Substitute(rest, params)
  {
    if a != [] {
      assert (a + rest)[0] == a[0];
      assert (a + rest)[1..] == a[1..] + rest;
      SubstituteLiteral(a[1..], rest, params);
      assert [a[0]] + a[1..] == a;
    } else {
      assert a + rest == rest;
    }
  }

  /** A `{name}` placeholder after plain text is replaced by the parameter
      when it is given and kept literally when it is not. */
  lemma SubstitutePlaceholder(a: string, name: string, b: string, params: map<string, string>)
    requires '{' !in a && IsWord(name)
    ensures Substitute(a + "{" + name + "}" + b, params)
         == a + (if name in params then params[name] else "{" + name + "}") + Substitute(b, params)
  {
    var s := "{" + name + "}" + b;
    assert a + "{" + name + "}" + b == a + s;
    SubstituteLiteral(a, s, params);
    SubstituteAtPlaceholder(name, b, params);
  }

  lemma SubstituteAtPlaceholder(name: string, b: string, params: map<string, string>)
    requires IsWord(name)
    ensures Substitute("{" + name + "}" + b, params)
         == (if name in params then params[name] else "{" + name + "}") + Substitute(b, params)
  {
    var s := "{" + name + "}" + b;
    var n := |name|;
    assert s[0] == '{';
    assert s[1..] == name + ("}" + b);
    WordRunOfWord(name, "}" + b);
    assert s[1 + n] == '}';
    assert s[1..1 + n] == name;
    assert s[n + 2..] == b;
  }

  lemma {:induction false} WordRunOfWord(w: string, rest: string)
    requires forall i :: 0 <= i < |w| ==> IsWordChar(w[i])
    requires rest == [] || !IsWordChar(rest[0])
    ensures WordRun(w + rest) == |w|
  {
    if w != [] {
      assert (w + rest)[1..] == w[1..] + rest;
      WordRunOfWord(w[1..], rest);
    } else {
      assert w + rest == rest;
    }
  }

  /** Braces around anything but a word (`{}`, `{a-b}`, `{a b}`) are not a
      placeholder and stay in the text. */
  lemma NonWordBracesKept(k: string, params: map<string, string>)
    requires '{' !in k && '}' !in k && !IsWord(k)
    ensures Substitute("{" + k + "}", params) == "{" + k + "}"
  {
    var s := "{" + k + "}";
    assert s[1..] == k + "}";
    var n := WordRun(s[1..]);
    if n > 0 && 1 + n < |s| && s[1 + n] == '}' {
      assert n == |k|;
      assert forall i :: 0 <= i < |k| ==> k[i] == s[1..][i];
      assert IsWord(k);
    }
    assert '{' !in k + "}";
    SubstituteLiteral(k + "}", [], params);
    assert k + "}" + [] == k + "}";
  }

  lemma {:induction false} WalkAppend(root: Entry, a: seq<string>, b: seq<string>)
    ensures Walk(root, a + b) == (match Walk(root, a) case None => None case Some(e) => Walk(e, b))
  {
    if a == [] {
      assert a + b == b;
    } else {
      assert (a + b)[0] == a[0];
      assert (a + b)[1..] == a[1..] + b;
      if root.Group? && a[0] in root.members {
        WalkAppend(root.members[a[0]], a[1..], b);
      }
    }
  }

  /** A dotted path with a segment that is missing (or that would have to
      descend into a message) translates to the path itself. */
  lemma MissingSegmentGivesPath(root: Entry, path: string, params: Option<map<string, string>>, i: nat, e: Entry)
    requires i < |Split(path, '.')|
    requires Walk(root, Split(path, '.')[..i]) == Some(e)
    requires !(e.Group? && Split(path, '.')[i] in e.members)
    ensures Translate(root, path, params) == path
  {
    var keys := Split(path, '.');
    assert keys == keys[..i] + keys[i..];
    WalkAppend(root, keys[..i], keys[i..]);
  }

  /** A message found without parameters, or with parameters that name none
      of its placeholders, is returned as it is. */
  lemma PlainMessage(root: Entry, path: string, text: string)
    requires Walk(root, Split(path, '.')) == Some(Message(text))
    ensures Translate(root, path, None) == text
    ensures Translate(root, path, Some(map[])) == text
  {
    SubstituteNoParams(text);
  }

  class Localizer {
    /** `currentLang`, `'zh-CN'` at start. */
    var currentLang: Lang
    const zhCN: Entry
    const en: Entry

    constructor (zhCN: Entry, en: Entry)
      ensures currentLang == ZhCN && this.zhCN == zhCN && this.en == en
    {
      this.zhCN := zhCN;
      this.en := en;
      currentLang := ZhCN;
    }

    /** `locales[currentLang]` */
    function Table(): Entry
      reads this
    {
      if currentLang == En then en else zhCN
    }

    /** `setLanguage`: only the two known languages are accepted. */
    method SetLanguage(lang: string)
      modifies this`currentLang
      ensures lang == "en" ==> currentLang == En
      ensures lang == "zh-CN" ==> currentLang == ZhCN
      ensures lang != "en" && lang != "zh-CN" ==> currentLang == old(currentLang)
    {
      if lang == "en" {
        currentLang := En;
      } else if lang == "zh-CN" {
        currentLang := ZhCN;
      }
    }

    /** `t`: walks the keys one by one, returning the path at the first
        segment that cannot be followed. Changes nothing. */
    method T(path: string, params: Option<map<string, string>>) returns (r: string)
      ensures r == Translate(Table(), path, params)
    {
      var keys := Split(path, '.');
      var value := Table();
      var i := 0;
      while i < |keys|
        invariant 0 <= i <= |keys|
        invariant Walk(Table(), keys) == Walk(value, keys[i..])
      {
        if value.Group? && keys[i] in value.members {
          assert keys[i..][1..] == keys[i + 1..];
          value := value.members[keys[i]];
        } else {
          return path;
        }
        i := i + 1;
      }
      if value.Message? && params.Some? {
        r := Substitute(value.text, params.value);
      } else {
        r := Show(value);
      }
    }
  }
}
