/** String helpers with the semantics of the JavaScript built-ins the source
    uses: `trim`/`trimEnd`, `split` on a one-character separator, `join`,
    `includes`, and ASCII lower-casing. */
module Strings {

  /** The characters JavaScript's `trim` family removes: WhiteSpace and
      LineTerminator of ECMA-262 (tab, vertical tab, form feed, space,
      no-break space, byte-order mark, the Unicode space separators,
      line feed, carriage return, line and paragraph separators). */
  predicate IsSpace(c: char) {
    || c == '\t' || c == '\U{000B}' || c == '\U{000C}' || c == ' '
    || c == '\U{00A0}' || c == '\U{FEFF}' || c == '\U{1680}'
    || ('\U{2000}' <= c <= '\U{200A}') || c == '\U{202F}' || c == '\U{205F}' || c == '\U{3000}'
    || c == '\n' || c == '\r' || c == '\U{2028}' || c == '\U{2029}'
  }

  /** `s.trimEnd()`: the longest prefix of `s` that does not end in white space. */
  function TrimEnd(s: string): (r: string)
    ensures |r| <= |s| && r == s[..|r|]
    ensures r == [] || !IsSpace(r[|r| - 1])
    ensures forall i :: |r| <= i < |s| ==> IsSpace(s[i])
  {
    if s != [] && IsSpace(s[|s| - 1]) then
      var r := TrimEnd(s[..|s| - 1]);
      TrimEndStep(s, s[..|s| - 1], r);
      r
    else s
  }

  /** One trailing white-space character more keeps `TrimEnd`'s shape. */
  lemma TrimEndStep(s: string, init: string, r: string)
    requires s != [] && IsSpace(s[|s| - 1]) && init == s[..|s| - 1]
    requires |r| <= |init| && r == init[..|r|]
    requires forall i :: |r| <= i < |init| ==> IsSpace(init[i])
    ensures r == s[..|r|]
    ensures forall i :: |r| <= i < |s| ==> IsSpace(s[i])
  {
    forall i | |r| <= i < |s|
      ensures IsSpace(s[i])
    {
      if i < |s| - 1 {
        assert s[i] == init[i];
      }
    }
  }

  /** `s.trimStart()`: the longest suffix of `s` that does not start with white space. */
  function TrimStart(s: string): (r: string)
    ensures |r| <= |s| && r == s[|s| - |r|..]
    ensures r == [] || !IsSpace(r[0])
    ensures forall i :: 0 <= i < |s| - |r| ==> IsSpace(s[i])
  {
    if s != [] && IsSpace(s[0]) then
      var r := TrimStart(s[1..]);
      TrimStartStep(s, r);
      r
    else s
  }

  /** One leading white-space character more keeps `TrimStart`'s shape. */
  lemma TrimStartStep(s: string, r: string)
    requires s != [] && IsSpace(s[0])
    requires |r| <= |s| - 1 && r == s[1..][|s| - 1 - |r|..]
    requires forall i :: 0 <= i < |s| - 1 - |r| ==> IsSpace(s[1..][i])
    ensures r == s[|s| - |r|..]
    ensures forall i :: 0 <= i < |s| - |r| ==> IsSpace(s[i])
  {
    assert s[1..][|s| - 1 - |r|..] == s[|s| - |r|..];
    forall i | 0 <= i < |s| - |r|
      ensures IsSpace(s[i])
    {
      if i > 0 {
        assert s[i] == s[1..][i - 1];
      }
    }
  }

  /** `s.trim()` */
  function Trim(s: string): string {
    TrimStart(TrimEnd(s))
  }

  /** A string that `trim` leaves alone. */
  predicate IsTrimmed(s: string) {
    s == [] || (!IsSpace(s[0]) && !IsSpace(s[|s| - 1]))
  }

  /** The result of `trim` is a contiguous piece of its input with no white
      space at either end. */
  lemma TrimShape(s: string)
    ensures IsTrimmed(Trim(s))
    ensures exists i :: 0 <= i && OccursAt(s, Trim(s), i)
  {
    var e := TrimEnd(s);
    var r := TrimStart(e);
    var i := |e| - |r|;
    assert r == s[i..i + |r|];
    assert OccursAt(s, r, i);
  }

  /** Trimming a trimmed string changes nothing, so `trim` is idempotent. */
  lemma TrimmedFixed(s: string)
    requires IsTrimmed(s)
    ensures Trim(s) == s
  {
  }

  lemma TrimIdempotent(s: string)
    ensures Trim(Trim(s)) == Trim(s)
  {
    TrimShape(s);
    TrimmedFixed(Trim(s));
  }

  /** A character the trimmed string holds occurs in the original. */
  lemma TrimKeepsOnly(s: string, c: char)
    requires c in Trim(s)
    ensures c in s
  {
    TrimShape(s);
    var i :| 0 <= i && OccursAt(s, Trim(s), i);
    OccursChar(s, Trim(s), i, c);
  }

  lemma OccursChar(s: string, sub: string, i: int, c: char)
    requires OccursAt(s, sub, i) && c in sub
    ensures c in s
  {
    var j :| 0 <= j < |sub| && sub[j] == c;
    assert s[i..i + |sub|][j] == s[i + j];
  }

  /** `s.split(sep)` for a one-character separator: the maximal pieces
      between separators, always at least one (`"".split(".")` is `[""]`). */
  function Split(s: string, sep: char): (r: seq<string>)
    ensures |r| >= 1
  {
    if s == [] then [[]]
    else if s[0] == sep then [[]] + Split(s[1..], sep)
    else
      var rest := Split(s[1..], sep);
      [[s[0]] + rest[0]] + rest[1..]
  }

  /** `parts.join(sep)` */
  function Join(parts: seq<string>, sep: string): string {
    if |parts| == 0 then []
    else if |parts| == 1 then parts[0]
    else parts[0] + sep + Join(parts[1..], sep)
  }

  /** No piece produced by `split` holds the separator. */
  lemma {:induction false} SplitPiecesFree(s: string, sep: char)
    ensures forall p :: p in Split(s, sep) ==> sep !in p
  {
    if s != [] {
      SplitPiecesFree(s[1..], sep);
      var rest := Split(s[1..], sep);
      if s[0] != sep {
        forall p | p in Split(s, sep) ensures sep !in p {
          if p != [s[0]] + rest[0] {
            assert p in rest[1..];
          }
        }
      }
    }
  }

  /** Joining the pieces of a split with the separator gives back the input. */
  lemma {:induction false} JoinSplit(s: string, sep: char)
    ensures Join(Split(s, sep), [sep]) == s
  {
    if s != [] {
      JoinSplit(s[1..], sep);
      var rest := Split(s[1..], sep);
      if s[0] == sep {
        assert Split(s, sep)[1..] == rest;
      } else {
        var parts := Split(s, sep);
        if |rest| == 1 {
          assert parts == [[s[0]] + rest[0]];
        } else {
          assert parts[1..] == rest[1..];
          assert Join(rest, [sep]) == rest[0] + [sep] + Join(rest[1..], [sep]);
        }
      }
    }
  }

  /** Splitting a join of separator-free pieces gives back the pieces. */
  lemma {:induction false} SplitJoin(parts: seq<string>, sep: char)
    requires |parts| >= 1
    requires forall p :: p in parts ==> sep !in p
    ensures Split(Join(parts, [sep]), sep) == parts
  {
    if |parts| == 1 {
      SplitNoSep(parts[0], sep);
    } else {
      SplitJoin(parts[1..], sep);
      SplitPrefix(parts[0], Join(parts[1..], [sep]), sep);
      assert Join(parts, [sep]) == parts[0] + ([sep] + Join(parts[1..], [sep]));
      assert [parts[0]] + parts[1..] == parts;
    }
  }

  lemma {:induction false} SplitNoSep(s: string, sep: char)
    requires sep !in s
    ensures Split(s, sep) == [s]
  {
    if s != [] {
      SplitNoSep(s[1..], sep);
      assert [s[0]] + s[1..] == s;
    }
  }

  /** A separator-free head followed by the separator splits off as one piece. */
  lemma {:induction false} SplitPrefix(head: string, tail: string, sep: char)
    requires sep !in head
    ensures Split(head + [sep] + tail, sep) == [head] + Split(tail, sep)
  {
    if head == [] {
      assert ([sep] + tail)[1..] == tail;
    } else {
      SplitPrefix(head[1..], tail, sep);
      assert (head + [sep] + tail)[0] == head[0];
      assert (head + [sep] + tail)[1..] == head[1..] + [sep] + tail;
      assert [head[0]] + head[1..] == head;
    }
  }

  /** Splitting at one separator splits the two sides independently. */
  lemma {:induction false} SplitAppend(a: string, tail: string, sep: char)
    ensures Split(a + [sep] + tail, sep) == Split(a, sep) + Split(tail, sep)
  {
    if a == [] {
      assert a + [sep] + tail == [sep] + tail;
      SplitConsSep(tail, sep);
    } else {
      var c, b := a[0], a[1..];
      var y := b + [sep] + tail;
      assert a + [sep] + tail == [c] + y;
      assert a == [c] + b;
      SplitAppend(b, tail, sep);
      SplitConsAppend(c, b, y, Split(tail, sep), sep);
    }
  }

  /** One character in front of both sides of `SplitAppend`. */
  lemma SplitConsAppend(c: char, b: string, y: string, t: seq<string>, sep: char)
    requires Split(y, sep) == Split(b, sep) + t
    ensures Split([c] + y, sep) == Split([c] + b, sep) + t
  {
    if c == sep {
      SplitConsSep(y, sep);
      SplitConsSep(b, sep);
      AppendAssoc([[]], Split(b, sep), t);
    } else {
      SplitConsOther(c, y, sep);
      SplitConsOther(c, b, sep);
      SplitHeadAppend(c, Split(b, sep), t);
    }
  }

  lemma AppendAssoc(x: seq<string>, y: seq<string>, z: seq<string>)
    ensures x + (y + z) == (x + y) + z
  {
  }

  /** A leading separator splits off an empty piece. */
  lemma SplitConsSep(s: string, sep: char)
    ensures Split([sep] + s, sep) == [[]] + Split(s, sep)
  {
    assert ([sep] + s)[0] == sep && ([sep] + s)[1..] == s;
  }

  /** Any other leading character joins the first piece. */
  lemma SplitConsOther(c: char, s: string, sep: char)
    requires c != sep
    ensures Split([c] + s, sep) == [[c] + Split(s, sep)[0]] + Split(s, sep)[1..]
  {
    assert ([c] + s)[0] == c && ([c] + s)[1..] == s;
  }

  lemma SplitHeadAppend(c: char, rest: seq<string>, t: seq<string>)
    requires |rest| >= 1
    ensures [[c] + (rest + t)[0]] + (rest + t)[1..] == [[c] + rest[0]] + rest[1..] + t
  {
    assert (rest + t)[0] == rest[0];
    assert (rest + t)[1..] == rest[1..] + t;
  }

  /** A separator-free string followed by the separator splits into itself
      and a final empty piece: the shape of a newline-terminated line. */
  lemma SplitLine(line: string, sep: char)
    requires sep !in line
    ensures Split(line + [sep], sep) == [line, []]
  {
    SplitPrefix(line, [], sep);
    assert line + [sep] + [] == line + [sep];
  }

  /** `sub` occurs in `s` starting at index `i`. */
  predicate OccursAt(s: string, sub: string, i: int) {
    0 <= i && i + |sub| <= |s| && s[i..i + |sub|] == sub
  }

  /** `s.includes(sub)` */
  predicate Contains(s: string, sub: string) {
    exists i | 0 <= i <= |s| - |sub| :: OccursAt(s, sub, i)
  }

  /** A string contains whatever its pieces contain. */
  /** An occurrence survives appending. */
  lemma ContainsExtend(a: string, b: string, sub: string)
    requires Contains(a, sub)
    ensures Contains(a + b, sub)
  {
    var i :| 0 <= i <= |a| - |sub| && OccursAt(a, sub, i);
    assert (a + b)[i..i + |sub|] == a[i..i + |sub|];
    assert OccursAt(a + b, sub, i);
  }

  lemma ContainsInfix(a: string, b: string, c: string, sub: string)
    requires Contains(b, sub)
    ensures Contains(a + b + c, sub)
  {
    var i :| 0 <= i <= |b| - |sub| && OccursAt(b, sub, i);
    assert (a + b + c)[|a| + i..|a| + i + |sub|] == sub;
    assert OccursAt(a + b + c, sub, |a| + i);
  }

  lemma ContainsSelf(s: string)
    ensures Contains(s, s)
  {
    assert OccursAt(s, s, 0);
  }

  /** Each piece of a join is contained in it. */
  lemma {:induction false} JoinContainsPart(parts: seq<string>, sep: string, k: nat)
    requires k < |parts|
    ensures Contains(Join(parts, sep), parts[k])
  {
    if |parts| == 1 {
      ContainsSelf(parts[0]);
    } else if k == 0 {
      ContainsSelf(parts[0]);
      ContainsInfix([], parts[0], sep + Join(parts[1..], sep), parts[0]);
      assert Join(parts, sep) == [] + parts[0] + (sep + Join(parts[1..], sep));
    } else {
      JoinContainsPart(parts[1..], sep, k - 1);
      ContainsInfix(parts[0] + sep, Join(parts[1..], sep), [], parts[k]);
      assert Join(parts, sep) == (parts[0] + sep) + Join(parts[1..], sep) + [];
    }
  }

  /** A page laid out as `a`, the pieces `xs` joined, `b`, the pieces `ys`
      joined, then `c` contains every piece of both lists. */
  lemma JoinedPartsShown(a: string, xs: seq<string>, b: string, ys: seq<string>, c: string)
    ensures forall i :: 0 <= i < |xs| ==> Contains(a + Join(xs, "") + b + Join(ys, "") + c, xs[i])
    ensures forall i :: 0 <= i < |ys| ==> Contains(a + Join(xs, "") + b + Join(ys, "") + c, ys[i])
  {
    var page := a + Join(xs, "") + b + Join(ys, "") + c;
    forall i | 0 <= i < |xs|
      ensures Contains(page, xs[i])
    {
      JoinContainsPart(xs, "", i);
      ContainsInfix(a, Join(xs, ""), [], xs[i]);
      assert a + Join(xs, "") + [] == a + Join(xs, "");
      ContainsExtend(a + Join(xs, ""), b, xs[i]);
      ContainsExtend(a + Join(xs, "") + b, Join(ys, ""), xs[i]);
      ContainsExtend(a + Join(xs, "") + b + Join(ys, ""), c, xs[i]);
    }
    forall i | 0 <= i < |ys|
      ensures Contains(page, ys[i])
    {
      JoinContainsPart(ys, "", i);
      ContainsInfix(a + Join(xs, "") + b, Join(ys, ""), c, ys[i]);
    }
  }

  // ---------------------------------------------------------------------
  // Decimal numbers: `${n}`, and the index keys of strings and arrays

  function Digit(d: nat): char
    requires d < 10
  {
    (48 + d) as char
  }

  /** `${n}` for a non-negative integer. */
  function Decimal(n: nat): (r: string)
    ensures r != []
    ensures forall i :: 0 <= i < |r| ==> '0' <= r[i] <= '9'
    decreases n
  {
    if n < 10 then [Digit(n)] else Decimal(n / 10) + [Digit(n % 10)]
  }

  /** The number a string of decimal digits denotes. */
  function DecimalValue(s: string): nat
    requires forall i :: 0 <= i < |s| ==> '0' <= s[i] <= '9'
    decreases |s|
  {
    if s == [] then 0 else DecimalValue(s[..|s| - 1]) * 10 + (s[|s| - 1] as int - 48)
  }

  lemma {:induction false} DecimalRoundTrip(n: nat)
    ensures DecimalValue(Decimal(n)) == n
    decreases n
  {
    if n >= 10 {
      var s := Decimal(n);
      assert s[..|s| - 1] == Decimal(n / 10);
      DecimalRoundTrip(n / 10);
    }
  }

  /** A printed number never spells a name that starts with a non-digit. */
  lemma DecimalNotName(n: nat, name: string)
    requires name != [] && !('0' <= name[0] <= '9')
    ensures Decimal(n) != name
  {
    assert '0' <= Decimal(n)[0] <= '9';
  }

  /** Different numbers print differently. */
  lemma DecimalInjective()
    ensures forall i: nat, j: nat :: Decimal(i) == Decimal(j) ==> i == j
  {
    forall i: nat, j: nat | Decimal(i) == Decimal(j)
      ensures i == j
    {
      DecimalRoundTrip(i);
      DecimalRoundTrip(j);
    }
  }

  /** ASCII lower-casing; JavaScript's case-insensitive regular expressions
      (without the `u` flag) never fold a non-ASCII character onto an ASCII
      one, so for ASCII patterns this is exact. */
  function Lower(c: char): char {
    if 'A' <= c <= 'Z' then (c as int + 32) as char else c
  }

  function LowerStr(s: string): (r: string)
    ensures |r| == |s|
    ensures forall i :: 0 <= i < |s| ==> r[i] == Lower(s[i])
  {
    if s == [] then [] else [Lower(s[0])] + LowerStr(s[1..])
  }

  /** Equal up to ASCII case. */
  predicate EqualIgnoringCase(a: string, b: string) {
    |a| == |b| && forall i :: 0 <= i < |a| ==> Lower(a[i]) == Lower(b[i])
  }
}
