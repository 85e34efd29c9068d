/** The string primitives the pages use: toLowerCase, includes, replace(/\s+/g, "-"),
    split and join, over strings as sequences of characters. */
module Text {

  predicate IsUpper(c: char) {
    'A' <= c <= 'Z'
  }

  /** Case folding of one character, restricted to the ASCII letters. */
  function LowerChar(c: char): (d: char)
    ensures !IsUpper(d)
    ensures IsUpper(c) ==> d as int == c as int + 32
    ensures !IsUpper(c) ==> d == c
  {
    if IsUpper(c) then (c as int + 32) as char else c
  }

  /** toLowerCase: every character folded, nothing added, removed or moved. */
  function ToLower(s: string): (r: string)
    ensures |r| == |s|
    ensures forall i :: 0 <= i < |s| ==> r[i] == LowerChar(s[i])
  {
    seq(|s|, i requires 0 <= i < |s| => LowerChar(s[i]))
  }

  predicate NoUpper(s: string) {
    forall c :: c in s ==> !IsUpper(c)
  }

  lemma ToLowerFolds(s: string)
    ensures NoUpper(ToLower(s))
    ensures ToLower(ToLower(s)) == ToLower(s)
    ensures NoUpper(s) ==> ToLower(s) == s
  {
    forall c | c in ToLower(s) ensures !IsUpper(c) {
      var i :| 0 <= i < |s| && ToLower(s)[i] == c;
    }
  }

  // ---------------------------------------------------------------------------
  // includes

  /** s.includes(sub): sub is a prefix of s or of one of its suffixes. */
  predicate Contains(s: string, sub: string)
    ensures sub <= s ==> Contains(s, sub)
    ensures Contains(s, sub) ==> |sub| <= |s|
    decreases |s|
  {
    sub <= s || (|s| > 0 && Contains(s[1..], sub))
  }

  /** Reference definition of containment: sub is the slice of s starting at i. */
  ghost predicate OccursAt(s: string, sub: string, i: int) {
    0 <= i && i + |sub| <= |s| && s[i..i + |sub|] == sub
  }

  lemma {:induction false} ContainsIffOccurs(s: string, sub: string)
    ensures Contains(s, sub) <==> exists i :: OccursAt(s, sub, i)
    decreases |s|
  {
    if sub <= s {
      assert OccursAt(s, sub, 0);
    } else if |s| > 0 {
      ContainsIffOccurs(s[1..], sub);
      if Contains(s[1..], sub) {
        var i :| OccursAt(s[1..], sub, i);
        assert s[1..][i..i + |sub|] == s[i + 1..i + 1 + |sub|];
        assert OccursAt(s, sub, i + 1);
      }
      if i :| OccursAt(s, sub, i) {
        assert i != 0;
        assert s[1..][i - 1..i - 1 + |sub|] == s[i..i + |sub|];
        assert OccursAt(s[1..], sub, i - 1);
      }
    }
  }

  /** The empty string is contained in every string. */
  lemma ContainsEmpty(s: string)
    ensures Contains(s, "")
  {
  }

  lemma ContainsItself(s: string)
    ensures Contains(s, s)
  {
  }

  /** Every character of a contained string is a character of the container. */
  lemma {:induction false} ContainsChars(s: string, sub: string, c: char)
    requires Contains(s, sub) && c in sub
    ensures c in s
    decreases |s|
  {
    if sub <= s {
      var k :| 0 <= k < |sub| && sub[k] == c;
      assert s[k] == c;
    } else {
      ContainsChars(s[1..], sub, c);
    }
  }

  /** A string lacking some character of sub does not contain sub. */
  lemma NotContainsMissing(s: string, sub: string, c: char)
    requires c in sub && c !in s
    ensures !Contains(s, sub)
  {
    if Contains(s, sub) {
      ContainsChars(s, sub, c);
    }
  }

  /** A string with no upper-case letter contains none that has one. */
  lemma ContainsNoUpper(s: string, sub: string)
    requires NoUpper(s) && !NoUpper(sub)
    ensures !Contains(s, sub)
  {
    var c :| c in sub && IsUpper(c);
    if Contains(s, sub) {
      ContainsChars(s, sub, c);
    }
  }

  /** Refutes containment on concrete text: at every offset where sub could start, its
      first or its last character is missing. */
  lemma {:induction false} NotContainsByEnds(s: string, sub: string)
    requires |sub| > 0
    requires forall i :: 0 <= i <= |s| - |sub| ==> s[i] != sub[0] || s[i + |sub| - 1] != sub[|sub| - 1]
    ensures !Contains(s, sub)
    decreases |s|
  {
    if |s| > 0 {
      if |sub| <= |s| {
        assert s[0] != sub[0] || s[|sub| - 1] != sub[|sub| - 1];
      }
      forall i | 0 <= i <= |s[1..]| - |sub|
        ensures s[1..][i] != sub[0] || s[1..][i + |sub| - 1] != sub[|sub| - 1]
      {
        assert s[1..][i] == s[i + 1] && s[1..][i + |sub| - 1] == s[i + 1 + |sub| - 1];
      }
      NotContainsByEnds(s[1..], sub);
    }
  }

  /** Array.some over a list of strings: some entry, lower-cased, includes q. */
  predicate AnyIncludes(items: seq<string>, q: string)
    ensures AnyIncludes(items, q) <==> exists i :: 0 <= i < |items| && Contains(ToLower(items[i]), q)
  {
    |items| > 0 && (Contains(ToLower(items[0]), q) || AnyIncludes(items[1..], q))
  }

  // ---------------------------------------------------------------------------
  // replace(/\s+/g, "-")

  /** The characters the \s class of JavaScript regular expressions matches. */
  predicate IsWhitespace(c: char) {
    || c == ' '
    || '\t' <= c <= '\r'
    || c == '\U{00A0}' || c == '\U{1680}'
    || '\U{2000}' <= c <= '\U{200A}'
    || c == '\U{2028}' || c == '\U{2029}' || c == '\U{202F}' || c == '\U{205F}'
    || c == '\U{3000}' || c == '\U{FEFF}'
  }

  predicate NoWhitespace(s: string) {
    forall c :: c in s ==> !IsWhitespace(c)
  }

  /** Drops the whitespace run at the front of s. */
  function SkipWhitespace(s: string): (r: string)
    ensures |r| <= |s| && r == s[|s| - |r|..]
    ensures r == [] || !IsWhitespace(r[0])
    ensures forall i :: 0 <= i < |s| - |r| ==> IsWhitespace(s[i])
  {
    if s != [] && IsWhitespace(s[0]) then SkipWhitespace(s[1..]) else s
  }

  /** replace(/\s+/g, "-"): every maximal run of whitespace becomes a single '-'. */
  function DashWhitespace(s: string): (r: string)
    ensures |r| <= |s|
    ensures forall c :: c in r ==> c == '-' || (c in s && !IsWhitespace(c))
    decreases |s|
  {
    if s == [] then []
    else if IsWhitespace(s[0]) then "-" + DashWhitespace(SkipWhitespace(s[1..]))
    else [s[0]] + DashWhitespace(s[1..])
  }

  /** Text without whitespace passes through unchanged. */
  lemma {:induction false} DashWhitespaceKeepsWords(a: string, rest: string)
    requires NoWhitespace(a)
    ensures DashWhitespace(a + rest) == a + DashWhitespace(rest)
    decreases |a|
  {
    if a != [] {
      assert (a + rest)[0] == a[0] && (a + rest)[1..] == a[1..] + rest;
      DashWhitespaceKeepsWords(a[1..], rest);
    } else {
      assert a + rest == rest;
    }
  }

  /** A whole whitespace run, however long, becomes one '-'. */
  lemma {:induction false} DashWhitespaceRun(w: string, rest: string)
    requires |w| > 0 && forall c :: c in w ==> IsWhitespace(c)
    requires rest == [] || !IsWhitespace(rest[0])
    ensures DashWhitespace(w + rest) == "-" + DashWhitespace(rest)
  {
    assert w[0] in w;
    assert (w + rest)[0] == w[0] && (w + rest)[1..] == w[1..] + rest;
    assert forall c :: c in w[1..] ==> c in w;
    SkipRun(w[1..], rest);
  }

  lemma {:induction false} SkipRun(w: string, rest: string)
    requires forall c :: c in w ==> IsWhitespace(c)
    requires rest == [] || !IsWhitespace(rest[0])
    ensures SkipWhitespace(w + rest) == rest
    decreases |w|
  {
    if w != [] {
      assert (w + rest)[0] == w[0] && (w + rest)[1..] == w[1..] + rest;
      SkipRun(w[1..], rest);
    } else {
      assert w + rest == rest;
    }
  }

  /** Each whitespace character replaced by '-' in place. */
  function DashEach(s: string): (r: string)
    ensures |r| == |s|
  {
    seq(|s|, i requires 0 <= i < |s| => if IsWhitespace(s[i]) then '-' else s[i])
  }

  predicate NoAdjacentWhitespace(s: string) {
    forall i :: 0 <= i < |s| - 1 ==> !IsWhitespace(s[i]) || !IsWhitespace(s[i + 1])
  }

  /** Where every whitespace run has length one, each whitespace character simply
      becomes '-'. */
  lemma {:induction false} DashIsolatedWhitespace(s: string)
    requires NoAdjacentWhitespace(s)
    ensures DashWhitespace(s) == DashEach(s)
  {
    if s != [] {
      DashIsolatedWhitespace(s[1..]);
      assert DashEach(s) == [DashEach(s)[0]] + DashEach(s[1..]);
      if IsWhitespace(s[0]) {
        if |s| > 1 {
          assert !IsWhitespace(s[1]);
        }
        assert SkipWhitespace(s[1..]) == s[1..];
      }
    }
  }

  /** The result has no whitespace left, so replacing again changes nothing. */
  lemma DashWhitespaceIdempotent(s: string)
    ensures NoWhitespace(DashWhitespace(s))
    ensures DashWhitespace(DashWhitespace(s)) == DashWhitespace(s)
  {
    var r := DashWhitespace(s);
    DashWhitespaceKeepsWords(r, []);
    assert r + [] == r;
  }

  // ---------------------------------------------------------------------------
  // split and join

  /** s.split(sep): the pieces between separators, empty pieces included. */
  function Split(s: string, sep: char): (parts: seq<string>)
    ensures |parts| >= 1
    ensures forall p :: p in parts ==> sep !in p
  {
    if s == [] then [[]]
    else
      var rest := Split(s[1..], sep);
      if s[0] == sep then [[]] + rest
      else [[s[0]] + rest[0]] + rest[1..]
  }

  /** parts.join(sep). */
  function Join(parts: seq<string>, sep: char): string {
    if |parts| == 0 then []
    else if |parts| == 1 then parts[0]
    else parts[0] + [sep] + Join(parts[1..], sep)
  }

  lemma {:induction false} JoinSplit(s: string, sep: char)
    ensures Join(Split(s, sep), sep) == s
  {
    if s != [] {
      var rest := Split(s[1..], sep);
      JoinSplit(s[1..], sep);
      if s[0] == sep {
        assert Split(s, sep) == [[]] + rest;
        assert Join(Split(s, sep), sep) == [] + [sep] + Join(rest, sep);
      } else {
        var parts := Split(s, sep);
        assert parts[0] == [s[0]] + rest[0] && parts[1..] == rest[1..];
        if |rest| == 1 {
          assert Join(parts, sep) == [s[0]] + rest[0];
        } else {
          assert Join(rest, sep) == rest[0] + [sep] + Join(rest[1..], sep);
          assert Join(parts, sep) == [s[0]] + rest[0] + [sep] + Join(rest[1..], sep);
        }
      }
    }
  }

  lemma {:induction false} SplitJoin(parts: seq<string>, sep: char)
    requires |parts| >= 1
    requires forall p :: p in parts ==> sep !in p
    ensures Split(Join(parts, sep), sep) == parts
    decreases |parts|, |parts[0]|
  {
    var s := Join(parts, sep);
    if parts[0] == [] {
      if |parts| > 1 {
        assert s == [sep] + Join(parts[1..], sep);
        assert s[1..] == Join(parts[1..], sep);
        SplitJoin(parts[1..], sep);
        assert parts == [[]] + parts[1..];
      }
    } else {
      var tail := [parts[0][1..]] + parts[1..];
      assert forall p :: p in tail ==> sep !in p by {
        assert forall c :: c in parts[0][1..] ==> c in parts[0];
      }
      assert Join(tail, sep) == s[1..] by {
        if |parts| == 1 {
        } else {
          assert tail[1..] == parts[1..];
        }
      }
      SplitJoin(tail, sep);
      assert s[0] == parts[0][0] by {
        if |parts| > 1 {
          assert s == parts[0] + [sep] + Join(parts[1..], sep);
        }
      }
      assert s[0] != sep by {
        assert parts[0][0] in parts[0];
      }
      assert [s[0]] + tail[0] == parts[0];
      assert parts == [parts[0]] + tail[1..];
    }
  }
}
