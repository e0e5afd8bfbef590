/**
 * The JavaScript string operations the pipeline relies on: `trim`,
 * `toUpperCase`/`toLowerCase`, `startsWith`/`endsWith`, and the ordering
 * that `localeCompare` gives plain ASCII keys.
 */
module Text {

  /** The characters `String.prototype.trim` removes (ASCII white space,
      no-break space, line and paragraph separators, byte-order mark). */
  predicate IsSpace(c: char) {
    || c == ' ' || c == '\t' || c == '\n' || c == '\r'
    || c == '\U{000B}' || c == '\U{000C}' || c == '\U{00A0}'
    || c == '\U{2028}' || c == '\U{2029}' || c == '\U{FEFF}'
  }

  predicate AllSpace(s: string) {
    forall i :: 0 <= i < |s| ==> IsSpace(s[i])
  }

  function TrimStart(s: string): (r: string)
    ensures |r| <= |s| && r == s[|s| - |r|..]
    ensures AllSpace(s[..|s| - |r|])
    ensures r != [] ==> !IsSpace(r[0])
  {
    if s != [] && IsSpace(s[0]) then TrimStart(s[1..]) else s
  }

  function TrimEnd(s: string): (r: string)
    ensures |r| <= |s| && r == s[..|r|]
    ensures AllSpace(s[|r|..])
    ensures r != [] ==> !IsSpace(r[|r| - 1])
  {
    if s != [] && IsSpace(s[|s| - 1]) then TrimEnd(s[..|s| - 1]) else s
  }

  /** `s.trim()`: the text with leading and trailing white space removed. */
  function Trim(s: string): (r: string)
    ensures |r| <= |s|
    ensures r != [] ==> !IsSpace(r[0]) && !IsSpace(r[|r| - 1])
    ensures r == [] <==> AllSpace(s)
  {
    var t := TrimStart(s);
    var r := TrimEnd(t);
    assert r == [] ==> t == [];
    assert t == [] ==> s[..|s| - |t|] == s;
    r
  }

  /** Trimming is idempotent. */
  lemma TrimIdempotent(s: string)
    ensures Trim(Trim(s)) == Trim(s)
  {
    var r := Trim(s);
    assert TrimStart(r) == r;
    assert TrimEnd(r) == r;
  }

  lemma {:induction false} TrimStartSpacePrefix(w: string, v: string)
    requires AllSpace(w)
    ensures TrimStart(w + v) == TrimStart(v)
  {
    if w == [] {
      assert w + v == v;
    } else {
      var u := w[1..];
      assert (w + v)[0] == w[0] && IsSpace(w[0]);
      assert (w + v)[1..] == u + v;
      assert AllSpace(u) by { forall i | 0 <= i < |u| ensures IsSpace(u[i]) { assert u[i] == w[i + 1]; } }
      TrimStartSpacePrefix(u, v);
      assert TrimStart(w + v) == TrimStart(u + v);
    }
  }

  lemma {:induction false} TrimEndSpaceSuffix(v: string, w: string)
    requires AllSpace(w)
    ensures TrimEnd(v + w) == TrimEnd(v)
  {
    if w == [] {
      assert v + w == v;
    } else {
      var u := w[..|w| - 1];
      assert (v + w)[|v + w| - 1] == w[|w| - 1] && IsSpace(w[|w| - 1]);
      assert (v + w)[..|v + w| - 1] == v + u;
      assert AllSpace(u) by { forall i | 0 <= i < |u| ensures IsSpace(u[i]) { assert u[i] == w[i]; } }
      TrimEndSpaceSuffix(v, u);
      assert TrimEnd(v + w) == TrimEnd(v + u);
    }
  }

  lemma {:induction false} TrimStartAppend(v: string, w: string)
    requires !AllSpace(v)
    ensures TrimStart(v + w) == TrimStart(v) + w
  {
    assert v != [];
    if IsSpace(v[0]) {
      assert (v + w)[1..] == v[1..] + w;
      assert !AllSpace(v[1..]) by {
        var i :| 0 <= i < |v| && !IsSpace(v[i]);
        assert v[1..][i - 1] == v[i];
      }
      TrimStartAppend(v[1..], w);
    }
  }

  /** White space around a value never changes what `trim` yields. */
  lemma TrimPadded(w1: string, v: string, w2: string)
    requires AllSpace(w1) && AllSpace(w2)
    ensures Trim(w1 + v + w2) == Trim(v)
  {
    assert w1 + v + w2 == w1 + (v + w2);
    TrimStartSpacePrefix(w1, v + w2);
    if AllSpace(v) {
      assert AllSpace(v + w2) by {
        forall i | 0 <= i < |v + w2| ensures IsSpace((v + w2)[i]) {
          if i < |v| { assert (v + w2)[i] == v[i]; } else { assert (v + w2)[i] == w2[i - |v|]; }
        }
      }
      assert Trim(v + w2) == [];
    } else {
      TrimStartAppend(v, w2);
      TrimEndSpaceSuffix(TrimStart(v), w2);
    }
  }

  /** Text that neither starts nor ends with white space is its own trim. */
  lemma TrimUnpadded(s: string)
    requires s != [] && !IsSpace(s[0]) && !IsSpace(s[|s| - 1])
    ensures Trim(s) == s
  {
  }

  /** Applies `f` to every character. */
  function MapChars(s: string, f: char -> char): (r: string)
    ensures |r| == |s|
    ensures forall i :: 0 <= i < |s| ==> r[i] == f(s[i])
  {
    seq(|s|, i requires 0 <= i < |s| => f(s[i]))
  }

  function UpperChar(c: char): char {
    if 'a' <= c <= 'z' then (c as int - 32) as char else c
  }

  function LowerChar(c: char): char {
    if 'A' <= c <= 'Z' then (c as int + 32) as char else c
  }

  /** `s.toUpperCase()` on the ASCII letters. */
  function Upper(s: string): string {
    MapChars(s, UpperChar)
  }

  /** `s.toLowerCase()` on the ASCII letters. */
  function Lower(s: string): string {
    MapChars(s, LowerChar)
  }

  ghost predicate KeepsSpaces(f: char -> char) {
    forall c :: IsSpace(f(c)) == IsSpace(c)
  }

  lemma {:induction false} TrimStartMap(s: string, f: char -> char)
    requires KeepsSpaces(f)
    ensures TrimStart(MapChars(s, f)) == MapChars(TrimStart(s), f)
  {
    if s != [] && IsSpace(s[0]) {
      assert MapChars(s, f)[1..] == MapChars(s[1..], f);
      TrimStartMap(s[1..], f);
    }
  }

  lemma {:induction false} TrimEndMap(s: string, f: char -> char)
    requires KeepsSpaces(f)
    ensures TrimEnd(MapChars(s, f)) == MapChars(TrimEnd(s), f)
  {
    if s != [] && IsSpace(s[|s| - 1]) {
      assert MapChars(s, f)[..|s| - 1] == MapChars(s[..|s| - 1], f);
      TrimEndMap(s[..|s| - 1], f);
    }
  }

  lemma CaseMappingKeepsSpaces()
    ensures KeepsSpaces(UpperChar) && KeepsSpaces(LowerChar)
  {
    forall c: char ensures IsSpace(UpperChar(c)) == IsSpace(c) {
      if 'a' <= c <= 'z' { assert 65 <= UpperChar(c) as int <= 90; }
    }
    forall c: char ensures IsSpace(LowerChar(c)) == IsSpace(c) {
      if 'A' <= c <= 'Z' { assert 97 <= LowerChar(c) as int <= 122; }
    }
  }

  /** Changing letter case and trimming commute. */
  lemma TrimCaseCommutes(s: string)
    ensures Trim(Upper(s)) == Upper(Trim(s))
    ensures Trim(Lower(s)) == Lower(Trim(s))
  {
    CaseMappingKeepsSpaces();
    TrimStartMap(s, UpperChar);
    TrimEndMap(TrimStart(s), UpperChar);
    TrimStartMap(s, LowerChar);
    TrimEndMap(TrimStart(s), LowerChar);
  }

  /** Changing case forgets the original case: `Upper` and `Lower` agree on
      any text and its upper- or lower-cased form. */
  lemma CaseFolding(s: string)
    ensures Upper(Upper(s)) == Upper(s) && Lower(Upper(s)) == Lower(s)
    ensures Upper(Lower(s)) == Upper(s) && Lower(Lower(s)) == Lower(s)
  {
  }

  predicate StartsWith(s: string, prefix: string) {
    |prefix| <= |s| && s[..|prefix|] == prefix
  }

  predicate EndsWith(s: string, suffix: string) {
    |suffix| <= |s| && s[|s| - |suffix|..] == suffix
  }

  /** Code-unit lexicographic order: `a` sorts strictly before `b`. */
  predicate LexLess(a: string, b: string) {
    if a == [] then b != []
    else if b == [] then false
    else if a[0] != b[0] then a[0] < b[0]
    else LexLess(a[1..], b[1..])
  }

  lemma {:induction false} LexLessIrreflexive(a: string)
    ensures !LexLess(a, a)
  {
    if a != [] { LexLessIrreflexive(a[1..]); }
  }

  lemma {:induction false} LexLessTransitive(a: string, b: string, c: string)
    requires LexLess(a, b) && LexLess(b, c)
    ensures LexLess(a, c)
  {
    if a != [] && b != [] && c != [] && a[0] == b[0] && b[0] == c[0] {
      LexLessTransitive(a[1..], b[1..], c[1..]);
    }
  }

  /** Two different strings are always ordered one way or the other. */
  lemma {:induction false} LexLessTotal(a: string, b: string)
    requires a != b
    ensures LexLess(a, b) || LexLess(b, a)
  {
    if a != [] && b != [] && a[0] == b[0] {
      LexLessTotal(a[1..], b[1..]);
    }
  }
}
