/**
 * The Python string operations the back end relies on: `str.lower`, `str.strip`,
 * `str.split`, `in` on strings, `str.join`, integer formatting, and the regex
 * word boundary `\b`. Case mapping and the classes `\w` and `\d` are the ASCII
 * ones; `IsSpace` is Python's full `str.isspace` set.
 */
module Text {

  /** `str.isspace()`, which is also what the regex class `\s` matches. */
  predicate IsSpace(c: char) {
    c == ' ' || '\t' <= c <= '\r' || '\U{1C}' <= c <= '\U{1F}' || c == '\U{85}' || c == '\U{A0}'
    || c == '\U{1680}' || '\U{2000}' <= c <= '\U{200A}' || c == '\U{2028}' || c == '\U{2029}'
    || c == '\U{202F}' || c == '\U{205F}' || c == '\U{3000}'
  }

  predicate IsDigit(c: char) { '0' <= c <= '9' }
  predicate IsUpper(c: char) { 'A' <= c <= 'Z' }
  predicate IsLower(c: char) { 'a' <= c <= 'z' }
  predicate IsLetter(c: char) { IsUpper(c) || IsLower(c) }

  /** The regex class `\w`. */
  predicate IsWordChar(c: char) { IsLetter(c) || IsDigit(c) || c == '_' }

  function LowerChar(c: char): char {
    if IsUpper(c) then (c as int + 32) as char else c
  }

  function UpperChar(c: char): char {
    if IsLower(c) then (c as int - 32) as char else c
  }

  /** `s.lower()`. */
  function Lower(s: string): (r: string)
    ensures |r| == |s|
    ensures forall i :: 0 <= i < |s| ==> r[i] == LowerChar(s[i])
  {
    seq(|s|, i requires 0 <= i < |s| => LowerChar(s[i]))
  }

  /** No upper-case letter left. */
  predicate IsLowered(s: string) {
    forall i :: 0 <= i < |s| ==> !IsUpper(s[i])
  }

  lemma LowerIsLowered(s: string)
    ensures IsLowered(Lower(s))
  {
  }

  lemma LowerOfLowered(s: string)
    requires IsLowered(s)
    ensures Lower(s) == s
  {
  }

  lemma LowerAppend(a: string, b: string)
    ensures Lower(a + b) == Lower(a) + Lower(b)
  {
  }

  /** Length of the longest prefix of `s` made of characters satisfying `p`. */
  function SpanLen(s: string, p: char -> bool): (n: nat)
    ensures n <= |s|
    ensures forall i {:trigger p(s[i])} :: 0 <= i < n ==> p(s[i])
    ensures n < |s| ==> !p(s[n])
    ensures s != [] && p(s[0]) ==> n >= 1
  {
    if s == [] || !p(s[0]) then 0 else 1 + SpanLen(s[1..], p)
  }

  /** Length of the longest suffix of `s` made of characters satisfying `p`. */
  function TrailLen(s: string, p: char -> bool): (n: nat)
    ensures n <= |s|
    ensures forall i {:trigger p(s[i])} :: |s| - n <= i < |s| ==> p(s[i])
    ensures n < |s| ==> !p(s[|s| - n - 1])
  {
    if s == [] || !p(s[|s| - 1]) then 0 else 1 + TrailLen(s[..|s| - 1], p)
  }

  /** `SpanLen` is pinned down by where the leading run stops. */
  lemma SpanLenIs(s: string, p: char -> bool, k: nat)
    requires k <= |s| && (forall i :: 0 <= i < k ==> p(s[i])) && (k < |s| ==> !p(s[k]))
    ensures SpanLen(s, p) == k
  {
  }

  /** `s` with leading and trailing characters satisfying `p` removed. */
  function Trim(s: string, p: char -> bool): (r: string)
  {
    var lo := SpanLen(s, p);
    var hi := |s| - TrailLen(s, p);
    if lo < hi then s[lo..hi] else []
  }

  /** `s.strip()`. */
  function Strip(s: string): string {
    Trim(s, IsSpace)
  }

  /** `s.strip(chars)`: characters of the set, not a prefix string. */
  function StripChars(s: string, chars: set<char>): string {
    Trim(s, InChars(chars))
  }

  /** Membership in `chars`, as a predicate on characters. */
  function InChars(chars: set<char>): char -> bool {
    c => c in chars
  }

  /** `Trim(s, p)` is a slice of `s`, everything cut satisfies `p`, and its ends do not. */
  lemma TrimSlice(s: string, p: char -> bool) returns (lo: nat, hi: nat)
    ensures lo <= hi <= |s| && Trim(s, p) == s[lo..hi]
    ensures forall i :: 0 <= i < lo ==> p(s[i])
    ensures forall i :: hi <= i < |s| ==> p(s[i])
    ensures lo < hi ==> !p(s[lo]) && !p(s[hi - 1])
  {
    lo := SpanLen(s, p);
    hi := |s| - TrailLen(s, p);
    if hi <= lo {
      hi := lo;
    }
  }

  /** Trimming twice is trimming once. */
  lemma TrimIdempotent(s: string, p: char -> bool)
    ensures Trim(Trim(s, p), p) == Trim(s, p)
  {
    var lo, hi := TrimSlice(s, p);
    var t := Trim(s, p);
    if t != [] {
      assert !p(t[0]) && !p(t[|t| - 1]);
      assert SpanLen(t, p) == 0;
      assert TrailLen(t, p) == 0;
    }
  }

  /** Text whose two ends do not satisfy `p` is left as it is. */
  lemma TrimUntouched(s: string, p: char -> bool)
    requires s != [] && !p(s[0]) && !p(s[|s| - 1])
    ensures Trim(s, p) == s
  {
  }

  /** `p` holds at exactly the positions of `s` where `q` holds in `t`. */
  predicate SamePattern(s: string, p: char -> bool, t: string, q: char -> bool) {
    |s| == |t| && forall i :: 0 <= i < |s| ==> p(s[i]) == q(t[i])
  }

  lemma SamePatternSlice(s: string, p: char -> bool, t: string, q: char -> bool, lo: nat, hi: nat)
    requires SamePattern(s, p, t, q) && lo <= hi <= |s|
    ensures SamePattern(s[lo..hi], p, t[lo..hi], q)
  {
    forall i | 0 <= i < hi - lo ensures p(s[lo..hi][i]) == q(t[lo..hi][i]) {
      assert s[lo..hi][i] == s[lo + i] && t[lo..hi][i] == t[lo + i];
    }
  }

  /** Spans depend only on which positions satisfy the predicate. */
  lemma {:induction false} SpansAgree(s: string, p: char -> bool, t: string, q: char -> bool)
    requires SamePattern(s, p, t, q)
    ensures SpanLen(s, p) == SpanLen(t, q) && TrailLen(s, p) == TrailLen(t, q)
  {
    if s != [] {
      SamePatternSlice(s, p, t, q, 1, |s|);
      SpansAgree(s[1..], p, t[1..], q);
      SamePatternSlice(s, p, t, q, 0, |s| - 1);
      SpansAgree(s[..|s| - 1], p, t[..|t| - 1], q);
    }
  }

  /** Two strings with the same pattern of `p`-positions are trimmed at the same bounds. */
  lemma TrimAgree(s: string, p: char -> bool, t: string, q: char -> bool) returns (lo: nat, hi: nat)
    requires SamePattern(s, p, t, q)
    ensures lo <= hi <= |s| && Trim(s, p) == s[lo..hi] && Trim(t, q) == t[lo..hi]
  {
    SpansAgree(s, p, t, q);
    lo := SpanLen(s, p);
    hi := if lo < |s| - TrailLen(s, p) then |s| - TrailLen(s, p) else lo;
  }

  lemma LowerCharSpace(c: char)
    ensures IsSpace(LowerChar(c)) == IsSpace(c)
  {
    if IsUpper(c) {
      assert IsLower(LowerChar(c));
    }
  }

  /** Lower-casing commutes with stripping whitespace: no white-space character is a letter. */
  lemma StripLower(s: string)
    ensures Strip(Lower(s)) == Lower(Strip(s))
  {
    var l := Lower(s);
    forall i | 0 <= i < |s| ensures IsSpace(s[i]) == IsSpace(l[i]) {
      LowerCharSpace(s[i]);
    }
    assert SamePattern(s, IsSpace, l, IsSpace);
    var lo, hi := TrimAgree(s, IsSpace, l, IsSpace);
    assert Lower(s[lo..hi]) == l[lo..hi];
  }

  /** `s[i..i + |sub|] == sub`. */
  predicate OccursAt(s: string, sub: string, i: int) {
    0 <= i && i + |sub| <= |s| && s[i..i + |sub|] == sub
  }

  /** `s.find(sub, from)`: the first occurrence at or after `from`, or -1. */
  function IndexOf(s: string, sub: string, from: nat): (r: int)
    ensures r == -1 || (from <= r && OccursAt(s, sub, r))
    ensures forall i :: from <= i && (r == -1 || i < r) ==> !OccursAt(s, sub, i)
    decreases |s| + 1 - from
  {
    if from + |sub| > |s| then -1
    else if s[from..from + |sub|] == sub then from
    else IndexOf(s, sub, from + 1)
  }

  /** A text missing one character of `sub` does not contain `sub`. */
  lemma AbsentChar(s: string, sub: string, k: nat)
    requires k < |sub| && sub[k] !in s
    ensures !Contains(s, sub)
  {
    forall i | 0 <= i && i + |sub| <= |s| ensures !OccursAt(s, sub, i) {
      assert s[i..i + |sub|][k] == s[i + k];
    }
  }

  /** The end of the longest run of characters satisfying `f` that starts at `p`. */
  function RunEnd(s: string, p: nat, f: char -> bool): (e: nat)
    requires p <= |s|
    ensures p <= e <= |s|
    ensures forall i {:trigger f(s[i])} :: p <= i < e ==> f(s[i])
    ensures e < |s| ==> !f(s[e])
    decreases |s| - p
  {
    if p == |s| || !f(s[p]) then p else RunEnd(s, p + 1, f)
  }

  /** A run that holds up to `j` does not stop before `j`. */
  lemma RunEndAtLeast(s: string, p: nat, f: char -> bool, j: nat)
    requires p <= j <= |s|
    requires forall k :: p <= k < j ==> f(s[k])
    ensures RunEnd(s, p, f) >= j
  {
  }

  /** An occurrence at `j` with none between `from` and `j` is the one `IndexOf` finds. */
  lemma IndexOfFirst(s: string, sub: string, from: nat, j: nat)
    requires from <= j && OccursAt(s, sub, j)
    requires forall i :: from <= i < j ==> !OccursAt(s, sub, i)
    ensures IndexOf(s, sub, from) == j
  {
  }

  /** `sub in s`. */
  predicate Contains(s: string, sub: string) {
    IndexOf(s, sub, 0) >= 0
  }

  lemma ContainsAt(s: string, sub: string, i: int)
    requires OccursAt(s, sub, i)
    ensures Contains(s, sub)
  {
  }

  /** The empty string occurs in every string. */
  lemma ContainsEmpty(s: string)
    ensures Contains(s, "")
  {
    assert OccursAt(s, "", 0);
  }

  /** `s.split(sep, 1)`. */
  function SplitOnce(s: string, sep: string): (parts: seq<string>)
    requires sep != []
    ensures 1 <= |parts| <= 2
    ensures |parts| == 1 <==> !Contains(s, sep)
    ensures |parts| == 1 ==> parts[0] == s
    ensures |parts| == 2 ==> s == parts[0] + sep + parts[1] && !Contains(parts[0], sep)
  {
    var i := IndexOf(s, sep, 0);
    if i < 0 then [s]
    else
      var parts := [s[..i], s[i + |sep|..]];
      assert s == parts[0] + sep + parts[1];
      PrefixBeforeFirst(s, sep, i);
      parts
  }

  /** The part of `s` before the first occurrence of `sub` does not contain `sub`. */
  lemma PrefixBeforeFirst(s: string, sub: string, i: int)
    requires sub != [] && i == IndexOf(s, sub, 0) && i >= 0
    ensures !Contains(s[..i], sub)
  {
    if Contains(s[..i], sub) {
      var j := IndexOf(s[..i], sub, 0);
      assert s[..i][j..j + |sub|] == s[j..j + |sub|];
      assert OccursAt(s, sub, j);
    }
  }

  /** `s.split(sep)`. */
  function SplitAll(s: string, sep: string): (parts: seq<string>)
    requires sep != []
    ensures 1 <= |parts|
    ensures |parts| == 1 <==> !Contains(s, sep)
    ensures !Contains(parts[0], sep)
    ensures parts[0] <= s
    decreases |s|
  {
    var first := SplitOnce(s, sep);
    if |first| == 1 then [s] else [first[0]] + SplitAll(first[1], sep)
  }

  /** With a separator present, `s.split(sep)[1]` is the text between its first and second occurrences. */
  lemma SplitAllSecond(s: string, sep: string)
    requires sep != [] && Contains(s, sep)
    ensures var parts := SplitAll(s, sep);
      |parts| >= 2 && parts[0] + sep + parts[1] <= s && !Contains(parts[0], sep) && !Contains(parts[1], sep)
  {
    var first := SplitOnce(s, sep);
    var rest := SplitAll(first[1], sep);
    assert SplitAll(s, sep) == [first[0]] + rest;
    var k := |first[0] + sep|;
    assert s[k..] == first[1];
    assert (first[0] + sep + rest[0])[k..] == rest[0];
  }

  /** `s.startswith(prefix)`. */
  predicate StartsWith(s: string, prefix: string) {
    prefix <= s
  }

  /** `s.split()`: the maximal runs of non-white-space characters. */
  function Words(s: string): seq<string>
    decreases |s|
  {
    if s == [] then []
    else if IsSpace(s[0]) then Words(s[1..])
    else
      var n := SpanLen(s, NotSpace);
      [s[..n]] + Words(s[n..])
  }

  predicate NotSpace(c: char) {
    !IsSpace(c)
  }

  /** An occurrence inside an occurrence is an occurrence. */
  lemma OccursWithin(t: string, q: string, i: int, w: string, k: int)
    requires OccursAt(t, q, i) && OccursAt(q, w, k)
    ensures OccursAt(t, w, i + k)
  {
    forall m | 0 <= m < |w| ensures t[i + k + m] == w[m] {
      assert t[i..i + |q|][k + m] == q[k + m];
      assert q[k..k + |w|][m] == w[m];
    }
    assert t[i + k..i + k + |w|] == w;
  }

  /** A slice of `s` occurs in `s` where it starts. */
  lemma SliceOccurs(s: string, lo: nat, hi: nat)
    requires lo <= hi <= |s|
    ensures OccursAt(s, s[lo..hi], lo)
  {
  }

  /** Every word of `s.split()` occurs in `s`. */
  lemma {:induction false} WordsOccur(s: string)
    ensures forall w :: w in Words(s) ==> exists i :: OccursAt(s, w, i)
    decreases |s|
  {
    if s != [] {
      var k := if IsSpace(s[0]) then 1 else SpanLen(s, NotSpace);
      var rest := s[k..];
      WordsOccur(rest);
      SliceOccurs(s, k, |s|);
      forall w | w in Words(s) ensures exists i :: OccursAt(s, w, i) {
        if !IsSpace(s[0]) && w == s[..k] {
          SliceOccurs(s, 0, k);
        } else {
          assert w in Words(rest);
          var i :| OccursAt(rest, w, i);
          OccursWithin(s, rest, k, w, i);
        }
      }
    }
  }

  /** `sep.join(parts)`. */
  function Join(parts: seq<string>, sep: string): string {
    if parts == [] then ""
    else if |parts| == 1 then parts[0]
    else parts[0] + sep + Join(parts[1..], sep)
  }

  function DigitChar(d: nat): char
    requires d < 10
  {
    "0123456789"[d]
  }

  /** `str(n)` for a natural number. */
  function NatToString(n: nat): (s: string)
    ensures |s| >= 1
    ensures forall i :: 0 <= i < |s| ==> IsDigit(s[i])
  {
    if n < 10 then [DigitChar(n)] else NatToString(n / 10) + [DigitChar(n % 10)]
  }

  /** `str(i)` for an integer. */
  function IntToString(i: int): string {
    if i < 0 then "-" + NatToString(-i) else NatToString(i)
  }

  function DigitValue(c: char): nat
    requires IsDigit(c)
  {
    c as int - '0' as int
  }

  /** The value of a string of ASCII digits, `int(s)`. */
  function DigitsValue(s: string): nat
    requires forall i :: 0 <= i < |s| ==> IsDigit(s[i])
  {
    if s == [] then 0 else 10 * DigitsValue(s[..|s| - 1]) + DigitValue(s[|s| - 1])
  }

  lemma {:induction false} DigitsValueOfNat(n: nat)
    ensures DigitsValue(NatToString(n)) == n
  {
    var s := NatToString(n);
    if n >= 10 {
      DigitsValueOfNat(n / 10);
      assert s[..|s| - 1] == NatToString(n / 10);
    }
  }

  /** A word character at index `i` of `s`. */
  predicate WordCharAt(s: string, i: int) {
    0 <= i < |s| && IsWordChar(s[i])
  }

  /** The regex assertion `\b` at position `i`, between `s[i - 1]` and `s[i]`. */
  predicate Boundary(s: string, i: int) {
    WordCharAt(s, i - 1) != WordCharAt(s, i)
  }

  /** The regex `\bw\b` (with `w` escaped) matches at position `i`. */
  predicate WordAt(s: string, w: string, i: int) {
    OccursAt(s, w, i) && Boundary(s, i) && Boundary(s, i + |w|)
  }

  /** First position at or after `from` where `\bw\b` matches, or -1. */
  function FindWord(s: string, w: string, from: nat): (r: int)
    ensures r == -1 || (from <= r && WordAt(s, w, r))
    ensures forall i :: from <= i && (r == -1 || i < r) ==> !WordAt(s, w, i)
    decreases |s| + 1 - from
  {
    if from + |w| > |s| then -1
    else if WordAt(s, w, from) then from
    else FindWord(s, w, from + 1)
  }

  /** `re.search(r'\b' + re.escape(w) + r'\b', s)` succeeds. */
  predicate HasWord(s: string, w: string) {
    FindWord(s, w, 0) >= 0
  }

  lemma HasWordAt(s: string, w: string, i: int)
    requires WordAt(s, w, i)
    ensures HasWord(s, w)
  {
  }

  /** The look-ahead `\s*-?script` matches at position `j`. */
  predicate ScriptFollows(s: string, j: nat)
  {
    j <= |s| &&
    var k := j + SpanLen(s[j..], IsSpace);
    var k' := if k < |s| && s[k] == '-' then k + 1 else k;
    OccursAt(s, "script", k')
  }

  /** The regex `\bjava\b(?!\s*-?script)` matches at position `i`. */
  predicate JavaAt(s: string, i: int) {
    WordAt(s, "java", i) && !ScriptFollows(s, i + 4)
  }

  function FindJava(s: string, from: nat): (r: int)
    ensures r == -1 || (from <= r && JavaAt(s, r))
    ensures forall i :: from <= i && (r == -1 || i < r) ==> !JavaAt(s, i)
    decreases |s| + 1 - from
  {
    if from + 4 > |s| then -1
    else if JavaAt(s, from) then from
    else FindJava(s, from + 1)
  }

  /** `re.search(r'\bjava\b(?!\s*-?script)', s)` succeeds. */
  predicate HasJava(s: string) {
    FindJava(s, 0) >= 0
  }

  /** A whole-word occurrence of "java" not followed by "script" is a whole-word "java". */
  lemma JavaIsWord(s: string)
    ensures HasJava(s) ==> HasWord(s, "java")
  {
    if HasJava(s) {
      HasWordAt(s, "java", FindJava(s, 0));
    }
  }

  /** Python's `<` on strings: lexicographic by code point, a proper prefix first. */
  predicate LexLess(a: string, b: string) {
    if b == [] then false
    else if a == [] then true
    else if a[0] != b[0] then a[0] < b[0]
    else LexLess(a[1..], b[1..])
  }

  lemma {:induction false} LexIrreflexive(a: string)
    ensures !LexLess(a, a)
  {
    if a != [] {
      LexIrreflexive(a[1..]);
    }
  }

  lemma {:induction false} LexTransitive(a: string, b: string, c: string)
    requires LexLess(a, b) && LexLess(b, c)
    ensures LexLess(a, c)
  {
    if a != [] && a[0] == b[0] && b[0] == c[0] {
      LexTransitive(a[1..], b[1..], c[1..]);
    }
  }

  lemma {:induction false} LexTotal(a: string, b: string)
    requires a != b
    ensures LexLess(a, b) || LexLess(b, a)
  {
    if a != [] && b != [] && a[0] == b[0] {
      assert a == [a[0]] + a[1..] && b == [b[0]] + b[1..];
      LexTotal(a[1..], b[1..]);
    }
  }
}
