/**
 * The resume parser: text extraction from PDF pages and DOCX paragraphs (the
 * readers themselves are inputs), and `parse_resume_text`, which fills the
 * contact fields from three regular expressions and the recognised entities,
 * scans the skill vocabulary, and splits the lines into sections with a small
 * state machine.
 *
 * Each regular expression is modelled by a function giving the end of the match
 * Python's backtracking engine reports at a start position, and a scanner for the
 * leftmost start, which is what `re.search` returns.
 */
module ResumeParser {
  import opened Wrappers
  import opened Text

  // ---------------------------------------------------------------- extraction

  /** `extract_text_from_pdf`: the pages' texts in order, a page without text adding nothing. */
  function PdfText(pages: seq<Option<string>>): string {
    if pages == [] then "" else PdfText(pages[..|pages| - 1]) + pages[|pages| - 1].GetOr("")
  }

  method ExtractTextFromPdf(pages: seq<Option<string>>) returns (text: string)
    ensures text == PdfText(pages)
  {
    text := "";
    for i := 0 to |pages|
      invariant text == PdfText(pages[..i])
    {
      assert pages[..i + 1][..i] == pages[..i];
      text := text + pages[i].GetOr("");
    }
    assert pages[..|pages|] == pages;
  }

  /** The text of page `k` sits in the document text right after the text of the pages before it. */
  lemma {:induction false} PdfPageAt(pages: seq<Option<string>>, k: nat)
    requires k < |pages|
    ensures OccursAt(PdfText(pages), pages[k].GetOr(""), |PdfText(pages[..k])|)
    ensures PdfText(pages[..k + 1]) <= PdfText(pages)
    decreases |pages|
  {
    var n := |pages| - 1;
    assert pages[..n + 1] == pages;
    if k < n {
      PdfPageAt(pages[..n], k);
      assert pages[..n][..k] == pages[..k];
      assert pages[..n][..k + 1] == pages[..k + 1];
      var t := PdfText(pages[..n]);
      assert PdfText(pages) == t + pages[n].GetOr("");
      assert PdfText(pages)[..|t|] == t;
    }
  }

  /** `extract_text_from_docx`: the paragraphs joined by newlines. */
  method ExtractTextFromDocx(paragraphs: seq<string>) returns (text: string)
    ensures text == Join(paragraphs, "\n")
  {
    var parts: seq<string> := [];
    for i := 0 to |paragraphs|
      invariant parts == paragraphs[..i]
    {
      parts := parts + [paragraphs[i]];
    }
    assert parts == paragraphs;
    text := Join(parts, "\n");
  }

  /** Splitting the DOCX text on newlines gives back paragraphs that hold no newline themselves. */
  lemma {:induction false} DocxLinesRoundTrip(paragraphs: seq<string>)
    requires paragraphs != []
    requires forall k :: 0 <= k < |paragraphs| ==> '\n' !in paragraphs[k]
    ensures SplitAll(Join(paragraphs, "\n"), "\n") == paragraphs
    decreases |paragraphs|
  {
    var p := paragraphs[0];
    var s := Join(paragraphs, "\n");
    forall i | 0 <= i < |p| ensures !OccursAt(p, "\n", i) {
      assert p[i..i + 1][0] == p[i];
    }
    if |paragraphs| == 1 {
      assert s == p;
    } else {
      var rest := Join(paragraphs[1..], "\n");
      assert s == p + "\n" + rest;
      forall i | 0 <= i < |p| ensures !OccursAt(s, "\n", i) {
        assert s[i..i + 1][0] == s[i] == p[i];
      }
      assert OccursAt(s, "\n", |p|);
      IndexOfFirst(s, "\n", 0, |p|);
      assert SplitOnce(s, "\n") == [p, rest];
      DocxLinesRoundTrip(paragraphs[1..]);
    }
  }

  // ---------------------------------------------------------------- email

  /** The class `[\w\.-]`. */
  predicate EmailChar(c: char) {
    IsWordChar(c) || c == '.' || c == '-'
  }

  /** `s[i..j]` matches `[\w\.-]+@[\w\.-]+` with its `@` at `m`. */
  predicate EmailSpan(s: string, i: int, m: int, j: int) {
    && 0 <= i < m && m + 1 < j <= |s| && s[m] == '@'
    && (forall k :: i <= k < m ==> EmailChar(s[k]))
    && (forall k :: m < k < j ==> EmailChar(s[k]))
  }

  /** The end of the match the email pattern finds at `i`: the run of name characters must stop at an `@`, and the second run is taken whole. */
  function EmailAt(s: string, i: nat): (r: Option<nat>)
    ensures r.Some? ==> i < r.value <= |s|
  {
    if i < |s| && EmailChar(s[i]) then
      var m := RunEnd(s, i, EmailChar);
      if m + 1 < |s| && s[m] == '@' && EmailChar(s[m + 1]) then Some(RunEnd(s, m + 1, EmailChar)) else None
    else None
  }

  /** A match at `i` exists exactly when `EmailAt` finds one, and `EmailAt` finds the longest. */
  lemma EmailAtSpec(s: string, i: nat)
    ensures EmailAt(s, i).Some? ==> EmailSpan(s, i, RunEnd(s, i, EmailChar), EmailAt(s, i).value)
    ensures forall m, j :: EmailSpan(s, i, m, j) ==> EmailAt(s, i).Some? && j <= EmailAt(s, i).value
  {
    forall m, j | EmailSpan(s, i, m, j) ensures EmailAt(s, i).Some? && j <= EmailAt(s, i).value {
      assert !EmailChar(s[m]);
      RunEndAtLeast(s, i, EmailChar, m);
      RunEndAtLeast(s, m + 1, EmailChar, j);
    }
  }

  /** The leftmost start at or after `from` where the email pattern matches, or -1. */
  function FirstEmail(s: string, from: nat): (r: int)
    ensures r == -1 || (from <= r < |s| && EmailAt(s, r).Some?)
    ensures forall i: nat :: from <= i && (r == -1 || i < r) ==> EmailAt(s, i).None?
    decreases |s| - from
  {
    if from >= |s| then -1
    else if EmailAt(s, from).Some? then from
    else FirstEmail(s, from + 1)
  }

  /** `re.search(email_pattern, text).group(0)`, or "" when there is no match. */
  function Email(s: string): string {
    var i := FirstEmail(s, 0);
    if i < 0 then "" else s[i..EmailAt(s, i).value]
  }

  /** The email is empty exactly when nothing matches; otherwise it is the leftmost, longest match. */
  lemma EmailSpec(s: string)
    ensures Email(s) == "" <==> forall i, m, j :: !EmailSpan(s, i, m, j)
    ensures Email(s) != "" ==>
      var i := FirstEmail(s, 0);
      && 0 <= i && i + |Email(s)| <= |s| && Email(s) == s[i..i + |Email(s)|]
      && EmailSpan(s, i, RunEnd(s, i, EmailChar), i + |Email(s)|)
      && (forall i', m', j' :: EmailSpan(s, i', m', j') ==> i <= i' && (i' == i ==> j' <= i + |Email(s)|))
  {
    var i := FirstEmail(s, 0);
    forall i', m', j' | EmailSpan(s, i', m', j') ensures i >= 0 && i <= i' && (i' == i ==> j' <= EmailAt(s, i).value) {
      EmailAtSpec(s, i');
    }
    if i >= 0 {
      EmailAtSpec(s, i);
      var j := EmailAt(s, i).value;
      assert EmailSpan(s, i, RunEnd(s, i, EmailChar), i + |Email(s)|);
    }
  }

  // ---------------------------------------------------------------- phone

  /** The class `[-.\s]`. */
  predicate PhoneSep(c: char) {
    c == '-' || c == '.' || IsSpace(c)
  }

  /** `n` digits start at `p`. */
  predicate DigitsAt(s: string, p: nat, n: nat) {
    p + n <= |s| && forall k :: p <= k < p + n ==> IsDigit(s[k])
  }

  /** `\d{3}[-.\s]?\d{4}` at `p`, the separator tried first. */
  function PhoneTail(s: string, p: nat): (r: Option<nat>)
    ensures r.Some? ==> p + 7 <= r.value <= p + 8 && r.value <= |s|
  {
    if !DigitsAt(s, p, 3) then None
    else if p + 3 < |s| && PhoneSep(s[p + 3]) && DigitsAt(s, p + 4, 4) then Some(p + 8)
    else if DigitsAt(s, p + 3, 4) then Some(p + 7)
    else None
  }

  /** `[-.\s]?\d{3}[-.\s]?\d{4}` at `p`. */
  function PhoneAfterParen(s: string, p: nat): (r: Option<nat>)
    ensures r.Some? ==> p + 7 <= r.value <= p + 9 && r.value <= |s|
  {
    var a := if p < |s| && PhoneSep(s[p]) then PhoneTail(s, p + 1) else None;
    if a.Some? then a else PhoneTail(s, p)
  }

  /** `\)?[-.\s]?\d{3}[-.\s]?\d{4}` at `p`. */
  function PhoneAfterArea(s: string, p: nat): (r: Option<nat>)
    ensures r.Some? ==> p + 7 <= r.value <= p + 10 && r.value <= |s|
  {
    var a := if p < |s| && s[p] == ')' then PhoneAfterParen(s, p + 1) else None;
    if a.Some? then a else PhoneAfterParen(s, p)
  }

  /** The end of the match `\(?\d{3}\)?[-.\s]?\d{3}[-.\s]?\d{4}` finds at `i`, each optional part tried present first. */
  function PhoneAt(s: string, i: nat): (r: Option<nat>)
    ensures r.Some? ==> i + 10 <= r.value <= i + 14 && r.value <= |s|
  {
    var a := if i < |s| && s[i] == '(' && DigitsAt(s, i + 1, 3) then PhoneAfterArea(s, i + 4) else None;
    if a.Some? then a
    else if DigitsAt(s, i, 3) then PhoneAfterArea(s, i + 3)
    else None
  }

  function FirstPhone(s: string, from: nat): (r: int)
    ensures r == -1 || (from <= r < |s| && PhoneAt(s, r).Some?)
    ensures forall i: nat :: from <= i && (r == -1 || i < r) ==> PhoneAt(s, i).None?
    decreases |s| - from
  {
    if from >= |s| then -1
    else if PhoneAt(s, from).Some? then from
    else FirstPhone(s, from + 1)
  }

  /** `re.search(phone_pattern, text).group(0)`, or "". */
  function Phone(s: string): string {
    var i := FirstPhone(s, 0);
    if i < 0 then "" else s[i..PhoneAt(s, i).value]
  }

  /** The number of ASCII digits in `t`. */
  function DigitCount(t: string): nat {
    if t == [] then 0 else DigitCount(t[..|t| - 1]) + (if IsDigit(t[|t| - 1]) then 1 else 0)
  }

  lemma {:induction false} DigitCountAppend(a: string, b: string)
    ensures DigitCount(a + b) == DigitCount(a) + DigitCount(b)
    decreases |b|
  {
    if b != [] {
      var n := |b| - 1;
      assert (a + b)[..|a + b| - 1] == a + b[..n];
      assert (a + b)[|a + b| - 1] == b[n];
      DigitCountAppend(a, b[..n]);
    } else {
      assert a + b == a;
    }
  }

  lemma {:induction false} DigitCountAllDigits(s: string, p: nat, n: nat)
    requires DigitsAt(s, p, n)
    ensures DigitCount(s[p..p + n]) == n
    decreases n
  {
    if n > 0 {
      assert s[p..p + n][..n - 1] == s[p..p + n - 1];
      DigitCountAllDigits(s, p, n - 1);
    }
  }

  lemma DigitCountSplit(s: string, a: nat, b: nat, c: nat)
    requires a <= b <= c <= |s|
    ensures DigitCount(s[a..c]) == DigitCount(s[a..b]) + DigitCount(s[b..c])
  {
    assert s[a..c] == s[a..b] + s[b..c];
    DigitCountAppend(s[a..b], s[b..c]);
  }

  lemma OneNonDigit(s: string, p: nat)
    requires p < |s| && !IsDigit(s[p])
    ensures DigitCount(s[p..p + 1]) == 0
  {
    assert s[p..p + 1][..0] == [];
  }

  lemma PhoneTailDigits(s: string, p: nat)
    requires PhoneTail(s, p).Some?
    ensures DigitCount(s[p..PhoneTail(s, p).value]) == 7
  {
    var v := PhoneTail(s, p).value;
    DigitCountAllDigits(s, p, 3);
    if v == p + 8 {
      DigitCountSplit(s, p, p + 3, v);
      DigitCountSplit(s, p + 3, p + 4, v);
      OneNonDigit(s, p + 3);
      DigitCountAllDigits(s, p + 4, 4);
    } else {
      DigitCountSplit(s, p, p + 3, v);
      DigitCountAllDigits(s, p + 3, 4);
    }
  }

  lemma PhoneAfterParenDigits(s: string, p: nat)
    requires PhoneAfterParen(s, p).Some?
    ensures DigitCount(s[p..PhoneAfterParen(s, p).value]) == 7
  {
    var v := PhoneAfterParen(s, p).value;
    if p < |s| && PhoneSep(s[p]) && PhoneTail(s, p + 1).Some? {
      PhoneTailDigits(s, p + 1);
      DigitCountSplit(s, p, p + 1, v);
      OneNonDigit(s, p);
    } else {
      PhoneTailDigits(s, p);
    }
  }

  lemma PhoneAfterAreaDigits(s: string, p: nat)
    requires PhoneAfterArea(s, p).Some?
    ensures DigitCount(s[p..PhoneAfterArea(s, p).value]) == 7
  {
    var v := PhoneAfterArea(s, p).value;
    if p < |s| && s[p] == ')' && PhoneAfterParen(s, p + 1).Some? {
      PhoneAfterParenDigits(s, p + 1);
      DigitCountSplit(s, p, p + 1, v);
      OneNonDigit(s, p);
    } else {
      PhoneAfterParenDigits(s, p);
    }
  }

  /** Every phone match holds exactly ten digits in 10 to 14 characters. */
  lemma PhoneAtDigits(s: string, i: nat)
    requires PhoneAt(s, i).Some?
    ensures DigitCount(s[i..PhoneAt(s, i).value]) == 10
  {
    var v := PhoneAt(s, i).value;
    if i < |s| && s[i] == '(' && DigitsAt(s, i + 1, 3) && PhoneAfterArea(s, i + 4).Some? {
      PhoneAfterAreaDigits(s, i + 4);
      DigitCountSplit(s, i, i + 4, v);
      DigitCountSplit(s, i, i + 1, i + 4);
      OneNonDigit(s, i);
      DigitCountAllDigits(s, i + 1, 3);
    } else {
      PhoneAfterAreaDigits(s, i + 3);
      DigitCountSplit(s, i, i + 3, v);
      DigitCountAllDigits(s, i, 3);
    }
  }

  /** A run of ten digits matches as a whole at its start. */
  lemma TenDigitsMatch(s: string, i: nat)
    requires DigitsAt(s, i, 10)
    ensures PhoneAt(s, i) == Some(i + 10)
  {
    assert IsDigit(s[i]) && IsDigit(s[i + 3]) && IsDigit(s[i + 6]);
    assert PhoneTail(s, i + 3) == Some(i + 10);
  }

  /** The phone is empty exactly when nothing matches; otherwise it is the leftmost match, with ten digits. */
  lemma PhoneSpec(s: string)
    ensures Phone(s) == "" <==> forall i: nat :: PhoneAt(s, i).None?
    ensures Phone(s) != "" ==> 10 <= |Phone(s)| <= 14 && DigitCount(Phone(s)) == 10
  {
    var i := FirstPhone(s, 0);
    if i >= 0 {
      PhoneAtDigits(s, i);
    } else {
      forall i: nat ensures PhoneAt(s, i).None? {
      }
    }
  }

  // ---------------------------------------------------------------- location

  /** The end of `(?: [A-Z][a-z]+)*` from `p`, taking as many words as there are. */
  function CapWordsEnd(s: string, p: nat): (e: nat)
    requires p <= |s|
    ensures p <= e <= |s|
    decreases |s| - p
  {
    if p + 2 < |s| && s[p] == ' ' && IsUpper(s[p + 1]) && IsLower(s[p + 2]) then CapWordsEnd(s, RunEnd(s, p + 2, IsLower))
    else p
  }

  /** The end of the match `\b[A-Z][a-z]+(?: [A-Z][a-z]+)*,\s*[A-Z]{2,}\b` finds at `i`; no part of it can give back characters, so the greedy reading is the only one. */
  function LocationAt(s: string, i: nat): (r: Option<nat>)
    ensures r.Some? ==> i < r.value <= |s|
  {
    if i + 1 < |s| && IsUpper(s[i]) && !WordCharAt(s, i - 1) && IsLower(s[i + 1]) then
      var q := CapWordsEnd(s, RunEnd(s, i + 1, IsLower));
      if q < |s| && s[q] == ',' then
        var r := RunEnd(s, q + 1, IsSpace);
        var u := RunEnd(s, r, IsUpper);
        if u >= r + 2 && !WordCharAt(s, u) then Some(u) else None
      else None
    else None
  }

  function FirstLocation(s: string, from: nat): (r: int)
    ensures r == -1 || (from <= r < |s| && LocationAt(s, r).Some?)
    ensures forall i: nat :: from <= i && (r == -1 || i < r) ==> LocationAt(s, i).None?
    decreases |s| - from
  {
    if from >= |s| then -1
    else if LocationAt(s, from).Some? then from
    else FirstLocation(s, from + 1)
  }

  /** `re.search(loc_pattern, text).group(0)`, or "". */
  function LocationMatch(s: string): string {
    var i := FirstLocation(s, 0);
    if i < 0 then "" else s[i..LocationAt(s, i).value]
  }

  /**
   * A location match starts and ends on word boundaries, opens with a capital
   * followed by a lower-case letter, holds a comma, and ends in at least two capitals.
   */
  lemma LocationAtShape(s: string, i: nat)
    requires LocationAt(s, i).Some?
    ensures var u := LocationAt(s, i).value;
      && Boundary(s, i) && Boundary(s, u)
      && IsUpper(s[i]) && IsLower(s[i + 1])
      && IsUpper(s[u - 1]) && IsUpper(s[u - 2])
      && ',' in s[i..u]
  {
    var q := CapWordsEnd(s, RunEnd(s, i + 1, IsLower));
    var r := RunEnd(s, q + 1, IsSpace);
    var u := RunEnd(s, r, IsUpper);
    assert s[i..u][q - i] == ',';
  }

  /** The two examples of the pattern: "New York, NY" and "London, UK" match whole. */
  lemma LocationExamples()
    ensures LocationAt("New York, NY", 0) == Some(12)
    ensures LocationAt("London, UK", 0) == Some(10)
  {
    NewYorkLocation();
    LondonLocation();
  }

  lemma NewYorkLocation()
    ensures LocationAt("New York, NY", 0) == Some(12)
  {
    var s := "New York, NY";
    assert RunEnd(s, 1, IsLower) == 3;
    assert RunEnd(s, 5, IsLower) == 8;
    assert CapWordsEnd(s, 8) == 8;
    assert CapWordsEnd(s, 3) == 8;
    assert RunEnd(s, 9, IsSpace) == 10;
    assert RunEnd(s, 10, IsUpper) == 12;
  }

  lemma LondonLocation()
    ensures LocationAt("London, UK", 0) == Some(10)
  {
    var t := "London, UK";
    assert RunEnd(t, 1, IsLower) == 6;
    assert CapWordsEnd(t, 6) == 6;
    assert RunEnd(t, 7, IsSpace) == 8;
    assert RunEnd(t, 8, IsUpper) == 10;
  }

  // ---------------------------------------------------------------- entities

  /** A named entity spaCy recognised: its label (`kind`) (`PERSON`, `GPE`, ...) and its text. */
  datatype Entity = Entity(kind: string, text: string)

  /** A `PERSON` entity the name heuristic accepts: it holds a space and is under 30 characters. */
  predicate PersonName(e: Entity) {
    e.kind == "PERSON" && ' ' in e.text && |e.text| < 30
  }

  /** A `GPE` entity that sets the location: one with empty text leaves it unset. */
  predicate PlaceName(e: Entity) {
    e.kind == "GPE" && e.text != ""
  }

  /** What the entity loop leaves in a field it fills once: the text of the first accepted entity, or "". */
  function FirstText(ents: seq<Entity>, accepted: Entity -> bool): string {
    if ents == [] then ""
    else
      var n := |ents| - 1;
      var before := FirstText(ents[..n], accepted);
      if before != "" then before else if accepted(ents[n]) then ents[n].text else ""
  }

  /** The entity loop of `parse_resume_text`, filling the name and the location in one pass. */
  method ScanEntities(ents: seq<Entity>) returns (name: string, location: string)
    ensures name == FirstText(ents, PersonName) && location == FirstText(ents, PlaceName)
  {
    name, location := "", "";
    for i := 0 to |ents|
      invariant name == FirstText(ents[..i], PersonName) && location == FirstText(ents[..i], PlaceName)
    {
      assert ents[..i + 1][..i] == ents[..i];
      var ent := ents[i];
      if ent.kind == "PERSON" && name == "" {
        if ' ' in ent.text && |ent.text| < 30 {
          name := ent.text;
        }
      }
      if ent.kind == "GPE" && location == "" {
        location := ent.text;
      }
    }
    assert ents[..|ents|] == ents;
  }

  /** With accepted entities carrying text, the field is the first accepted entity's text, or "" when none is accepted. */
  lemma {:induction false} FirstTextSpec(ents: seq<Entity>, accepted: Entity -> bool)
    requires forall e :: accepted(e) ==> e.text != ""
    ensures FirstText(ents, accepted) == "" <==> forall k :: 0 <= k < |ents| ==> !accepted(ents[k])
    ensures FirstText(ents, accepted) != "" ==>
      exists k :: 0 <= k < |ents| && accepted(ents[k]) && FirstText(ents, accepted) == ents[k].text
        && forall j :: 0 <= j < k ==> !accepted(ents[j])
    decreases |ents|
  {
    if ents != [] {
      var n := |ents| - 1;
      FirstTextSpec(ents[..n], accepted);
      assert forall k :: 0 <= k < n ==> ents[..n][k] == ents[k];
      if FirstText(ents[..n], accepted) == "" && accepted(ents[n]) {
        assert forall j :: 0 <= j < n ==> !accepted(ents[j]);
      }
    }
  }

  // ---------------------------------------------------------------- name fallback

  /** `str.istitle()`: a cased letter, capitals only after uncased characters, small letters only after cased ones. */
  predicate IsTitle(s: string) {
    && (exists k :: 0 <= k < |s| && IsLetter(s[k]))
    && (forall k :: 0 <= k < |s| && IsUpper(s[k]) ==> k == 0 || !IsLetter(s[k - 1]))
    && (forall k :: 0 <= k < |s| && IsLower(s[k]) ==> k > 0 && IsLetter(s[k - 1]))
  }

  /** A line the fallback takes for a name: under four words, title case, no "@", no "curriculum". */
  predicate NameLine(line: string) {
    |Words(line)| < 4 && IsTitle(line) && '@' !in line && !Contains(Lower(line), "curriculum")
  }

  /** `[l.strip() for l in lines if l.strip()]`. */
  function NonBlank(lines: seq<string>): (r: seq<string>)
    ensures |r| <= |lines|
    ensures forall k :: 0 <= k < |r| ==> r[k] != ""
  {
    if lines == [] then []
    else
      var n := |lines| - 1;
      NonBlank(lines[..n]) + (if Strip(lines[n]) != "" then [Strip(lines[n])] else [])
  }

  function Take<T>(xs: seq<T>, n: nat): (r: seq<T>)
    ensures |r| <= n && r <= xs
    ensures |xs| <= n ==> r == xs
  {
    if |xs| <= n then xs else xs[..n]
  }

  /** The first ten non-blank lines the name fallback inspects. */
  function NameCandidates(text: string): seq<string> {
    Take(NonBlank(SplitAll(text, "\n")), 10)
  }

  /** The first candidate line that looks like a name, or "". */
  function FirstNameLine(lines: seq<string>): string {
    if lines == [] then "" else if NameLine(lines[0]) then lines[0] else FirstNameLine(lines[1..])
  }

  /** The name fallback loop, which stops at the first line that looks like a name. */
  method FallbackName(text: string) returns (name: string)
    ensures name == FirstNameLine(NameCandidates(text))
  {
    var lines := NameCandidates(text);
    name := "";
    var i := 0;
    while i < |lines|
      invariant 0 <= i <= |lines|
      invariant FirstNameLine(lines) == FirstNameLine(lines[i..])
      decreases |lines| - i
    {
      assert lines[i..][1..] == lines[i + 1..];
      if NameLine(lines[i]) {
        name := lines[i];
        return;
      }
      i := i + 1;
    }
  }

  /** The fallback name is a non-blank line among the first ten that passes every test, and no earlier one does. */
  lemma {:induction false} FirstNameLineSpec(lines: seq<string>)
    ensures var r := FirstNameLine(lines);
      && (r == "" ==> forall k :: 0 <= k < |lines| ==> !NameLine(lines[k]))
      && (r != "" ==> exists k :: 0 <= k < |lines| && lines[k] == r && NameLine(r)
                        && forall j :: 0 <= j < k ==> !NameLine(lines[j]))
    decreases |lines|
  {
    if lines != [] && !NameLine(lines[0]) {
      FirstNameLineSpec(lines[1..]);
      var r := FirstNameLine(lines);
      if r != "" {
        var k :| 0 <= k < |lines[1..]| && lines[1..][k] == r && NameLine(r) && forall j :: 0 <= j < k ==> !NameLine(lines[1..][j]);
        assert lines[k + 1] == r;
      }
    }
    if lines != [] && NameLine(lines[0]) {
      assert FirstNameLine(lines) == lines[0];
      assert lines[0] != "" by {
        var k :| 0 <= k < |lines[0]| && IsLetter(lines[0][k]);
      }
    }
  }

  /** `str.title()` on ASCII: a letter is upper-cased after a non-letter and lower-cased after a letter. */
  function Title(s: string): (r: string)
    ensures |r| == |s|
  {
    seq(|s|, k requires 0 <= k < |s| =>
      if !IsLetter(s[k]) then s[k]
      else if k == 0 || !IsLetter(s[k - 1]) then UpperChar(s[k])
      else LowerChar(s[k]))
  }

  lemma TitleLetters(s: string)
    ensures forall k :: 0 <= k < |s| ==> (IsLetter(Title(s)[k]) <==> IsLetter(s[k]))
  {
  }

  lemma CaseChars(c: char)
    ensures IsLetter(c) ==> IsUpper(UpperChar(c)) && IsLower(LowerChar(c))
    ensures IsLetter(UpperChar(c)) == IsLetter(c) && IsLetter(LowerChar(c)) == IsLetter(c)
    ensures UpperChar(UpperChar(c)) == UpperChar(c) && LowerChar(LowerChar(c)) == LowerChar(c)
  {
  }

  /** What `Title` does at one position: letters stay letters, and their case follows the character before. */
  lemma TitleAt(s: string, k: nat)
    requires k < |s|
    ensures IsLetter(Title(s)[k]) == IsLetter(s[k])
    ensures IsUpper(Title(s)[k]) ==> k == 0 || !IsLetter(s[k - 1])
    ensures IsLower(Title(s)[k]) ==> k > 0 && IsLetter(s[k - 1])
  {
    CaseChars(s[k]);
  }

  /** `s.title().istitle()` holds whenever `s` has a letter. */
  lemma TitleIsTitle(s: string)
    requires exists k :: 0 <= k < |s| && IsLetter(s[k])
    ensures IsTitle(Title(s))
  {
    var t := Title(s);
    var k :| 0 <= k < |s| && IsLetter(s[k]);
    TitleAt(s, k);
    forall k | 0 <= k < |t| && IsUpper(t[k]) ensures k == 0 || !IsLetter(t[k - 1]) {
      TitleAt(s, k);
      if k > 0 {
        TitleAt(s, k - 1);
      }
    }
    forall k | 0 <= k < |t| && IsLower(t[k]) ensures k > 0 && IsLetter(t[k - 1]) {
      TitleAt(s, k);
      TitleAt(s, k - 1);
    }
  }

  /** Title-casing twice changes nothing. */
  lemma TitleIdempotent(s: string)
    ensures Title(Title(s)) == Title(s)
  {
    var t := Title(s);
    forall k | 0 <= k < |s| ensures IsLetter(t[k]) == IsLetter(s[k]) {
      CaseChars(s[k]);
    }
    forall k | 0 <= k < |s| ensures Title(t)[k] == t[k] {
      CaseChars(s[k]);
    }
  }

  // ---------------------------------------------------------------- skills

  /** The vocabulary `parse_resume_text` scans for, in its order. */
  const CommonSkills: seq<string> := [
    "python", "java", "javascript", "typescript", "c++", "c#", "go", "rust", "php", "ruby", "swift", "kotlin", "scala", "r", "matlab",
    "html", "css", "react", "angular", "vue", "next.js", "node.js", "django", "flask", "fastapi", "spring boot", "asp.net", "laravel",
    "sql", "nosql", "postgresql", "mysql", "mongodb", "redis", "elasticsearch", "machine learning", "deep learning", "nlp", "tensorflow",
    "pytorch", "pandas", "numpy", "scikit-learn", "keras", "openai", "llm",
    "docker", "kubernetes", "aws", "azure", "gcp", "google cloud", "jenkins", "gitlab ci", "github actions", "terraform", "ansible", "linux", "bash",
    "git", "jira", "confluence", "slack", "figma", "postman"
  ]

  /**
   * The skill's pattern matches the lower-cased text: `\bnode(\.js)?\b` for
   * "node.js", `\bjava\b(?!\s*-?script)` for "java", and the escaped word between
   * `\b`s for every other skill ("c++" and "c#" written out by hand come to the same).
   */
  predicate SkillFound(textLower: string, skill: string) {
    if skill == "node.js" then HasWord(textLower, "node.js") || HasWord(textLower, "node")
    else if skill == "java" then HasJava(textLower)
    else HasWord(textLower, skill)
  }

  /** The skills found in the text, title-cased. */
  function SkillsIn(text: string): set<string> {
    FoundAmong(Lower(text), CommonSkills, |CommonSkills|)
  }

  /** The title-cased skills among the first `n` of `skills` whose pattern matches. */
  function FoundAmong(textLower: string, skills: seq<string>, n: nat): set<string>
    requires n <= |skills|
  {
    set k | 0 <= k < n && SkillFound(textLower, skills[k]) :: Title(skills[k])
  }

  lemma FoundAmongStep(textLower: string, skills: seq<string>, i: nat)
    requires i < |skills|
    ensures FoundAmong(textLower, skills, i + 1)
         == FoundAmong(textLower, skills, i) + (if SkillFound(textLower, skills[i]) then {Title(skills[i])} else {})
  {
  }

  /** The skill loop, growing `found_skills`. */
  method ExtractSkills(text: string) returns (found: set<string>)
    ensures found == SkillsIn(text)
  {
    var textLower := Lower(text);
    var skills := CommonSkills;
    found := {};
    for i := 0 to |skills|
      invariant found == FoundAmong(textLower, skills, i)
    {
      FoundAmongStep(textLower, skills, i);
      if SkillFound(textLower, skills[i]) {
        found := found + {Title(skills[i])};
      }
    }
  }

  /** Every reported skill is title case and comes from a vocabulary entry whose pattern matched. */
  lemma SkillsInSpec(text: string, x: string)
    ensures x in SkillsIn(text) <==> exists k :: 0 <= k < |CommonSkills| && SkillFound(Lower(text), CommonSkills[k]) && x == Title(CommonSkills[k])
    ensures x in SkillsIn(text) ==> Title(x) == x
  {
    if x in SkillsIn(text) {
      var k :| 0 <= k < |CommonSkills| && SkillFound(Lower(text), CommonSkills[k]) && x == Title(CommonSkills[k]);
      TitleIdempotent(CommonSkills[k]);
    }
  }

  /** The optional `.js` adds nothing: "node.js" is found exactly where the word "node" is. */
  lemma NodePattern(t: string)
    ensures SkillFound(t, "node.js") <==> HasWord(t, "node")
  {
    if HasWord(t, "node.js") {
      var i := FindWord(t, "node.js", 0);
      var w := t[i..i + 7];
      assert w == "node.js";
      assert t[i..i + 4] == w[..4] == "node";
      assert t[i + 3] == w[3] == 'e' && t[i + 4] == w[4] == '.';
      HasWordAt(t, "node", i);
    }
  }

  /** "java script" holds "java" as a whole word... */
  lemma JavaWordInJavaScript()
    ensures HasWord("java script", "java")
  {
    var t := "java script";
    assert t[0..4] == "java";
    HasWordAt(t, "java", 0);
  }

  /** ...but the look-ahead rejects it, so no Java is reported. */
  lemma JavaScriptIsNotJava()
    ensures !SkillFound("java script", "java")
  {
    var t := "java script";
    NoJavaPastStart(t);
    ScriptAfterJava(t);
  }

  /** No "j" occurs in "java script" after its first character. */
  lemma NoJavaPastStart(t: string)
    requires t == "java script"
    ensures forall i: nat :: 0 < i ==> !JavaAt(t, i)
  {
    forall i: nat | 0 < i ensures !JavaAt(t, i) {
      if i < |t| {
        assert t[i] != 'j';
      }
    }
  }

  /** The look-ahead sees " script" after the leading "java". */
  lemma ScriptAfterJava(t: string)
    requires t == "java script"
    ensures !JavaAt(t, 0)
  {
    assert t[4..][0] == ' ' && t[4..][1] == 's';
    assert SpanLen(t[4..], IsSpace) == 1;
    assert t[5..11] == "script";
    assert ScriptFollows(t, 4);
  }

  /** Vocabulary entries are reported title-cased: "fastapi" as "Fastapi", "node.js" as "Node.Js". */
  lemma TitleExamples()
    ensures Title("fastapi") == "Fastapi"
    ensures Title("node.js") == "Node.Js"
    ensures Title("c++") == "C++"
  {
  }

  // ---------------------------------------------------------------- sections

  datatype Section = NoSection | Experience | Education | Certifications

  datatype LineKind = Header(section: Section) | Content

  /** How the loop treats a non-blank stripped line: a header switches section, anything else is content. */
  function Classify(line: string): LineKind {
    var low := Lower(line);
    if Contains(low, "experience") || Contains(low, "employment") || Contains(low, "work history") then
      if |line| < 30 then Header(Experience) else Content
    else if Contains(low, "education") || Contains(low, "academic") then
      if |line| < 30 then Header(Education) else Content
    else if Contains(low, "certifications") then
      if |line| < 30 then Header(Certifications) else Content
    else Content
  }

  /** The lists the section loop has built and the section it is in. */
  datatype SectionState = SectionState(experience: seq<string>, education: seq<string>, certifications: seq<string>, current: Section)

  function Record(st: SectionState, line: string): SectionState {
    match st.current
    case Experience => st.(experience := st.experience + [line])
    case Education => st.(education := st.education + [line])
    case Certifications => st.(certifications := st.certifications + [line])
    case NoSection => st
  }

  /** The state after the section loop has read `lines`. */
  function Sections(lines: seq<string>): SectionState {
    if lines == [] then SectionState([], [], [], NoSection)
    else
      var n := |lines| - 1;
      var st := Sections(lines[..n]);
      var line := Strip(lines[n]);
      if line == "" then st
      else match Classify(line)
        case Header(section) => st.(current := section)
        case Content => Record(st, line)
  }

  /** The section loop of `parse_resume_text`, driven by `current_section`. */
  method SplitSections(lines: seq<string>) returns (experience: seq<string>, education: seq<string>, certifications: seq<string>)
    ensures var st := Sections(lines);
      experience == st.experience && education == st.education && certifications == st.certifications
  {
    experience, education, certifications := [], [], [];
    var current := NoSection;
    for i := 0 to |lines|
      invariant Sections(lines[..i]) == SectionState(experience, education, certifications, current)
    {
      assert lines[..i + 1][..i] == lines[..i];
      var lineClean := Strip(lines[i]);
      var lineLower := Lower(lineClean);
      if lineClean == "" {
        continue;
      }
      if Contains(lineLower, "experience") || Contains(lineLower, "employment") || Contains(lineLower, "work history") {
        if |lineClean| < 30 {
          current := Experience;
          continue;
        }
      } else if Contains(lineLower, "education") || Contains(lineLower, "academic") {
        if |lineClean| < 30 {
          current := Education;
          continue;
        }
      } else if Contains(lineLower, "certifications") {
        if |lineClean| < 30 {
          current := Certifications;
          continue;
        }
      }
      if current == Experience {
        experience := experience + [lineClean];
      } else if current == Education {
        education := education + [lineClean];
      } else if current == Certifications {
        certifications := certifications + [lineClean];
      }
    }
    assert lines[..|lines|] == lines;
  }

  /** A line is recorded when it is the stripped form of an input line and is content, not a header. */
  predicate RecordedLine(lines: seq<string>, line: string) {
    line != "" && Classify(line) == Content && exists k :: 0 <= k < |lines| && Strip(lines[k]) == line
  }

  /** One more line records at most that line, stripped, and only when it is content. */
  lemma SectionsStep(lines: seq<string>, line: string)
    requires lines != []
    ensures var n := |lines| - 1;
      var st := Sections(lines);
      var prev := Sections(lines[..n]);
      line in st.experience + st.education + st.certifications ==>
        || line in prev.experience + prev.education + prev.certifications
        || (line == Strip(lines[n]) && line != "" && Classify(line) == Content)
  {
    var n := |lines| - 1;
    var prev := Sections(lines[..n]);
    var l := Strip(lines[n]);
    if l != "" {
      match Classify(l)
      case Header(section) =>
        assert Sections(lines) == prev.(current := section);
      case Content =>
        assert Sections(lines) == Record(prev, l);
        RecordAddsLine(prev, l, line);
    }
  }

  lemma RecordAddsLine(st: SectionState, l: string, line: string)
    ensures var r := Record(st, l);
      line in r.experience + r.education + r.certifications ==>
        line in st.experience + st.education + st.certifications || line == l
  {
  }

  /** Only non-blank stripped content lines are recorded: headers and blank lines never are. */
  lemma {:induction false} SectionsRecordContent(lines: seq<string>)
    ensures var st := Sections(lines);
      forall line :: line in st.experience + st.education + st.certifications ==> RecordedLine(lines, line)
    decreases |lines|
  {
    if lines != [] {
      var n := |lines| - 1;
      SectionsRecordContent(lines[..n]);
      var st := Sections(lines);
      var prev := Sections(lines[..n]);
      forall line | line in st.experience + st.education + st.certifications ensures RecordedLine(lines, line) {
        SectionsStep(lines, line);
        if line in prev.experience + prev.education + prev.certifications {
          assert RecordedLine(lines[..n], line);
          var k :| 0 <= k < n && Strip(lines[..n][k]) == line;
          assert Strip(lines[k]) == line;
        } else {
          assert Strip(lines[n]) == line;
        }
      }
    }
  }

  /** Lines before the first header are dropped: with no header among the lines, nothing is recorded. */
  lemma {:induction false} NoHeaderNoSections(lines: seq<string>)
    requires forall k :: 0 <= k < |lines| && Strip(lines[k]) != "" ==> !Classify(Strip(lines[k])).Header?
    ensures Sections(lines) == SectionState([], [], [], NoSection)
    decreases |lines|
  {
    if lines != [] {
      var n := |lines| - 1;
      NoHeaderNoSections(lines[..n]);
    }
  }

  /** A header is a short line with a section keyword, looked for in the order experience, education, certifications; a long line is never one. */
  lemma ClassifySpec(line: string)
    ensures Classify(line).Header? <==> (
      && |line| < 30
      && (|| Contains(Lower(line), "experience") || Contains(Lower(line), "employment") || Contains(Lower(line), "work history")
          || Contains(Lower(line), "education") || Contains(Lower(line), "academic") || Contains(Lower(line), "certifications")))
    ensures Classify(line) == Header(Education) ==> !Contains(Lower(line), "experience")
    ensures Classify(line) != Header(NoSection)
  {
  }

  /** A 30-character line mentioning experience is content even when it also mentions education. */
  lemma LongExperienceLineIsContent(lines: seq<string>, line: string)
    requires Strip(line) == line && |line| >= 30 && Contains(Lower(line), "experience")
    ensures Classify(line) == Content
    ensures Sections(lines + [line]) == Record(Sections(lines), line)
  {
    assert (lines + [line])[..|lines|] == lines;
    assert line != "";
  }

  // ---------------------------------------------------------------- parse

  const MaxExperienceLines: nat := 20
  const MaxEducationLines: nat := 10

  /** The dictionary `parse_resume_text` returns; `skills` is the set behind `list(found_skills)`. */
  datatype ParsedResume = ParsedResume(
    name: string, email: string, phone: string, location: string,
    skills: set<string>, experience: seq<string>, education: seq<string>, certifications: seq<string>)

  /** `parse_resume_text(text)`, given the entities spaCy recognises, or `None` when no model is loaded. */
  function Parse(text: string, ents: Option<seq<Entity>>): ParsedResume {
    var entityName := if ents.Some? then FirstText(ents.value, PersonName) else "";
    var entityPlace := if ents.Some? then FirstText(ents.value, PlaceName) else "";
    var st := Sections(SplitAll(text, "\n"));
    ParsedResume(
      if entityName != "" then entityName else FirstNameLine(NameCandidates(text)),
      Email(text), Phone(text),
      if entityPlace != "" then entityPlace else LocationMatch(text),
      SkillsIn(text),
      Take(st.experience, MaxExperienceLines), Take(st.education, MaxEducationLines), st.certifications)
  }

  method ParseResumeText(text: string, ents: Option<seq<Entity>>) returns (data: ParsedResume)
    ensures data == Parse(text, ents)
  {
    data := ParsedResume("", "", "", "", {}, [], [], []);
    data := data.(email := Email(text));
    data := data.(phone := Phone(text));
    if ents.Some? {
      var name, location := ScanEntities(ents.value);
      data := data.(name := name, location := location);
    }
    if data.name == "" {
      var name := FallbackName(text);
      data := data.(name := name);
    }
    if data.location == "" {
      data := data.(location := LocationMatch(text));
    }
    var skills := ExtractSkills(text);
    data := data.(skills := skills);
    var experience, education, certifications := SplitSections(SplitAll(text, "\n"));
    data := data.(experience := experience, education := education, certifications := certifications);
    data := data.(experience := Take(data.experience, MaxExperienceLines), education := Take(data.education, MaxEducationLines));
  }

  /**
   * Experience keeps the first 20 recorded lines and education the first 10;
   * certifications are kept whole; every kept line is recorded content of the text.
   */
  lemma ParseSections(text: string, ents: Option<seq<Entity>>)
    ensures var r := Parse(text, ents);
      var st := Sections(SplitAll(text, "\n"));
      && |r.experience| <= MaxExperienceLines && r.experience <= st.experience
      && (|st.experience| <= MaxExperienceLines ==> r.experience == st.experience)
      && |r.education| <= MaxEducationLines && r.education <= st.education
      && (|st.education| <= MaxEducationLines ==> r.education == st.education)
      && r.certifications == st.certifications
      && forall line :: line in r.experience + r.education + r.certifications ==> RecordedLine(SplitAll(text, "\n"), line)
  {
    var r := Parse(text, ents);
    var st := Sections(SplitAll(text, "\n"));
    SectionsRecordContent(SplitAll(text, "\n"));
    forall line | line in r.experience + r.education + r.certifications
      ensures line in st.experience + st.education + st.certifications
    {
      if line in r.experience {
        var k :| 0 <= k < |r.experience| && r.experience[k] == line;
        assert st.experience[k] == line;
      } else if line in r.education {
        var k :| 0 <= k < |r.education| && r.education[k] == line;
        assert st.education[k] == line;
      }
    }
  }
}
