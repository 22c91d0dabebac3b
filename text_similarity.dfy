/**
 * `text_similarity`: the empty-input guard of the fuzzy similarity, the
 * years-of-experience heuristic, and the skill-list normaliser.
 *
 * The two regular expressions of the heuristic are written as scanners over
 * positions. Each pattern has exactly one way to match at a given start (every
 * greedy part is followed by a character class it cannot contain), so trying
 * each start from left to right finds what `finditer`, `findall` and `search` find.
 *
 * Years are returned in tenths: a result of 2.0 years is 20.
 */
module TextSimilarity {
  import opened Wrappers
  import opened Text

  /** What `fuzz.partial_ratio` returns. */
  type Ratio = r: int | 0 <= r <= 100

  /** `calculate_similarity(text1, text2)`: 0 for an empty argument, else the ratio of the cleaned texts. */
  function CalculateSimilarity(text1: string, text2: string, partialRatio: (string, string) -> Ratio): (r: int)
    ensures 0 <= r <= 100
    ensures text1 == "" || text2 == "" ==> r == 0
  {
    if text1 == "" || text2 == "" then 0
    else partialRatio(Strip(Lower(text1)), Strip(Lower(text2)))
  }

  /** The similarity does not see letter case. */
  lemma SimilarityIgnoresCase(text1: string, text2: string, partialRatio: (string, string) -> Ratio)
    ensures CalculateSimilarity(Lower(text1), Lower(text2), partialRatio) == CalculateSimilarity(text1, text2, partialRatio)
  {
    LowerOfLowered(Lower(text1));
    LowerIsLowered(text1);
    LowerOfLowered(Lower(text2));
    LowerIsLowered(text2);
  }

  // ---------------------------------------------------------------------------
  // Character classes of the two patterns (compiled with IGNORECASE)

  /** `[a-zA-Z]` under IGNORECASE: the 52 ASCII letters and the four letters that case-fold onto them. */
  predicate IsLetterI(c: char) {
    IsLetter(c) || c == '\U{0130}' || c == '\U{0131}' || c == '\U{017F}' || c == '\U{212A}'
  }

  /**
   * The range separator class as the source spells it, `[-â€“to]` (an en dash
   * decoded as three characters), under IGNORECASE.
   */
  predicate IsSep(c: char) {
    c == '-' || c == '\U{00E2}' || c == '\U{20AC}' || c == '\U{201C}' || c == 't' || c == 'o'
    || c == 'T' || c == 'O' || c == '\U{00C2}'
  }

  predicate NotNewline(c: char) {
    c != '\n'
  }

  /** Four ASCII digits start at `q`. */
  predicate FourDigitsAt(t: string, q: nat) {
    q + 4 <= |t| && forall i :: q <= i < q + 4 ==> IsDigit(t[i])
  }

  function FourDigitValue(t: string, q: nat): nat
    requires FourDigitsAt(t, q)
  {
    var w := t[q..q + 4];
    assert forall i :: 0 <= i < 4 ==> w[i] == t[q + i];
    DigitsValue(w)
  }

  // ---------------------------------------------------------------------------
  // Month names

  const MonthKeys: seq<string> := ["jan", "feb", "mar", "apr", "may", "jun", "jul", "aug", "sep", "oct", "nov", "dec"]

  /** The position of `k` in `keys`, or `|keys|`. */
  function KeyIndex(keys: seq<string>, k: string): (i: nat)
    ensures i <= |keys|
    ensures i < |keys| ==> keys[i] == k
    ensures forall j :: 0 <= j < i ==> keys[j] != k
  {
    if keys == [] then 0
    else if keys[0] == k then 0
    else 1 + KeyIndex(keys[1..], k)
  }

  /** `get_month_num`: the first three letters, lowercased, looked up; 1 when unknown. */
  function MonthNum(name: string): (m: nat)
    ensures 1 <= m <= 12
  {
    var k := Lower(name)[..if |name| < 3 then |name| else 3];
    var i := KeyIndex(MonthKeys, k);
    if i < 12 then i + 1 else 1
  }

  /** A month name is known by its first three letters in any case; anything else is January. */
  lemma MonthNumSpec(name: string)
    ensures var k := Lower(name)[..if |name| < 3 then |name| else 3];
      && (forall i :: 0 <= i < 12 && k == MonthKeys[i] ==> MonthNum(name) == i + 1)
      && (k !in MonthKeys ==> MonthNum(name) == 1)
  {
    var k := Lower(name)[..if |name| < 3 then |name| else 3];
    forall i | 0 <= i < 12 && k == MonthKeys[i] ensures MonthNum(name) == i + 1 {
      var j := KeyIndex(MonthKeys, k);
      if j < i {
        assert MonthKeys[j] == MonthKeys[i];
        MonthKeysDistinct(j, i);
      }
    }
  }

  lemma MonthKeysDistinct(i: nat, j: nat)
    requires i < j < 12
    ensures MonthKeys[i] != MonthKeys[j]
  {
    var k := MonthKeys;
    assert k[0][0] == 'j' && k[1][0] == 'f' && k[2][0] == 'm' && k[3][0] == 'a' && k[4][0] == 'm' && k[5][0] == 'j';
    assert k[6][0] == 'j' && k[7][0] == 'a' && k[8][0] == 's' && k[9][0] == 'o' && k[10][0] == 'n' && k[11][0] == 'd';
    assert k[0][1] == 'a' && k[5][1] == 'u' && k[6][1] == 'u' && k[2][2] == 'r' && k[4][2] == 'y';
    assert k[3][1] == 'p' && k[7][1] == 'u' && k[5][2] == 'n' && k[6][2] == 'l';
  }

  // ---------------------------------------------------------------------------
  // `[a-zA-Z]+[,.]?\s*\d{4}`, shared by the range pattern and the end-date search

  /** A month word, its year, and where the match ends. */
  datatype MonthYear = MonthYear(month: string, year: nat, end: nat)

  /** The pattern matched at `p`, with `letter` the class used for `[a-zA-Z]`. */
  function MonthYearAt(t: string, p: nat, letter: char -> bool): (r: Option<MonthYear>)
    requires p <= |t|
    ensures r.Some? ==> p < r.value.end <= |t| && r.value.month != [] && letter(t[p])
  {
    if p == |t| || !letter(t[p]) then None
    else
      var q := RunEnd(t, p, letter);
      var q1 := if q < |t| && (t[q] == ',' || t[q] == '.') then q + 1 else q;
      var q2 := RunEnd(t, q1, IsSpace);
      if FourDigitsAt(t, q2) then Some(MonthYear(t[p..q], FourDigitValue(t, q2), q2 + 4)) else None
  }

  /** `re.search` of the pattern from `from`: the leftmost start where it matches. */
  function FirstMonthYear(t: string, from: nat): (r: Option<MonthYear>)
    requires from <= |t|
    decreases |t| - from
  {
    if from == |t| then None
    else
      var m := MonthYearAt(t, from, IsLetter);
      if m.Some? then m else FirstMonthYear(t, from + 1)
  }

  /** `re.search(r'(\d{4})', t)` from `from`: the leftmost four-digit year. */
  function FirstFourDigits(t: string, from: nat): (r: Option<nat>)
    requires from <= |t|
    decreases |t| - from
  {
    if from == |t| then None
    else if FourDigitsAt(t, from) then Some(FourDigitValue(t, from))
    else FirstFourDigits(t, from + 1)
  }

  // ---------------------------------------------------------------------------
  // Date ranges

  /** One match of the range pattern: its start, its `end_str` group, and where it ends. */
  datatype RangeMatch = RangeMatch(start: MonthYear, endText: string, end: nat)

  /** The range pattern `<month>[,.]?\s*<yyyy>\s*[-â€“to]+\s*(.*)` matched at `p`. */
  function DateRangeAt(t: string, p: nat): (r: Option<RangeMatch>)
    requires p <= |t|
    ensures r.Some? ==> p < r.value.end <= |t|
  {
    var my := MonthYearAt(t, p, IsLetterI);
    if my.None? then None
    else
      var q := RunEnd(t, my.value.end, IsSpace);
      var s := RunEnd(t, q, IsSep);
      if s == q then None
      else
        var r := RunEnd(t, s, IsSpace);
        var e := RunEnd(t, r, NotNewline);
        Some(RangeMatch(my.value, t[r..e], e))
  }

  /** `finditer` from `pos`: matches do not overlap, and the search resumes where a match ends. */
  function DateRanges(t: string, pos: nat): seq<RangeMatch>
    requires pos <= |t|
    decreases |t| - pos
  {
    if pos == |t| then []
    else
      match DateRangeAt(t, pos)
      case Some(m) => [m] + DateRanges(t, m.end)
      case None => DateRanges(t, pos + 1)
  }

  /** The clock reading, as the year and month of `datetime.now()`. */
  datatype YearMonth = YearMonth(year: nat, month: nat)

  /** The end date of a range: now for "present", "now", "current" or no year; a lone year means December. */
  function EndDate(endText: string, now: YearMonth): YearMonth {
    var s := Lower(Strip(endText));
    if Contains(s, "present") || Contains(s, "now") || Contains(s, "current") then now
    else
      match FirstMonthYear(s, 0)
      case Some(m) => YearMonth(m.year, MonthNum(m.month))
      case None =>
        match FirstFourDigits(s, 0)
        case Some(y) => YearMonth(y, 12)
        case None => now
  }

  /** The months a range contributes: end minus start, never below zero. */
  function RangeMonths(m: RangeMatch, now: YearMonth): (months: nat)
    ensures var e := EndDate(m.endText, now);
      months == if e.year * 12 + e.month >= m.start.year * 12 + MonthNum(m.start.month)
                then e.year * 12 + e.month - (m.start.year * 12 + MonthNum(m.start.month)) else 0
  {
    var e := EndDate(m.endText, now);
    var diff := (e.year * 12 + e.month) - (m.start.year * 12 + MonthNum(m.start.month));
    if diff < 0 then 0 else diff
  }

  function MonthsOf(ms: seq<RangeMatch>, now: YearMonth): (r: seq<nat>)
    ensures |r| == |ms|
  {
    if ms == [] then [] else MonthsOf(ms[..|ms| - 1], now) + [RangeMonths(ms[|ms| - 1], now)]
  }

  // ---------------------------------------------------------------------------
  // "N years" mentions: `(\d+)\+?\s*years?` under IGNORECASE

  /** "year" in any ASCII case. */
  predicate IsYearWord(w: string) {
    |w| == 4 && LowerChar(w[0]) == 'y' && LowerChar(w[1]) == 'e' && LowerChar(w[2]) == 'a' && LowerChar(w[3]) == 'r'
  }

  /** The pattern matched at `p`: the number and where the match ends. */
  function YearMentionAt(t: string, p: nat): (r: Option<(nat, nat)>)
    requires p <= |t|
    ensures r.Some? ==> p < r.value.1 <= |t|
  {
    if p == |t| || !IsDigit(t[p]) then None
    else
      var d := RunEnd(t, p, IsDigit);
      var q := if d < |t| && t[d] == '+' then d + 1 else d;
      var q2 := RunEnd(t, q, IsSpace);
      if q2 + 4 <= |t| && IsYearWord(t[q2..q2 + 4]) then
        var e := if q2 + 4 < |t| && (t[q2 + 4] == 's' || t[q2 + 4] == 'S' || t[q2 + 4] == '\U{017F}') then q2 + 5 else q2 + 4;
        assert forall i :: 0 <= i < d - p ==> t[p..d][i] == t[p + i];
        Some((DigitsValue(t[p..d]), e))
      else None
  }

  /** `findall` from `pos`: the numbers of the non-overlapping mentions, in order. */
  function YearMentions(t: string, pos: nat): seq<nat>
    requires pos <= |t|
    decreases |t| - pos
  {
    if pos == |t| then []
    else
      match YearMentionAt(t, pos)
      case Some(m) => [m.0] + YearMentions(t, m.1)
      case None => YearMentions(t, pos + 1)
  }

  /** The largest value below 40 in `vals`, at least `acc`. */
  function MaxBelow40(vals: seq<nat>, acc: nat): nat {
    if vals == [] then acc
    else MaxBelow40(vals[1..], if vals[0] < 40 && vals[0] > acc then vals[0] else acc)
  }

  // ---------------------------------------------------------------------------
  // The whole heuristic

  /** The months of every range in every text, in order. */
  function RangesIn(texts: seq<string>, now: YearMonth): seq<nat> {
    if texts == [] then []
    else RangesIn(texts[..|texts| - 1], now) + MonthsOf(DateRanges(texts[|texts| - 1], 0), now)
  }

  /** The largest mention below 40 in any text, or 0. */
  function MaxMention(texts: seq<string>): nat {
    if texts == [] then 0
    else MaxBelow40(YearMentions(texts[|texts| - 1], 0), MaxMention(texts[..|texts| - 1]))
  }

  function Sum(s: seq<nat>): nat {
    if s == [] then 0 else Sum(s[..|s| - 1]) + s[|s| - 1]
  }

  /** `round(n / d)` with ties to the even neighbour, as Python's `round`. */
  function RoundHalfEven(n: nat, d: nat): nat
    requires d > 0
  {
    var q := n / d;
    var r := n % d;
    if 2 * r < d then q
    else if 2 * r > d then q + 1
    else if q % 2 == 0 then q
    else q + 1
  }

  /** `extract_years_of_experience(texts)` in tenths of a year. */
  function YearsOfExperience(texts: seq<string>, now: YearMonth): nat {
    var ranges := RangesIn(texts, now);
    if ranges != [] then RoundHalfEven(10 * Sum(ranges), 12) else 10 * MaxMention(texts)
  }

  lemma MonthsOfStep(ms: seq<RangeMatch>, j: nat, now: YearMonth)
    requires j < |ms|
    ensures MonthsOf(ms[..j + 1], now) == MonthsOf(ms[..j], now) + [RangeMonths(ms[j], now)]
  {
    assert ms[..j + 1][..j] == ms[..j];
  }

  /** Taking one more text appends its ranges and folds in its mentions. */
  lemma PrefixStep(texts: seq<string>, i: nat, now: YearMonth)
    requires i < |texts|
    ensures RangesIn(texts[..i + 1], now) == RangesIn(texts[..i], now) + MonthsOf(DateRanges(texts[i], 0), now)
    ensures MaxMention(texts[..i + 1]) == MaxBelow40(YearMentions(texts[i], 0), MaxMention(texts[..i]))
  {
    assert texts[..i + 1][..i] == texts[..i];
  }

  /** The inner loop over one text's mentions: keep the largest value below 40. */
  method FoldMentions(mentions: seq<nat>, maxYears: nat) returns (m: nat)
    ensures m == MaxBelow40(mentions, maxYears)
  {
    m := maxYears;
    for j := 0 to |mentions|
      invariant MaxBelow40(mentions[j..], m) == MaxBelow40(mentions, maxYears)
    {
      assert mentions[j..][1..] == mentions[j + 1..];
      var val := mentions[j];
      if val < 40 && val > m {
        m := val;
      }
    }
    assert mentions[|mentions|..] == [];
  }

  /** The inner loop over one text's range matches: append each one's months. */
  method AppendRanges(foundRanges: seq<nat>, matches: seq<RangeMatch>, now: YearMonth) returns (r: seq<nat>)
    ensures r == foundRanges + MonthsOf(matches, now)
  {
    r := foundRanges;
    for j := 0 to |matches|
      invariant r == foundRanges + MonthsOf(matches[..j], now)
    {
      MonthsOfStep(matches, j, now);
      r := r + [RangeMonths(matches[j], now)];
    }
    assert matches[..|matches|] == matches;
  }

  /** `extract_years_of_experience(text_list)`, with `now` the clock reading. */
  method ExtractYearsOfExperience(textList: seq<string>, now: YearMonth) returns (tenths: nat)
    ensures tenths == YearsOfExperience(textList, now)
  {
    var foundRanges: seq<nat> := [];
    var maxYearsFromText: nat := 0;
    for i := 0 to |textList|
      invariant foundRanges == RangesIn(textList[..i], now)
      invariant maxYearsFromText == MaxMention(textList[..i])
    {
      var text := textList[i];
      PrefixStep(textList, i, now);
      foundRanges := AppendRanges(foundRanges, DateRanges(text, 0), now);
      maxYearsFromText := FoldMentions(YearMentions(text, 0), maxYearsFromText);
    }
    assert textList[..|textList|] == textList;
    if foundRanges != [] {
      tenths := RoundHalfEven(10 * Sum(foundRanges), 12);
    } else {
      tenths := 10 * maxYearsFromText;
    }
  }

  // ---------------------------------------------------------------------------
  // Properties

  /** Rounding to twelfths gives a nearest integer, and on a tie the even one. */
  lemma RoundTwelfthsSpec(n: nat)
    ensures var r := RoundHalfEven(n, 12);
      && 2 * n <= 24 * r + 12 && 24 * r <= 2 * n + 12
      && (2 * n == 24 * r + 12 || 2 * n + 12 == 24 * r ==> r % 2 == 0)
  {
  }

  /** `MaxBelow40` is `acc` or a value below 40, and bounds every value below 40. */
  lemma {:induction false} MaxBelow40Spec(vals: seq<nat>, acc: nat)
    ensures var m := MaxBelow40(vals, acc);
      && acc <= m
      && (m == acc || (m in vals && m < 40))
      && forall v :: v in vals && v < 40 ==> v <= m
  {
    if vals != [] {
      var acc' := if vals[0] < 40 && vals[0] > acc then vals[0] else acc;
      MaxBelow40Spec(vals[1..], acc');
      forall v | v in vals && v < 40 ensures v <= MaxBelow40(vals, acc) {
        if v != vals[0] {
          assert v in vals[1..];
        }
      }
    }
  }

  /** The fallback is the largest mention below 40 in any text, or 0 when there is none. */
  lemma {:induction false} MaxMentionSpec(texts: seq<string>)
    ensures var m := MaxMention(texts);
      && m < 40
      && (m == 0 || exists i :: 0 <= i < |texts| && m in YearMentions(texts[i], 0))
      && forall i, v :: 0 <= i < |texts| && v in YearMentions(texts[i], 0) && v < 40 ==> v <= m
  {
    if texts != [] {
      var p := texts[..|texts| - 1];
      var last := texts[|texts| - 1];
      MaxMentionSpec(p);
      MaxBelow40Spec(YearMentions(last, 0), MaxMention(p));
      var m := MaxMention(texts);
      if m != 0 && m != MaxMention(p) {
        assert m in YearMentions(texts[|texts| - 1], 0);
      } else if m != 0 {
        var i :| 0 <= i < |p| && m in YearMentions(p[i], 0);
        assert texts[i] == p[i];
      }
      forall i, v | 0 <= i < |texts| && v in YearMentions(texts[i], 0) && v < 40 ensures v <= m {
        if i < |p| {
          assert texts[i] == p[i];
        }
      }
    }
  }

  /** Some text mentions `n` years. */
  predicate Mentioned(texts: seq<string>, n: nat) {
    exists i :: 0 <= i < |texts| && n in YearMentions(texts[i], 0)
  }

  /**
   * What the heuristic returns: with any range found (even a zero-month one), the
   * rounded sum of the ranges in tenths, mentions ignored; otherwise ten times the
   * largest mention below 40, or 0.
   */
  lemma YearsOfExperienceSpec(texts: seq<string>, now: YearMonth)
    ensures var y := YearsOfExperience(texts, now);
      var ranges := RangesIn(texts, now);
      && (ranges != [] ==>
            2 * 10 * Sum(ranges) <= 12 * (2 * y + 1) && 12 * (2 * y) <= 2 * 10 * Sum(ranges) + 12)
      && (ranges == [] ==>
            y % 10 == 0 && y < 400
            && (y == 0 || Mentioned(texts, y / 10))
            && forall i, v :: 0 <= i < |texts| && v in YearMentions(texts[i], 0) && v < 40 ==> 10 * v <= y)
  {
    if RangesIn(texts, now) != [] {
      RangeYears(texts, now);
    } else {
      NoRangeYears(texts, now);
    }
  }

  /** With a range, the result is the sum of the ranges' months in tenths of a year, rounded. */
  lemma RangeYears(texts: seq<string>, now: YearMonth)
    requires RangesIn(texts, now) != []
    ensures var y := YearsOfExperience(texts, now);
      var total := Sum(RangesIn(texts, now));
      2 * 10 * total <= 12 * (2 * y + 1) && 12 * (2 * y) <= 2 * 10 * total + 12
  {
    RoundTwelfthsSpec(10 * Sum(RangesIn(texts, now)));
  }

  /** Without a range, the result is the tenfold maximum mention. */
  lemma NoRangeYears(texts: seq<string>, now: YearMonth)
    requires RangesIn(texts, now) == []
    ensures var y := YearsOfExperience(texts, now);
      && y % 10 == 0 && y < 400
      && (y == 0 || Mentioned(texts, y / 10))
      && forall i, v :: 0 <= i < |texts| && v in YearMentions(texts[i], 0) && v < 40 ==> 10 * v <= y
  {
    MaxMentionSpec(texts);
    assert (10 * MaxMention(texts)) / 10 == MaxMention(texts);
  }

  /** A range's end is now when its end text names the present, or holds no year at all. */
  lemma EndDateNow(endText: string, now: YearMonth)
    requires var s := Lower(Strip(endText));
      Contains(s, "present") || Contains(s, "now") || Contains(s, "current")
      || (FirstMonthYear(s, 0).None? && FirstFourDigits(s, 0).None?)
    ensures EndDate(endText, now) == now
  {
  }

  /** A real en dash (U+2013) is not in the separator class, so "Jan 2020 – Jan 2022" is not a range. */
  lemma EnDashDoesNotSeparate(t: string)
    requires t == "Jan 2020 \U{2013} Jan 2022"
    ensures DateRangeAt(t, 0).None?
  {
    EnDashAfterMonthYear(t);
  }

  lemma EnDashAfterMonthYear(t: string)
    requires |t| >= 10 && t[..10] == "Jan 2020 \U{2013}"
    ensures DateRangeAt(t, 0).None?
  {
    MonthYearEndAt(t, 0, 3, 4);
    RangeNeedsSeparator(t, 0, 8);
  }

  /** Where a month-year starting at `p` ends, when it is there at all. */
  lemma MonthYearEndAt(t: string, p: nat, q: nat, q2: nat)
    requires p < q < q2 <= |t|
    requires forall i :: p <= i < q ==> IsLetterI(t[i])
    requires t[q] != ',' && t[q] != '.' && !IsLetterI(t[q])
    requires forall i :: q <= i < q2 ==> IsSpace(t[i])
    requires q2 < |t| ==> !IsSpace(t[q2])
    ensures MonthYearAt(t, p, IsLetterI).Some? ==> MonthYearAt(t, p, IsLetterI).value.end == q2 + 4
  {
    RunEndIs(t, p, IsLetterI, q);
    RunEndIs(t, q, IsSpace, q2);
  }

  /** A month-year followed by one space and then no separator starts no range. */
  lemma RangeNeedsSeparator(t: string, p: nat, e: nat)
    requires p <= e && e + 1 < |t|
    requires MonthYearAt(t, p, IsLetterI).Some? ==> MonthYearAt(t, p, IsLetterI).value.end == e
    requires IsSpace(t[e]) && !IsSpace(t[e + 1]) && !IsSep(t[e + 1])
    ensures DateRangeAt(t, p).None?
  {
    if MonthYearAt(t, p, IsLetterI).Some? {
      RunEndIs(t, e, IsSpace, e + 1);
      RunEndIs(t, e + 1, IsSep, e + 1);
    }
  }

  /** Positions where no range starts are skipped by the scan. */
  lemma {:induction false} SkipNoRange(t: string, a: nat, b: nat)
    requires a <= b <= |t|
    requires forall p :: a <= p < b ==> DateRangeAt(t, p).None?
    ensures DateRanges(t, a) == DateRanges(t, b)
    decreases b - a
  {
    if a < b {
      SkipNoRange(t, a + 1, b);
    }
  }

  /** No range starts inside a word that is followed by a space and then neither a space nor a digit. */
  lemma WordNoRange(t: string, a: nat, e: nat)
    requires a <= e && e + 1 < |t|
    requires forall i :: a <= i < e ==> IsLetterI(t[i])
    requires t[e] == ' ' && !IsSpace(t[e + 1]) && !IsDigit(t[e + 1])
    ensures forall p :: a <= p <= e ==> DateRangeAt(t, p).None?
  {
    assert !IsLetterI(t[e]);
    forall p | a <= p <= e ensures MonthYearAt(t, p, IsLetterI).None? {
      if p < e {
        assert RunEnd(t, p, IsLetterI) == e;
        assert RunEnd(t, e, IsSpace) == e + 1;
      }
    }
  }

  /** A text without digits has no range. */
  lemma {:induction false} NoDigitsNoRange(t: string, pos: nat)
    requires pos <= |t|
    requires forall i :: 0 <= i < |t| ==> !IsDigit(t[i])
    ensures DateRanges(t, pos) == []
    decreases |t| - pos
  {
    if pos < |t| {
      var my := MonthYearAt(t, pos, IsLetterI);
      if IsLetterI(t[pos]) {
        var q := RunEnd(t, pos, IsLetterI);
        var q1 := if q < |t| && (t[q] == ',' || t[q] == '.') then q + 1 else q;
        var q2 := RunEnd(t, q1, IsSpace);
        if q2 + 4 <= |t| {
          assert !IsDigit(t[q2]);
        }
      }
      NoDigitsNoRange(t, pos + 1);
    }
  }

  /** `RunEnd` is pinned down by where the run stops. */
  lemma RunEndIs(s: string, p: nat, f: char -> bool, e: nat)
    requires p <= e <= |s|
    requires forall i :: p <= i < e ==> f(s[i])
    requires e < |s| ==> !f(s[e])
    ensures RunEnd(s, p, f) == e
  {
  }

  /** The value of a four-digit year, digit by digit. */
  lemma FourDigitValueIs(t: string, q: nat)
    requires FourDigitsAt(t, q)
    ensures FourDigitValue(t, q)
      == 1000 * DigitValue(t[q]) + 100 * DigitValue(t[q + 1]) + 10 * DigitValue(t[q + 2]) + DigitValue(t[q + 3])
  {
    var a, b, c, d := t[q], t[q + 1], t[q + 2], t[q + 3];
    assert t[q..q + 4] == [a, b, c, d];
    assert [a, b, c, d][..3] == [a, b, c];
    assert [a, b, c][..2] == [a, b];
    assert [a, b][..1] == [a];
    assert [a][..0] == [];
    assert DigitsValue([a]) == DigitValue(a);
    assert DigitsValue([a, b]) == 10 * DigitValue(a) + DigitValue(b);
    assert DigitsValue([a, b, c]) == 100 * DigitValue(a) + 10 * DigitValue(b) + DigitValue(c);
  }

  /** A word, one space and four digits make a month-and-year match. */
  lemma MonthYearIs(t: string, p: nat, e: nat, letter: char -> bool)
    requires p < e && e + 5 <= |t|
    requires forall i :: p <= i < e ==> letter(t[i])
    requires !letter(t[e]) && t[e] == ' ' && FourDigitsAt(t, e + 1)
    ensures MonthYearAt(t, p, letter) == Some(MonthYear(t[p..e], FourDigitValue(t, e + 1), e + 5))
  {
    RunEndIs(t, p, letter, e);
    RunEndIs(t, e, IsSpace, e + 1);
  }

  /** A month-and-year match, " - " and a last line make a range whose end text is that line. */
  lemma RangeIs(t: string, p: nat, my: MonthYear)
    requires p <= |t| && MonthYearAt(t, p, IsLetterI) == Some(my)
    requires my.end + 3 <= |t| && t[my.end] == ' ' && IsSep(t[my.end + 1]) && t[my.end + 2] == ' '
    requires my.end + 3 < |t| ==> !IsSpace(t[my.end + 3])
    requires forall i :: my.end + 3 <= i < |t| ==> t[i] != '\n'
    ensures DateRangeAt(t, p) == Some(RangeMatch(my, t[my.end + 3..], |t|))
  {
    SeparatorRuns(t, my.end);
    var r := RunEnd(t, RunEnd(t, RunEnd(t, my.end, IsSpace), IsSep), IsSpace);
    assert r == my.end + 3;
    assert t[r..RunEnd(t, r, NotNewline)] == t[my.end + 3..];
  }

  /** The runs the range pattern takes after the year: one space, one separator, one space, then the line. */
  lemma SeparatorRuns(t: string, k: nat)
    requires k + 3 <= |t| && t[k] == ' ' && IsSep(t[k + 1]) && t[k + 2] == ' '
    requires k + 3 < |t| ==> !IsSpace(t[k + 3])
    requires forall i :: k + 3 <= i < |t| ==> t[i] != '\n'
    ensures RunEnd(t, k, IsSpace) == k + 1
    ensures RunEnd(t, k + 1, IsSep) == k + 2
    ensures RunEnd(t, k + 2, IsSpace) == k + 3
    ensures RunEnd(t, k + 3, NotNewline) == |t|
  {
    assert !IsSpace(t[k + 1]);
    assert !IsSep(t[k + 2]);
    RunEndIs(t, k, IsSpace, k + 1);
    RunEndIs(t, k + 1, IsSep, k + 2);
    RunEndIs(t, k + 2, IsSpace, k + 3);
    RunEndIs(t, k + 3, NotNewline, |t|);
  }

  /** "jan 2022" starts with the month-and-year pattern. */
  lemma Jan2022At(s: string)
    requires s == "jan 2022"
    ensures MonthYearAt(s, 0, IsLetter) == Some(MonthYear("jan", 2022, 8))
  {
    assert IsLetter(s[0]) && IsLetter(s[1]) && IsLetter(s[2]) && !IsLetter(s[3]);
    assert FourDigitsAt(s, 4);
    MonthYearIs(s, 0, 3, IsLetter);
    FourDigitValueIs(s, 4);
    assert s[0..3] == "jan";
  }

  /** The end date "Jan 2022" is January 2022. */
  lemma EndDateJan2022(now: YearMonth)
    ensures EndDate("Jan 2022", now) == YearMonth(2022, 1)
  {
    var s := "jan 2022";
    Jan2022Cleaned();
    NoNowWords(s);
    Jan2022At(s);
    assert FirstMonthYear(s, 0) == Some(MonthYear("jan", 2022, 8));
    assert Lower("jan")[..3] == "jan";
  }

  lemma Jan2022Cleaned()
    ensures Lower(Strip("Jan 2022")) == "jan 2022"
  {
    TrimUntouched("Jan 2022", IsSpace);
    assert Lower("Jan 2022") == "jan 2022";
  }

  /** "jan 2022" mentions neither "present", "now" nor "current". */
  lemma NoNowWords(s: string)
    requires s == "jan 2022"
    ensures !Contains(s, "present") && !Contains(s, "now") && !Contains(s, "current")
  {
    AbsentChar(s, "present", 0);
    AbsentChar(s, "now", 2);
    AbsentChar(s, "current", 0);
  }

  lemma Jan2020At(t: string)
    requires 27 <= |t| && t[18..27] == "Jan 2020 "
    ensures MonthYearAt(t, 18, IsLetterI) == Some(MonthYear("Jan", 2020, 26))
  {
    var w := t[18..27];
    assert t[18] == w[0] && t[19] == w[1] && t[20] == w[2] && t[21] == w[3];
    assert t[22] == w[4] && t[23] == w[5] && t[24] == w[6] && t[25] == w[7];
    assert IsLetterI(t[18]) && IsLetterI(t[19]) && IsLetterI(t[20]) && !IsLetterI(t[21]);
    assert FourDigitsAt(t, 22);
    MonthYearIs(t, 18, 21, IsLetterI);
    FourDigitValueIs(t, 22);
    assert t[18..21] == w[..3] == "Jan";
    assert DigitValue(t[22]) == 2 && DigitValue(t[23]) == 0 && DigitValue(t[24]) == 2 && DigitValue(t[25]) == 0;
  }

  /** The range of the first line starts at "Jan 2020" and its end text is "Jan 2022". */
  lemma RangeAt18(t: string)
    requires |t| == 37 && t[18..27] == "Jan 2020 " && t[26..] == " - Jan 2022"
    ensures DateRangeAt(t, 18) == Some(RangeMatch(MonthYear("Jan", 2020, 26), "Jan 2022", 37))
  {
    Jan2020At(t);
    var w := t[26..];
    assert t[26] == w[0] == ' ' && t[27] == w[1] == '-' && t[28] == w[2] == ' ' && t[29] == w[3] == 'J';
    assert t[29..] == w[3..] == "Jan 2022";
    forall i | 29 <= i < |t| ensures t[i] != '\n' {
      assert t[i] == w[i - 26];
    }
    RangeIs(t, 18, MonthYear("Jan", 2020, 26));
  }

  /** No range starts inside "Software Engineer ". */
  lemma FirstLineWords(t: string)
    requires t == "Software Engineer Jan 2020 - Jan 2022"
    ensures forall p :: 0 <= p < 18 ==> DateRangeAt(t, p).None?
  {
    TwoWordsNoRange(t);
  }

  lemma TwoWordsNoRange(t: string)
    requires |t| > 19 && t[..19] == "Software Engineer J"
    ensures forall p :: 0 <= p < 18 ==> DateRangeAt(t, p).None?
  {
    WordNoRange(t, 0, 8);
    WordNoRange(t, 9, 17);
  }

  /** The first line holds exactly one range. */
  lemma FirstLineRanges(t: string)
    requires t == "Software Engineer Jan 2020 - Jan 2022"
    ensures DateRanges(t, 0) == [RangeMatch(MonthYear("Jan", 2020, 26), "Jan 2022", 37)]
  {
    FirstLineWords(t);
    SkipNoRange(t, 0, 18);
    FirstLineSlices(t);
    RangeAt18(t);
    RangesAfterMatch(t, 18, RangeMatch(MonthYear("Jan", 2020, 26), "Jan 2022", 37));
  }

  lemma FirstLineSlices(t: string)
    requires t == "Software Engineer Jan 2020 - Jan 2022"
    ensures |t| == 37 && t[18..27] == "Jan 2020 " && t[26..] == " - Jan 2022"
  {
  }

  /** A match at `pos` is the first range found from there, and the scan resumes at its end. */
  lemma RangesAfterMatch(t: string, pos: nat, m: RangeMatch)
    requires pos < |t| && DateRangeAt(t, pos) == Some(m)
    ensures DateRanges(t, pos) == [m] + DateRanges(t, m.end)
  {
  }

  /** The second line holds no range. */
  lemma SecondLineRanges(t: string)
    requires t == "Worked on stuff."
    ensures DateRanges(t, 0) == []
  {
    NoDigitsNoRange(t, 0);
  }

  /** The test's two lines yield one range, January 2020 to January 2022: 24 months. */
  lemma TwoYearsRanges(t1: string, t2: string, now: YearMonth)
    requires t1 == "Software Engineer Jan 2020 - Jan 2022" && t2 == "Worked on stuff."
    ensures RangesIn([t1, t2], now) == [24]
  {
    var m := RangeMatch(MonthYear("Jan", 2020, 26), "Jan 2022", 37);
    FirstLineRanges(t1);
    SecondLineRanges(t2);
    RangeMonthsJan2020(m, now);
    assert [m][..0] == [];
    assert MonthsOf([m], now) == [24];
    assert [t1, t2][..1] == [t1] && [t1][..0] == [];
    assert RangesIn([t1], now) == [24];
  }

  lemma RangeMonthsJan2020(m: RangeMatch, now: YearMonth)
    requires m == RangeMatch(MonthYear("Jan", 2020, 26), "Jan 2022", 37)
    ensures RangeMonths(m, now) == 24
  {
    EndDateJan2022(now);
    MonthNumJan();
    assert m.endText == "Jan 2022" && m.start.year == 2020 && m.start.month == "Jan";
  }

  lemma MonthNumJan()
    ensures MonthNum("Jan") == 1
  {
    assert Lower("Jan")[..3] == "jan";
    assert KeyIndex(MonthKeys, "jan") == 0;
  }

  /**
   * The repository's second test case: "Software Engineer Jan 2020 - Jan 2022" and
   * "Worked on stuff." give 2.0 years, whatever the date.
   */
  lemma TwoYearsExample(now: YearMonth)
    ensures YearsOfExperience(["Software Engineer Jan 2020 - Jan 2022", "Worked on stuff."], now) == 20
  {
    TwoYearsRanges("Software Engineer Jan 2020 - Jan 2022", "Worked on stuff.", now);
    assert Sum([24]) == 24 by {
      assert [24][..0] == [];
    }
  }

  // ---------------------------------------------------------------------------
  // normalize_skills

  /** `[s.lower().strip() for s in skills if s]`. */
  function NormalizeSkills(skills: seq<string>): (r: seq<string>)
    ensures |r| <= |skills|
  {
    if skills == [] then []
    else (if skills[0] != "" then [Strip(Lower(skills[0]))] else []) + NormalizeSkills(skills[1..])
  }

  /** Each entry is lowercase and stripped, and there is one per non-empty input, in order. */
  lemma {:induction false} NormalizeSkillsSpec(skills: seq<string>)
    ensures var r := NormalizeSkills(skills);
      && (forall e :: e in r ==> IsLowered(e) && Strip(e) == e)
      && |r| == |NonEmpty(skills)|
      && forall i :: 0 <= i < |r| ==> r[i] == Strip(Lower(NonEmpty(skills)[i]))
  {
    NormalizeSkillsCleaned(skills);
    NormalizeSkillsInOrder(skills);
  }

  lemma {:induction false} NormalizeSkillsCleaned(skills: seq<string>)
    ensures forall e :: e in NormalizeSkills(skills) ==> IsLowered(e) && Strip(e) == e
  {
    if skills != [] {
      NormalizeSkillsCleaned(skills[1..]);
      if skills[0] != "" {
        CleanedSkill(skills[0]);
      }
    }
  }

  lemma {:induction false} NormalizeSkillsInOrder(skills: seq<string>)
    ensures var r := NormalizeSkills(skills);
      && |r| == |NonEmpty(skills)|
      && forall i :: 0 <= i < |r| ==> r[i] == Strip(Lower(NonEmpty(skills)[i]))
  {
    if skills != [] {
      NormalizeSkillsInOrder(skills[1..]);
    }
  }

  /** A lowercased, stripped entry is lowercase and stripped. */
  lemma CleanedSkill(s: string)
    ensures IsLowered(Strip(Lower(s))) && Strip(Strip(Lower(s))) == Strip(Lower(s))
  {
    StripLower(s);
    LowerIsLowered(Strip(s));
    TrimIdempotent(Lower(s), IsSpace);
  }

  /** The non-empty entries, in order. */
  function NonEmpty(skills: seq<string>): seq<string> {
    if skills == [] then [] else (if skills[0] != "" then [skills[0]] else []) + NonEmpty(skills[1..])
  }

  /** Not idempotent: a blank entry survives once as "" and is dropped on the second pass. */
  lemma NormalizeSkillsBlank()
    ensures NormalizeSkills([" "]) == [""]
    ensures NormalizeSkills(NormalizeSkills([" "])) == []
  {
    assert Lower(" ") == " ";
    assert SpanLen(" ", IsSpace) == 1;
  }
}
