/**
 * Hand-written recognisers for the four regular expressions that
 * `parse_assignments_and_schedule` applies to a stripped line, with
 * Python's greedy, lazy and backtracking behaviour worked out:
 *
 *   inline   ^([\w\d]+/[\w\d]+):\s+(.+?)\s*\(Due\s+(\d{1,2}\s+[A-Za-z]{3}\s+\d{4})\)   (re.match)
 *   header   ^([\w\d]+/[\w\d]+):\s+(.+?)$                                               (re.match)
 *   ISO due  ^Due:\s+(\d{4}-\d{2}-\d{2})$                                               (re.match)
 *   legacy   Due:\s+(\d{1,2}/\d{1,2}/\d{4})                                             (re.search)
 */
module Formats {
  import opened Options
  import opened Text
  import opened Dates

  predicate WordRun(s: string)
  {
    |s| > 0 && forall k :: 0 <= k < |s| ==> IsWordChar(s[k])
  }

  predicate SpaceRun(s: string)
  {
    |s| > 0 && AllSpace(s)
  }

  /** `[\w\d]+/[\w\d]+` */
  predicate IsSubjectCode(c: string)
  {
    exists k :: 0 < k < |c| - 1 && c[k] == '/' && WordRun(c[..k]) && WordRun(c[k + 1..])
  }

  /** `^([\w\d]+/[\w\d]+):` at the start of `line`: the index of the colon. */
  function CodeEnd(line: string): (r: Option<nat>)
    ensures r.Some? ==> r.value < |line| && line[r.value] == ':' && IsSubjectCode(line[..r.value])
  {
    var a := RunEnd(line, 0, Word);
    if a == 0 || a >= |line| || line[a] != '/' then None
    else
      var b := RunEnd(line, a + 1, Word);
      if b == a + 1 || b >= |line| || line[b] != ':' then None
      else
        assert line[..b][..a] == line[..a] && line[..b][a + 1..] == line[a + 1..b];
        Some(b)
  }

  /** The date group of an inline entry, split into its three fields. */
  datatype DateGroup = DateGroup(day: string, month: string, year: string)

  predicate WellFormedGroup(g: DateGroup)
  {
    1 <= |g.day| <= 2 && AllDigits(g.day) && |g.month| == 3 && |g.year| == 4 && AllDigits(g.year)
  }

  /** `\s*\(Due\s+(\d{1,2}\s+[A-Za-z]{3}\s+\d{4})\)` matched at index `e`. */
  function DueTailAt(line: string, e: nat): (r: Option<DateGroup>)
    requires e <= |line|
    ensures r.Some? ==> WellFormedGroup(r.value)
  {
    var f := RunEnd(line, e, Space);
    if f + 4 <= |line| && line[f..f + 4] == "(Due" then DueDayAt(line, f + 4) else None
  }

  /** `\s+(\d{1,2}` and the rest of the due tail, from index `i` just after `(Due`. */
  function DueDayAt(line: string, i: nat): (r: Option<DateGroup>)
    requires i <= |line|
    ensures r.Some? ==> WellFormedGroup(r.value)
  {
    var h := RunEnd(line, i, Space);
    var d := RunEnd(line, h, Digit);
    if h == i || d == h || d > h + 2 then None
    else
      assert AllDigits(line[h..d]) by {
        forall k | 0 <= k < d - h ensures IsDigit(line[h..d][k]) {
          assert InClass(line[h + k], Digit);
        }
      }
      DueMonthAt(line, line[h..d], d)
  }

  /** `\s+[A-Za-z]{3}` and the rest of the due tail, from index `d` just after the day. */
  function DueMonthAt(line: string, day: string, d: nat): (r: Option<DateGroup>)
    requires d <= |line|
    ensures r.Some? ==> r.value.day == day && |r.value.month| == 3 && |r.value.year| == 4 && AllDigits(r.value.year)
  {
    var m := RunEnd(line, d, Space);
    if m == d || m + 3 > |line| || !IsAsciiLetter(line[m]) || !IsAsciiLetter(line[m + 1])
      || !IsAsciiLetter(line[m + 2]) then None
    else DueYearAt(line, day, line[m..m + 3], m + 3)
  }

  /** `\s+\d{4}\)`, the end of the due tail, from index `i` just after the month. */
  function DueYearAt(line: string, day: string, month: string, i: nat): (r: Option<DateGroup>)
    requires i <= |line|
    ensures r.Some? ==> r.value.day == day && r.value.month == month && |r.value.year| == 4 && AllDigits(r.value.year)
  {
    var y := RunEnd(line, i, Space);
    if y == i || y + 5 > |line| || !AllDigits(line[y..y + 4]) || line[y + 4] != ')' then None
    else Some(DateGroup(day, month, line[y..y + 4]))
  }

  /** The lazy `(.+?)`: the first title end, from `e` on, after which the due tail matches. */
  function FirstDueTail(line: string, e: nat): (r: Option<nat>)
    requires e <= |line| + 1
    ensures r.Some? ==> e <= r.value <= |line| && DueTailAt(line, r.value).Some?
    ensures forall j :: e <= j <= |line| && (r.None? || j < r.value) ==> DueTailAt(line, j).None?
    decreases |line| + 1 - e
  {
    if e > |line| then None
    else if DueTailAt(line, e).Some? then Some(e)
    else FirstDueTail(line, e + 1)
  }

  /** An inline entry: subject code, title and the fields of its due date. */
  datatype InlineEntry = InlineEntry(code: string, title: string, date: DateGroup)

  /**
   * The inline pattern. `\s+` first takes every blank after the colon and the
   * title is the shortest text followed by the due tail; failing that, `\s+`
   * gives back one blank, which then becomes the whole title.
   */
  function MatchInline(line: string): (r: Option<InlineEntry>)
    ensures r.Some? ==> IsSubjectCode(r.value.code) && |r.value.code| < |line|
    ensures r.Some? ==> line[..|r.value.code|] == r.value.code && line[|r.value.code|] == ':'
    ensures r.Some? ==> r.value.title != [] && WellFormedGroup(r.value.date)
  {
    match CodeEnd(line)
    case None => None
    case Some(c) =>
      var q := RunEnd(line, c + 1, Space);
      if q == c + 1 then None else InlineTitle(line, c, q)
  }

  /** The title and due date of an inline entry whose code ends at `c` and whose blanks end at `q`. */
  function InlineTitle(line: string, c: nat, q: nat): (r: Option<InlineEntry>)
    requires c < q <= |line|
    ensures r.Some? ==> r.value.code == line[..c] && r.value.title != [] && WellFormedGroup(r.value.date)
  {
    var t := FirstDueTail(line, q + 1);
    if t.Some? then
      assert q < t.value;
      Some(InlineEntry(line[..c], line[q..t.value], DueTailAt(line, t.value).value))
    else if q >= c + 3 && DueTailAt(line, q).Some? then
      Some(InlineEntry(line[..c], line[q - 1..q], DueTailAt(line, q).value))
    else None
  }

  /** The first line of a split entry: subject code and title. */
  datatype Header = Header(code: string, title: string)

  /** The header pattern: the title is everything after the blanks that follow the colon. */
  function MatchHeader(line: string): (r: Option<Header>)
    ensures r.Some? ==> IsSubjectCode(r.value.code) && r.value.title != []
    ensures r.Some? ==> |r.value.code| < |line| && line[..|r.value.code|] == r.value.code && line[|r.value.code|] == ':'
    ensures r.Some? ==> |r.value.title| <= |line| && r.value.title == line[|line| - |r.value.title|..]
  {
    match CodeEnd(line)
    case None => None
    case Some(c) =>
      var q := RunEnd(line, c + 1, Space);
      if q == c + 1 then None
      else if q < |line| then Some(Header(line[..c], line[q..]))
      else if q >= c + 3 then Some(Header(line[..c], line[q - 1..]))
      else None
  }

  /** The second line of a split entry: the ISO date text after `Due:` and blanks. */
  function MatchIsoDue(line: string): (r: Option<string>)
    ensures r.Some? ==> IsoShaped(r.value) && StartsWith(line, "Due:")
    ensures r.Some? ==> |line| > 14 && r.value == line[|line| - 10..] && AllSpace(line[4..|line| - 10])
  {
    if !StartsWith(line, "Due:") then None
    else
      var h := RunEnd(line, 4, Space);
      if h == 4 || !IsoShaped(line[h..]) then None
      else
        assert AllSpace(line[4..h]) by {
          forall k | 0 <= k < h - 4 ensures IsSpace(line[4..h][k]) {
            assert InClass(line[4 + k], Space);
          }
        }
        Some(line[h..])
  }

  /** The date group of a legacy due line. */
  datatype DmyGroup = DmyGroup(day: string, month: string, year: string)

  predicate WellFormedDmy(g: DmyGroup)
  {
    1 <= |g.day| <= 2 && AllDigits(g.day) && 1 <= |g.month| <= 2 && AllDigits(g.month)
    && |g.year| == 4 && AllDigits(g.year)
  }

  /** `Due:\s+(\d{1,2}/\d{1,2}/\d{4})` matched at index `j`. */
  function LegacyDueAt(line: string, j: nat): (r: Option<DmyGroup>)
    requires j <= |line|
    ensures r.Some? ==> WellFormedDmy(r.value) && OccursAt(line, "Due:", j)
  {
    if !OccursAt(line, "Due:", j) then None
    else
      var h := RunEnd(line, j + 4, Space);
      var d := RunEnd(line, h, Digit);
      if h == j + 4 || d == h || d > h + 2 || d >= |line| || line[d] != '/' then None
      else
        var m := RunEnd(line, d + 1, Digit);
        if m == d + 1 || m > d + 3 || m >= |line| || line[m] != '/' then None
        else if m + 5 > |line| || !AllDigits(line[m + 1..m + 5]) then None
        else Some(DmyGroup(line[h..d], line[d + 1..m], line[m + 1..m + 5]))
  }

  /** `re.search`: the leftmost index, from `j` on, where the legacy due pattern matches. */
  function SearchLegacyDue(line: string, j: nat): (r: Option<nat>)
    requires j <= |line|
    ensures r.Some? ==> j <= r.value <= |line| && LegacyDueAt(line, r.value).Some?
    ensures forall k :: j <= k <= |line| && (r.None? || k < r.value) ==> LegacyDueAt(line, k).None?
    decreases |line| - j
  {
    if LegacyDueAt(line, j).Some? then Some(j)
    else if j == |line| then None
    else SearchLegacyDue(line, j + 1)
  }

  /** The date group the legacy search finds in `line`, if any. */
  function LegacyDue(line: string): (r: Option<DmyGroup>)
    ensures r.Some? ==> WellFormedDmy(r.value)
  {
    match SearchLegacyDue(line, 0)
    case None => None
    case Some(k) => LegacyDueAt(line, k)
  }

  /** A legacy title line: contains " - " and starts with neither "Due" nor "Set". */
  predicate IsLegacyTitle(line: string)
  {
    Contains(line, " - ") && !StartsWith(line, "Due") && !StartsWith(line, "Set")
  }

  // ---------------------------------------------------------------------------
  // Each layout, written out, is recognised with the pieces it was written from.

  lemma RunEndAt(s: string, i: nat, k: CharClass, j: nat)
    requires i <= j <= |s|
    requires forall m :: i <= m < j ==> InClass(s[m], k)
    requires j == |s| || !InClass(s[j], k)
    ensures RunEnd(s, i, k) == j
  {
  }

  /** A greedy run over the text `x` sitting at `i` stops right after it when the next character is outside the class. */
  lemma RunOver(line: string, i: nat, x: string, k: CharClass)
    requires i + |x| <= |line| && line[i..i + |x|] == x
    requires forall m :: 0 <= m < |x| ==> InClass(x[m], k)
    requires i + |x| == |line| || !InClass(line[i + |x|], k)
    ensures RunEnd(line, i, k) == i + |x|
  {
    assert forall m :: i <= m < i + |x| ==> line[m] == x[m - i];
    RunEndAt(line, i, k, i + |x|);
  }

  /** A greedy run that starts on a character of its class and meets one outside it next has length one. */
  lemma SingleRun(line: string, i: nat, k: CharClass)
    requires i + 1 < |line| && InClass(line[i], k) && !InClass(line[i + 1], k)
    ensures RunEnd(line, i, k) == i + 1
  {
    RunEndAt(line, i, k, i + 1);
  }

  /** A greedy `\d+` over digits `x` stops at the non-digit after them. */
  lemma DigitsBefore(line: string, i: nat, x: string)
    requires AllDigits(x) && i + |x| < |line| && line[i..i + |x|] == x && !IsDigit(line[i + |x|])
    ensures RunEnd(line, i, Digit) == i + |x|
  {
    RunOver(line, i, x, Digit);
  }

  /** `code1/code2:` followed by anything that does not start with a word character. */
  lemma CodeRecognised(c1: string, c2: string, rest: string)
    requires WordRun(c1) && WordRun(c2)
    ensures CodeEnd(c1 + "/" + c2 + ":" + rest).Some? && CodeEnd(c1 + "/" + c2 + ":" + rest).value == |c1| + 1 + |c2|
  {
    var line := c1 + "/" + c2 + ":" + rest;
    var a, b := |c1|, |c1| + 1 + |c2|;
    assert forall m :: 0 <= m < a ==> line[m] == c1[m];
    assert line[a] == '/';
    RunEndAt(line, 0, Word, a);
    assert forall m :: a + 1 <= m < b ==> line[m] == c2[m - a - 1];
    assert line[b] == ':';
    RunEndAt(line, a + 1, Word, b);
  }

  /** The three `\s+` runs inside a due tail: after `(Due`, after the day and after the month. */
  datatype Gaps = Gaps(afterDue: string, afterDay: string, afterMonth: string)

  predicate WellGaps(w: Gaps)
  {
    SpaceRun(w.afterDue) && SpaceRun(w.afterDay) && SpaceRun(w.afterMonth)
  }

  /** The text of an inline due tail: `(Due D Mon YYYY)`, with the blanks of `w` between the fields. */
  function DueText(g: DateGroup, w: Gaps): string
  {
    "(Due" + DayText(g, w)
  }

  /** The due text after `(Due`: blanks, the day and the rest. */
  function DayText(g: DateGroup, w: Gaps): string
  {
    w.afterDue + (g.day + MonthText(g, w))
  }

  /** The due text after the day: blanks, the month and the rest. */
  function MonthText(g: DateGroup, w: Gaps): string
  {
    w.afterDay + (g.month + YearText(g, w))
  }

  /** The due text after the month: blanks, the year and `)`. */
  function YearText(g: DateGroup, w: Gaps): string
  {
    w.afterMonth + (g.year + ")")
  }

  /** Blanks `b` sitting at `i`, followed by a character that is no blank: the `\s+` run is exactly `b`. */
  lemma BlanksThen(line: string, i: nat, b: string)
    requires SpaceRun(b) && i + |b| < |line| && line[i..i + |b|] == b && !IsSpace(line[i + |b|])
    ensures RunEnd(line, i, Space) == i + |b| && RunEnd(line, i, Space) != i
  {
    RunOver(line, i, b, Space);
  }

  /** The year text of `g` at `i`: the due tail ends with that year. */
  lemma DueYearFrom(line: string, i: nat, g: DateGroup, w: Gaps)
    requires |g.year| == 4 && AllDigits(g.year) && SpaceRun(w.afterMonth)
    requires i + |YearText(g, w)| <= |line| && line[i..i + |YearText(g, w)|] == YearText(g, w)
    ensures DueYearAt(line, g.day, g.month, i).Some? && DueYearAt(line, g.day, g.month, i).value == g
  {
    var b := w.afterMonth;
    SplitAt(line, i, b, g.year + ")");
    SplitAt(line, i + |b|, g.year, ")");
    assert line[i + |b| + 4] == ')' by { assert line[i + |b| + 4] == line[i + |b| + 4..i + |b| + 5][0]; }
    assert line[i + |b|] == g.year[0] by { assert line[i + |b|] == line[i + |b|..i + |b| + 4][0]; }
    BlanksThen(line, i, b);
  }

  /** The month text of `g` at `d`: the due tail goes on with that month and year. */
  lemma DueMonthFrom(line: string, d: nat, g: DateGroup, w: Gaps)
    requires WellFormedGroup(g) && forall k :: 0 <= k < 3 ==> IsAsciiLetter(g.month[k])
    requires WellGaps(w)
    requires d + |MonthText(g, w)| <= |line| && line[d..d + |MonthText(g, w)|] == MonthText(g, w)
    ensures DueMonthAt(line, g.day, d).Some? && DueMonthAt(line, g.day, d).value == g
  {
    var m := d + |w.afterDay|;
    var y := m + |g.month|;
    SplitAt(line, d, w.afterDay, g.month + YearText(g, w));
    SplitAt(line, m, g.month, YearText(g, w));
    assert line[m] == g.month[0] by { assert line[m] == line[m..m + |g.month|][0]; }
    BlanksThen(line, d, w.afterDay);
    DueYearFrom(line, y, g, w);
    MonthThenYear(line, d, m, y, g);
  }

  /** Where the blanks after the day end in the month of `g` and the year follows, the due tail is `g`. */
  lemma MonthThenYear(line: string, d: nat, m: nat, y: nat, g: DateGroup)
    requires |g.month| == 3 && forall k :: 0 <= k < 3 ==> IsAsciiLetter(g.month[k])
    requires d < m && y == m + |g.month| <= |line| && RunEnd(line, d, Space) == m && line[m..y] == g.month
    requires DueYearAt(line, g.day, g.month, y).Some? && DueYearAt(line, g.day, g.month, y).value == g
    ensures DueMonthAt(line, g.day, d).Some? && DueMonthAt(line, g.day, d).value == g
  {
    assert line[m] == g.month[0] && line[m + 1] == g.month[1] && line[m + 2] == g.month[2];
  }

  /** The day text of `g` at `i`, just after `(Due`: the due tail is `g`. */
  lemma DueDayFrom(line: string, i: nat, g: DateGroup, w: Gaps)
    requires WellFormedGroup(g) && forall k :: 0 <= k < 3 ==> IsAsciiLetter(g.month[k])
    requires WellGaps(w)
    requires i + |DayText(g, w)| <= |line| && line[i..i + |DayText(g, w)|] == DayText(g, w)
    ensures DueDayAt(line, i).Some? && DueDayAt(line, i).value == g
  {
    var h := i + |w.afterDue|;
    var d := h + |g.day|;
    SplitAt(line, i, w.afterDue, g.day + MonthText(g, w));
    SplitAt(line, h, g.day, MonthText(g, w));
    assert line[d] == w.afterDay[0] by {
      assert line[d..d + |MonthText(g, w)|][0] == w.afterDay[0];
    }
    DayRuns(line, i, w.afterDue, g.day);
    DueMonthFrom(line, d, g, w);
    DayThenMonth(line, i, h, d, g);
  }

  /** Where the blanks after `(Due` end in the day of `g` and the month follows, the due tail is `g`. */
  lemma DayThenMonth(line: string, i: nat, h: nat, d: nat, g: DateGroup)
    requires i < h < d <= h + 2 && d <= |line| && RunEnd(line, i, Space) == h && RunEnd(line, h, Digit) == d
    requires line[h..d] == g.day
    requires DueMonthAt(line, g.day, d).Some? && DueMonthAt(line, g.day, d).value == g
    ensures DueDayAt(line, i).Some? && DueDayAt(line, i).value == g
  {
  }

  /** Blanks `b`, then the digits `day`, then a blank, from `i` on: those are the two runs. */
  lemma DayRuns(line: string, i: nat, b: string, day: string)
    requires SpaceRun(b) && |day| > 0 && AllDigits(day)
    requires i + |b| + |day| < |line| && line[i..i + |b|] == b && line[i + |b|..i + |b| + |day|] == day
    requires IsSpace(line[i + |b| + |day|])
    ensures RunEnd(line, i, Space) == i + |b|
    ensures RunEnd(line, i + |b|, Digit) == i + |b| + |day|
  {
    var h := i + |b|;
    assert line[h] == day[0] by { assert line[h] == line[h..h + |day|][0]; }
    BlanksThen(line, i, b);
    DigitsBefore(line, h, day);
  }

  /** Blanks from `e` to `f`, then the due text of `g` at `f`: the due tail at `e` is `g`. */
  lemma DueTailRecognised(line: string, e: nat, f: nat, g: DateGroup, w: Gaps)
    requires WellFormedGroup(g) && forall k :: 0 <= k < 3 ==> IsAsciiLetter(g.month[k])
    requires WellGaps(w)
    requires e <= f && f + |DueText(g, w)| <= |line| && line[f..f + |DueText(g, w)|] == DueText(g, w)
    requires forall m :: e <= m < f ==> IsSpace(line[m])
    ensures DueTailAt(line, e).Some? && DueTailAt(line, e).value == g
  {
    SplitAt(line, f, "(Due", DayText(g, w));
    assert line[f] == '(' by { assert line[f] == line[f..f + 4][0]; }
    RunEndAt(line, e, Space, f);
    DueDayFrom(line, f + 4, g, w);
    DueThenDay(line, e, f, g);
  }

  /** Where the blanks from `e` end in `(Due` and the day follows, the due tail at `e` is `g`. */
  lemma DueThenDay(line: string, e: nat, f: nat, g: DateGroup)
    requires e <= f && f + 4 <= |line| && RunEnd(line, e, Space) == f && line[f..f + 4] == "(Due"
    requires DueDayAt(line, f + 4).Some? && DueDayAt(line, f + 4).value == g
    ensures DueTailAt(line, e).Some? && DueTailAt(line, e).value == g
  {
  }

  /** No due tail starts before a non-blank `te - 1` when no '(' lies in between. */
  lemma NoDueTailBefore(line: string, e: nat, te: nat)
    requires e < te <= |line| && !IsSpace(line[te - 1])
    requires forall k :: e <= k < te ==> line[k] != '('
    ensures DueTailAt(line, e).None?
  {
    var f := RunEnd(line, e, Space);
    assert f < te;
    assert f + 4 <= |line| ==> line[f..f + 4][0] == line[f];
  }

  /** The lazy title stops at `te` when the text before it cannot hold an earlier due tail. */
  lemma FirstTailAfterTitle(line: string, a: nat, te: nat)
    requires 0 < a <= te <= |line| && !IsSpace(line[te - 1])
    requires forall k :: a <= k < te ==> line[k] != '('
    requires DueTailAt(line, te).Some?
    ensures FirstDueTail(line, a).Some? && FirstDueTail(line, a).value == te
  {
    forall e | a <= e < te
      ensures DueTailAt(line, e).None?
    {
      NoDueTailBefore(line, e, te);
    }
  }

  /** The blanks after the colon end at `q`, where a non-blank begins. */
  lemma BlanksAfterColon(line: string, c: nat, s1: string, q: nat)
    requires q == c + 1 + |s1| && q < |line| && line[c + 1..q] == s1 && AllSpace(s1) && !IsSpace(line[q])
    ensures RunEnd(line, c + 1, Space) == q
  {
    assert forall m :: c + 1 <= m < q ==> line[m] == s1[m - c - 1];
    RunEndAt(line, c + 1, Space, q);
  }

  lemma InlineTitleAt(line: string, c: nat, q: nat, te: nat, code: string, title: string)
    requires c < q < te <= |line| && line[..c] == code && line[q..te] == title
    requires FirstDueTail(line, q + 1).Some? && FirstDueTail(line, q + 1).value == te
    ensures InlineTitle(line, c, q).Some?
    ensures InlineTitle(line, c, q).value == InlineEntry(code, title, DueTailAt(line, te).value)
  {
  }

  lemma MatchInlineAt(line: string, c: nat, q: nat)
    requires CodeEnd(line).Some? && CodeEnd(line).value == c
    requires RunEnd(line, c + 1, Space) == q && q != c + 1
    ensures MatchInline(line) == InlineTitle(line, c, q)
  {
  }

  /** The inline pattern, given where the code, the blanks, the title and the due tail lie. */
  lemma InlineByLayout(line: string, c: nat, q: nat, te: nat, code: string, title: string, g: DateGroup)
    requires CodeEnd(line).Some? && CodeEnd(line).value == c && c + 1 < q < te <= |line|
    requires RunEnd(line, c + 1, Space) == q && !IsSpace(line[te - 1]) && line[..c] == code && line[q..te] == title
    requires forall k :: q + 1 <= k < te ==> line[k] != '('
    requires DueTailAt(line, te).Some? && DueTailAt(line, te).value == g
    ensures MatchInline(line).Some? && MatchInline(line).value == InlineEntry(code, title, g)
  {
    FirstTailAfterTitle(line, q + 1, te);
    InlineTitleAt(line, c, q, te, code, title);
    MatchInlineAt(line, c, q);
  }

  /** An entry written out in the inline layout: `code: title  (Due D Mon YYYY)`. */
  function InlineText(c1: string, c2: string, s1: string, title: string, s2: string, g: DateGroup, w: Gaps): string
  {
    c1 + "/" + c2 + ":" + s1 + title + s2 + DueText(g, w)
  }

  /** `line` holds the code, a colon, the blanks `s1`, the title, the blanks `s2` and the due text of `g`, in that order. */
  predicate InlineSlices(line: string, code: string, s1: string, title: string, s2: string, g: DateGroup, w: Gaps)
  {
    var q := |code| + 1 + |s1|;
    var te := q + |title|;
    var f := te + |s2|;
    f + |DueText(g, w)| == |line| && line[..|code|] == code && line[|code| + 1..q] == s1
    && line[q..te] == title && line[te..f] == s2 && line[f..f + |DueText(g, w)|] == DueText(g, w)
  }

  /** Where the pieces of an inline entry lie once it is written out. */
  lemma InlineLayout(c1: string, c2: string, s1: string, title: string, s2: string, g: DateGroup, w: Gaps)
    ensures InlineSlices(InlineText(c1, c2, s1, title, s2, g, w), c1 + "/" + c2, s1, title, s2, g, w)
  {
    var line := InlineText(c1, c2, s1, title, s2, g, w);
    var code := c1 + "/" + c2;
    assert line == code + ":" + s1 + title + s2 + DueText(g, w);
    assert line == (code + ":") + s1 + (title + s2 + DueText(g, w));
    MiddleAt(line, 0, code + ":", s1, title + s2 + DueText(g, w));
    assert line == (code + ":" + s1) + title + (s2 + DueText(g, w));
    MiddleAt(line, 0, code + ":" + s1, title, s2 + DueText(g, w));
    assert line == (code + ":" + s1 + title) + s2 + DueText(g, w);
    MiddleAt(line, 0, code + ":" + s1 + title, s2, DueText(g, w));
    assert line == (code + ":" + s1 + title + s2) + DueText(g, w) + "";
    MiddleAt(line, 0, code + ":" + s1 + title + s2, DueText(g, w), "");
  }

  /** The characters of a title found at `q..te` of a line. */
  lemma SlicedTitle(line: string, q: nat, te: nat, title: string)
    requires q < te <= |line| && line[q..te] == title && '(' !in title
    ensures line[q] == title[0] && line[te - 1] == title[|title| - 1]
    ensures forall k :: q <= k < te ==> line[k] != '('
  {
    forall k | q <= k < te ensures line[k] != '(' {
      assert line[k] == title[k - q];
    }
  }

  /** The characters of blanks found at `e..f` of a line. */
  lemma SlicedBlanks(line: string, e: nat, f: nat, blanks: string)
    requires e <= f <= |line| && line[e..f] == blanks && AllSpace(blanks)
    ensures forall m :: e <= m < f ==> IsSpace(line[m])
  {
    forall m | e <= m < f ensures IsSpace(line[m]) {
      assert line[m] == blanks[m - e];
    }
  }

  /** The inline pattern, given the code end and the slices holding the blanks, the title and the due text. */
  lemma InlineBySlices(line: string, code: string, s1: string, title: string, s2: string, g: DateGroup, w: Gaps)
    requires SpaceRun(s1) && AllSpace(s2)
    requires title != [] && !IsSpace(title[0]) && !IsSpace(title[|title| - 1]) && '(' !in title
    requires WellFormedGroup(g) && forall k :: 0 <= k < 3 ==> IsAsciiLetter(g.month[k])
    requires WellGaps(w)
    requires CodeEnd(line).Some? && CodeEnd(line).value == |code|
    requires InlineSlices(line, code, s1, title, s2, g, w)
    ensures MatchInline(line).Some? && MatchInline(line).value == InlineEntry(code, title, g)
  {
    var c := |code|;
    var q := c + 1 + |s1|;
    var te := q + |title|;
    var f := te + |s2|;
    SlicedTitle(line, q, te, title);
    SlicedBlanks(line, te, f, s2);
    BlanksAfterColon(line, c, s1, q);
    DueTailRecognised(line, te, f, g, w);
    InlineByLayout(line, c, q, te, code, title, g);
  }

  /**
   * An inline entry written out is recognised with exactly the code, title and
   * date it was written from, when the title has no '(' and does not begin or
   * end with a blank.
   */
  lemma InlineRecognised(c1: string, c2: string, s1: string, title: string, s2: string, g: DateGroup, w: Gaps)
    requires WordRun(c1) && WordRun(c2) && SpaceRun(s1) && AllSpace(s2)
    requires title != [] && !IsSpace(title[0]) && !IsSpace(title[|title| - 1]) && '(' !in title
    requires WellFormedGroup(g) && forall k :: 0 <= k < 3 ==> IsAsciiLetter(g.month[k])
    requires WellGaps(w)
    ensures var r := MatchInline(InlineText(c1, c2, s1, title, s2, g, w));
      r.Some? && r.value == InlineEntry(c1 + "/" + c2, title, g)
  {
    InlineCode(c1, c2, s1, title, s2, g, w);
    InlineLayout(c1, c2, s1, title, s2, g, w);
    InlineBySlices(InlineText(c1, c2, s1, title, s2, g, w), c1 + "/" + c2, s1, title, s2, g, w);
  }

  /** The subject code of an inline entry written out ends where it was written. */
  lemma InlineCode(c1: string, c2: string, s1: string, title: string, s2: string, g: DateGroup, w: Gaps)
    requires WordRun(c1) && WordRun(c2)
    ensures var line := InlineText(c1, c2, s1, title, s2, g, w);
      CodeEnd(line).Some? && CodeEnd(line).value == |c1 + "/" + c2|
  {
    var line := InlineText(c1, c2, s1, title, s2, g, w);
    assert line == c1 + "/" + c2 + ":" + (s1 + title + s2 + DueText(g, w));
    CodeRecognised(c1, c2, s1 + title + s2 + DueText(g, w));
  }

  /** A split entry's first line written out: `code:<blanks>title`. */
  function HeaderText(c1: string, c2: string, s1: string, title: string): string
  {
    c1 + "/" + c2 + ":" + s1 + title
  }

  /** `line` holds the code, a colon, the blanks `s1` and then the title up to its end. */
  predicate HeaderSlices(line: string, code: string, s1: string, title: string)
  {
    var q := |code| + 1 + |s1|;
    q + |title| == |line| && line[..|code|] == code && line[|code| + 1..q] == s1 && line[q..] == title
  }

  lemma HeaderLayout(c1: string, c2: string, s1: string, title: string)
    ensures HeaderSlices(HeaderText(c1, c2, s1, title), c1 + "/" + c2, s1, title)
  {
    var line := HeaderText(c1, c2, s1, title);
    var code := c1 + "/" + c2;
    assert line == (code + ":") + s1 + title;
    MiddleAt(line, 0, code + ":", s1, title);
  }

  lemma HeaderBySlices(line: string, code: string, s1: string, title: string)
    requires SpaceRun(s1) && title != [] && !IsSpace(title[0])
    requires CodeEnd(line).Some? && CodeEnd(line).value == |code|
    requires HeaderSlices(line, code, s1, title)
    ensures MatchHeader(line).Some? && MatchHeader(line).value == Header(code, title)
  {
    var c := |code|;
    var q := c + 1 + |s1|;
    assert line[q] == title[0];
    BlanksAfterColon(line, c, s1, q);
  }

  /** A header written out is recognised with exactly the code and title it was written from. */
  lemma HeaderRecognised(c1: string, c2: string, s1: string, title: string)
    requires WordRun(c1) && WordRun(c2) && SpaceRun(s1)
    requires title != [] && !IsSpace(title[0])
    ensures var r := MatchHeader(HeaderText(c1, c2, s1, title));
      r.Some? && r.value == Header(c1 + "/" + c2, title)
  {
    var line := HeaderText(c1, c2, s1, title);
    assert line == c1 + "/" + c2 + ":" + (s1 + title);
    CodeRecognised(c1, c2, s1 + title);
    assert |c1 + "/" + c2| == |c1| + 1 + |c2|;
    HeaderLayout(c1, c2, s1, title);
    HeaderBySlices(line, c1 + "/" + c2, s1, title);
  }

  /** `Due:<blanks>YYYY-MM-DD` is recognised as an ISO due line carrying that date text. */
  lemma IsoDueRecognised(s: string, iso: string)
    requires SpaceRun(s) && IsoShaped(iso)
    ensures MatchIsoDue("Due:" + s + iso).Some? && MatchIsoDue("Due:" + s + iso).value == iso
  {
    var line := "Due:" + s + iso;
    assert StartsWith(line, "Due:");
    assert forall m :: 4 <= m < 4 + |s| ==> line[m] == s[m - 4];
    assert line[4 + |s|] == iso[0];
    RunEndAt(line, 4, Space, 4 + |s|);
    assert line[4 + |s|..] == iso;
  }

  /** The text of a legacy due date: `Due:<blanks>D/M/YYYY`. */
  function LegacyText(s: string, g: DmyGroup): string
  {
    "Due:" + s + g.day + "/" + g.month + "/" + g.year
  }

  /** `line` holds, from `j`, the legacy due text made of the blanks `s` and the fields of `g`. */
  predicate LegacySlices(line: string, j: nat, s: string, g: DmyGroup)
  {
    var h := j + 4 + |s|;
    var d := h + |g.day|;
    var m := d + 1 + |g.month|;
    m + 5 <= |line| && line[j..j + 4] == "Due:" && line[j + 4..h] == s && line[h..d] == g.day
    && line[d] == '/' && line[d + 1..m] == g.month && line[m] == '/' && line[m + 1..m + 5] == g.year
  }

  /** Where each field of a legacy due text lies, once the text sits at `j` in `line`. */
  lemma LegacyTextLayout(line: string, j: nat, s: string, g: DmyGroup)
    requires WellFormedDmy(g)
    requires j + |LegacyText(s, g)| <= |line| && line[j..j + |LegacyText(s, g)|] == LegacyText(s, g)
    ensures LegacySlices(line, j, s, g)
  {
    var t1 := "Due:" + s;
    var t2 := t1 + g.day;
    var t3 := t2 + "/";
    var t4 := t3 + g.month;
    var t5 := t4 + "/";
    assert LegacyText(s, g) == t5 + g.year;
    SplitAt(line, j, t5, g.year);
    SplitAt(line, j, t4, "/");
    SplitAt(line, j, t3, g.month);
    SplitAt(line, j, t2, "/");
    SplitAt(line, j, t1, g.day);
    SplitAt(line, j, "Due:", s);
    assert line[j + |t2|] == line[j + |t2|..j + |t3|][0];
    assert line[j + |t4|] == line[j + |t4|..j + |t5|][0];
  }

  /** A greedy `\s+` over blanks `s` stops at the digit after them. */
  lemma BlanksBeforeDigit(line: string, i: nat, s: string)
    requires SpaceRun(s) && i + |s| < |line| && line[i..i + |s|] == s && IsDigit(line[i + |s|])
    ensures RunEnd(line, i, Space) == i + |s|
  {
    RunOver(line, i, s, Space);
  }

  lemma LegacyBlanksRun(line: string, j: nat, s: string, g: DmyGroup)
    requires SpaceRun(s) && WellFormedDmy(g) && LegacySlices(line, j, s, g)
    ensures RunEnd(line, j + 4, Space) == j + 4 + |s|
  {
    var h := j + 4 + |s|;
    assert line[h] == line[h..h + |g.day|][0];
    BlanksBeforeDigit(line, j + 4, s);
  }

  lemma LegacyDayRun(line: string, j: nat, s: string, g: DmyGroup)
    requires SpaceRun(s) && WellFormedDmy(g) && LegacySlices(line, j, s, g)
    ensures RunEnd(line, j + 4 + |s|, Digit) == j + 4 + |s| + |g.day|
  {
    DigitsBefore(line, j + 4 + |s|, g.day);
  }

  lemma LegacyMonthRun(line: string, j: nat, s: string, g: DmyGroup)
    requires SpaceRun(s) && WellFormedDmy(g) && LegacySlices(line, j, s, g)
    ensures RunEnd(line, j + 4 + |s| + |g.day| + 1, Digit) == j + 4 + |s| + |g.day| + 1 + |g.month|
  {
    DigitsBefore(line, j + 4 + |s| + |g.day| + 1, g.month);
  }

  /** What `LegacyDueAt` checks, with the ends of its three greedy runs named. */
  predicate LegacyFacts(line: string, j: nat, h: nat, d: nat, m: nat, g: DmyGroup)
  {
    j + 4 <= |line| && line[j..j + 4] == "Due:"
    && RunEnd(line, j + 4, Space) == h && h != j + 4
    && RunEnd(line, h, Digit) == d && d != h && d <= h + 2 && d < |line| && line[d] == '/'
    && RunEnd(line, d + 1, Digit) == m && m != d + 1 && m <= d + 3 && m < |line| && line[m] == '/'
    && m + 5 <= |line| && AllDigits(line[m + 1..m + 5])
    && line[h..d] == g.day && line[d + 1..m] == g.month && line[m + 1..m + 5] == g.year
  }

  lemma LegacyDueByFacts(line: string, j: nat, h: nat, d: nat, m: nat, g: DmyGroup)
    requires LegacyFacts(line, j, h, d, m, g)
    ensures LegacyDueAt(line, j).Some? && LegacyDueAt(line, j).value == g
  {
  }

  lemma LegacyFactsFromSlices(line: string, j: nat, s: string, g: DmyGroup)
    requires SpaceRun(s) && WellFormedDmy(g) && LegacySlices(line, j, s, g)
    ensures var h := j + 4 + |s|;
      var d := h + |g.day|;
      LegacyFacts(line, j, h, d, d + 1 + |g.month|, g)
  {
    var h := j + 4 + |s|;
    var d := h + |g.day|;
    var m := d + 1 + |g.month|;
    LegacyBlanksRun(line, j, s, g);
    LegacyDayRun(line, j, s, g);
    LegacyMonthRun(line, j, s, g);
    assert AllDigits(line[m + 1..m + 5]) by { assert line[m + 1..m + 5] == g.year; }
  }

  /** The legacy pattern at `j`, given where the blanks and the fields of `g` lie. */
  lemma LegacyBySlices(line: string, j: nat, s: string, g: DmyGroup)
    requires SpaceRun(s) && WellFormedDmy(g)
    requires LegacySlices(line, j, s, g)
    ensures LegacyDueAt(line, j).Some? && LegacyDueAt(line, j).value == g
  {
    var h := j + 4 + |s|;
    var d := h + |g.day|;
    LegacyFactsFromSlices(line, j, s, g);
    LegacyDueByFacts(line, j, h, d, d + 1 + |g.month|, g);
  }

  /**
   * A legacy due text after a prefix with no 'D' is what the search finds:
   * no earlier match can start inside the prefix.
   */
  lemma LegacyDueRecognised(pre: string, s: string, g: DmyGroup, post: string)
    requires 'D' !in pre && SpaceRun(s) && WellFormedDmy(g)
    ensures LegacyDue(pre + LegacyText(s, g) + post).Some? && LegacyDue(pre + LegacyText(s, g) + post).value == g
  {
    var line := pre + LegacyText(s, g) + post;
    var j := |pre|;
    forall k | 0 <= k < j ensures LegacyDueAt(line, k).None? {
      assert line[k] == pre[k] != 'D';
      assert k + 4 <= |line| ==> line[k..k + 4][0] == line[k];
    }
    MiddleAt(line, 0, pre, LegacyText(s, g), post);
    LegacyTextLayout(line, j, s, g);
    LegacyBySlices(line, j, s, g);
    assert SearchLegacyDue(line, 0).Some? && SearchLegacyDue(line, 0).value == j;
  }
}
