/**
 * What the loop of `parse_assignments_and_schedule` does at a line written
 * in each of the page's three layouts: an inline entry, a header followed by
 * an ISO due line, and a legacy title followed by a `Due: D/M/YYYY` line.
 */
module LineForms {
  import opened Options
  import opened Text
  import opened Dates
  import opened Formats
  import opened Processor

  // ---------------------------------------------------------------------------
  // Lines a pattern cannot match: each pattern needs a `(` or a `:` somewhere

  /** `\s+\d{4}\)` ends in `)`. */
  lemma YearClose(line: string, day: string, month: string, i: nat) returns (p: nat)
    requires i <= |line| && DueYearAt(line, day, month, i).Some?
    ensures p < |line| && line[p] == ')'
  {
    p := RunEnd(line, i, Space) + 4;
  }

  lemma MonthClose(line: string, day: string, d: nat) returns (p: nat)
    requires d <= |line| && DueMonthAt(line, day, d).Some?
    ensures p < |line| && line[p] == ')'
  {
    var m := RunEnd(line, d, Space);
    p := YearClose(line, day, line[m..m + 3], m + 3);
  }

  lemma DayClose(line: string, i: nat) returns (p: nat)
    requires i <= |line| && DueDayAt(line, i).Some?
    ensures p < |line| && line[p] == ')'
  {
    var h := RunEnd(line, i, Space);
    var d := RunEnd(line, h, Digit);
    p := MonthClose(line, line[h..d], d);
  }

  /** The due tail opens with `(` and closes with `)`. */
  lemma DueTailParens(line: string, e: nat) returns (p: nat, r: nat)
    requires e <= |line| && DueTailAt(line, e).Some?
    ensures p < |line| && line[p] == '(' && r < |line| && line[r] == ')'
  {
    p := RunEnd(line, e, Space);
    assert line[p..p + 4][0] == line[p];
    r := DayClose(line, p + 4);
  }

  /** A title found by the inline pattern is followed by a due tail. */
  lemma TitleParens(line: string, c: nat, q: nat) returns (p: nat, r: nat)
    requires c < q <= |line| && InlineTitle(line, c, q).Some?
    ensures p < |line| && line[p] == '(' && r < |line| && line[r] == ')'
  {
    var t := FirstDueTail(line, q + 1);
    if t.Some? {
      p, r := DueTailParens(line, t.value);
    } else {
      p, r := DueTailParens(line, q);
    }
  }

  /** An inline entry has the `(` and the `)` of its due tail. */
  lemma InlineParens(line: string) returns (p: nat, r: nat)
    requires MatchInline(line).Some?
    ensures p < |line| && line[p] == '(' && r < |line| && line[r] == ')'
  {
    var c := CodeEnd(line).value;
    var q := RunEnd(line, c + 1, Space);
    assert q != c + 1 && MatchInline(line) == InlineTitle(line, c, q);
    p, r := TitleParens(line, c, q);
  }

  lemma NoParenNoInline(line: string)
    requires '(' !in line
    ensures MatchInline(line).None?
  {
    if MatchInline(line).Some? {
      var p, r := InlineParens(line);
    }
  }

  lemma NoCloseNoInline(line: string)
    requires ')' !in line
    ensures MatchInline(line).None?
  {
    if MatchInline(line).Some? {
      var p, r := InlineParens(line);
    }
  }

  /** A legacy due text has a `:`, the one of `Due:`. */
  lemma LegacyColon(line: string) returns (p: nat)
    requires LegacyDue(line).Some?
    ensures p < |line| && line[p] == ':'
  {
    var k := SearchLegacyDue(line, 0).value;
    p := k + 3;
    assert line[k..k + 4][3] == line[p];
  }

  /** Without a `:` there is neither a header nor a legacy due text. */
  lemma NoColon(line: string)
    requires ':' !in line
    ensures MatchHeader(line).None? && LegacyDue(line).None?
  {
    if LegacyDue(line).Some? {
      var p := LegacyColon(line);
    }
  }

  /** A line that neither starts nor ends with a blank is its own `strip()`. */
  lemma Unpadded(line: string)
    requires line != [] && !IsSpace(line[0]) && !IsSpace(line[|line| - 1])
    ensures Strip(line) == line
  {
    StrippedIsFixed(line);
  }

  lemma WordNoParen(w: string)
    requires WordRun(w)
    ensures '(' !in w && ')' !in w && ':' !in w && !IsSpace(w[0])
  {
  }

  lemma SpaceNoParen(s: string)
    requires AllSpace(s)
    ensures '(' !in s && ')' !in s && ':' !in s
  {
  }

  lemma DigitsNoParen(s: string)
    requires AllDigits(s)
    ensures '(' !in s && ')' !in s && ':' !in s
  {
  }

  /** A line beginning `Due:` is not a header: the code run stops at the `:`, with no `/` before it. */
  lemma DueNotHeader(line: string, rest: string)
    requires line == "Due:" + rest
    ensures MatchHeader(line).None?
  {
    assert line[0] == 'D' && line[1] == 'u' && line[2] == 'e' && line[3] == ':';
    RunEndAt(line, 0, Word, 3);
  }

  // ---------------------------------------------------------------------------
  // How each line is read

  lemma HeaderLineRead(line: string, c1: string, c2: string, s1: string, title: string)
    requires line == HeaderText(c1, c2, s1, title)
    requires WordRun(c1) && WordRun(c2) && SpaceRun(s1)
    requires title != [] && !IsSpace(title[0]) && !IsSpace(title[|title| - 1]) && '(' !in title
    ensures Strip(line) == line && MatchInline(line).None?
    ensures MatchHeader(line).Some? && MatchHeader(line).value == Header(c1 + "/" + c2, title)
  {
    WordNoParen(c1);
    WordNoParen(c2);
    SpaceNoParen(s1);
    assert line == c1 + "/" + c2 + ":" + s1 + title;
    assert '(' !in line;
    assert line[0] == c1[0] && line[|line| - 1] == title[|title| - 1];
    Unpadded(line);
    NoParenNoInline(line);
    HeaderRecognised(c1, c2, s1, title);
  }

  lemma IsoLineRead(line: string, s: string, d: Date)
    requires Valid(d) && line == "Due:" + s + Format(d) && SpaceRun(s)
    ensures Strip(line) == line && MatchIsoDue(line).Some? && MatchIsoDue(line).value == Format(d)
  {
    FormatThenParse(d);
    IsoShapedLineRead(line, s, Format(d));
  }

  /** `Due:`, blanks and ISO-shaped date text, whether or not it names a real day: the matched text. */
  lemma IsoShapedLineRead(line: string, s: string, iso: string)
    requires line == "Due:" + s + iso && SpaceRun(s) && IsoShaped(iso)
    ensures Strip(line) == line && MatchIsoDue(line).Some? && MatchIsoDue(line).value == iso
  {
    assert line[0] == 'D' && line[|line| - 1] == iso[9];
    assert IsDigit(iso[8..][1]);
    Unpadded(line);
    IsoDueRecognised(s, iso);
  }

  lemma TitleLineRead(title: string)
    requires title != [] && !IsSpace(title[0]) && !IsSpace(title[|title| - 1])
    requires '(' !in title && ':' !in title
    ensures Strip(title) == title && MatchInline(title).None? && MatchHeader(title).None? && LegacyDue(title).None?
  {
    Unpadded(title);
    NoParenNoInline(title);
    NoColon(title);
  }

  lemma LegacyDueLineRead(line: string, s: string, g: DmyGroup)
    requires line == LegacyText(s, g) && SpaceRun(s) && WellFormedDmy(g)
    ensures Strip(line) == line && MatchInline(line).None? && MatchHeader(line).None? && !IsLegacyTitle(line)
    ensures LegacyDue(line).Some? && LegacyDue(line).value == g
  {
    var rest := s + g.day + "/" + g.month + "/" + g.year;
    SpaceNoParen(s);
    DigitsNoParen(g.day);
    DigitsNoParen(g.month);
    DigitsNoParen(g.year);
    assert line == "Due:" + rest;
    assert '(' !in line;
    assert line[0] == 'D' && line[|line| - 1] == g.year[3];
    Unpadded(line);
    NoParenNoInline(line);
    DueNotHeader(line, rest);
    assert StartsWith(line, "Due");
    assert "" + line + "" == line;
    LegacyDueRecognised("", s, g, "");
  }

  /** A header line followed by an ISO due line naming a real date is read as the pair. */
  lemma SplitStepAt(lines: seq<string>, i: nat, held: Option<string>, code: string, title: string, d: Date)
    requires i + 1 < |lines| && Valid(d) && Strip(lines[i]) != []
    requires MatchInline(Strip(lines[i])).None?
    requires MatchHeader(Strip(lines[i])).Some? && MatchHeader(Strip(lines[i])).value == Header(code, title)
    requires MatchIsoDue(Strip(lines[i + 1])).Some? && MatchIsoDue(Strip(lines[i + 1])).value == Format(d)
    ensures KindAt(lines, i) == SplitKind(Label(code, title), Format(d), d)
    ensures StepAt(lines, i, held) == Step(2, Some(Label(code, title)), Some(Found(Label(code, title), d)))
  {
    FormatThenParse(d);
  }

  /** A line that is neither an inline entry nor a header is read by the legacy patterns. */
  lemma LegacyKindAt(lines: seq<string>, i: nat)
    requires i < |lines| && Strip(lines[i]) != []
    requires MatchInline(Strip(lines[i])).None? && MatchHeader(Strip(lines[i])).None?
    ensures var line := Strip(lines[i]);
      KindAt(lines, i) == LegacyKind(None, LegacyTitle(line), LegacyDate(line))
  {
  }

  /**
   * A `Due: D/M/YYYY` line on its own: the cursor moves by one and
   * `current_assignment` is kept, whichever line set it. With no name held
   * nothing is found; with a name held, the date is found under it exactly
   * when `%d/%m/%Y` accepts it.
   */
  lemma HeldDueLine(lines: seq<string>, i: nat, held: Option<string>, s: string, g: DmyGroup)
    requires i < |lines| && lines[i] == LegacyText(s, g) && SpaceRun(s) && WellFormedDmy(g)
    ensures var st := StepAt(lines, i, held);
      var d := DmyDate(g.day, g.month, g.year);
      st.advance == 1 && st.held == held
      && (held.None? ==> st.found.None?)
      && (held.Some? && held.value != [] ==> (st.found.Some? <==> d.Some?))
      && (held.Some? && held.value != [] && d.Some? ==> st.found.value == Found(held.value, d.value))
  {
    LegacyDueLineRead(lines[i], s, g);
    LegacyKindAt(lines, i);
    DueOnlyStep(lines, i, held, DmyDate(g.day, g.month, g.year));
  }

  /** A line read as a legacy due date only: the date is found under the name held, if there is one. */
  lemma DueOnlyStep(lines: seq<string>, i: nat, held: Option<string>, d: Option<Date>)
    requires i < |lines| && KindAt(lines, i) == LegacyKind(None, None, Some(d))
    ensures var st := StepAt(lines, i, held);
      st.advance == 1 && st.held == held
      && (held.None? ==> st.found.None?)
      && (held.Some? && held.value != [] ==> (st.found.Some? <==> d.Some?))
      && (held.Some? && held.value != [] && d.Some? ==> st.found.value == Found(held.value, d.value))
  {
  }

  /** A line that none of the patterns reads moves the cursor by one, keeps `current_assignment` and finds nothing. */
  lemma UnreadLine(lines: seq<string>, i: nat, held: Option<string>)
    requires i < |lines| && Strip(lines[i]) != []
    requires MatchInline(Strip(lines[i])).None? && MatchHeader(Strip(lines[i])).None?
    requires !IsLegacyTitle(Strip(lines[i])) && LegacyDue(Strip(lines[i])).None?
    ensures StepAt(lines, i, held) == Step(1, held, None)
  {
    LegacyKindAt(lines, i);
  }

  /** A `Set …` line (without `(` or `:`) is kept out of the titles, even with ` - ` in it, and leaves `current_assignment` alone. */
  lemma SetLine(lines: seq<string>, i: nat, held: Option<string>, rest: string)
    requires i < |lines| && lines[i] == "Set" + rest
    requires rest != [] && !IsSpace(rest[|rest| - 1]) && '(' !in rest && ':' !in rest
    ensures StepAt(lines, i, held) == Step(1, held, None)
  {
    var line := lines[i];
    assert line[0] == 'S' && line[|line| - 1] == rest[|rest| - 1];
    assert '(' !in line && ':' !in line;
    assert StartsWith(line, "Set");
    TitleLineRead(line);
    UnreadLine(lines, i, held);
  }

  /**
   * A header whose next line is an ISO-shaped due line naming no real date
   * (`Due: 2025-02-30`): the pair is not consumed. The cursor moves by one,
   * the header's `code: title` is held (unless the line is also a legacy
   * title), and the line goes on to the legacy patterns.
   */
  lemma HeaderBadIsoLines(lines: seq<string>, i: nat, held: Option<string>,
                          c1: string, c2: string, s1: string, title: string, s: string, iso: string)
    requires i + 1 < |lines| && lines[i] == HeaderText(c1, c2, s1, title) && lines[i + 1] == "Due:" + s + iso
    requires WordRun(c1) && WordRun(c2) && SpaceRun(s1) && SpaceRun(s)
    requires title != [] && !IsSpace(title[0]) && !IsSpace(title[|title| - 1]) && '(' !in title
    requires IsoShaped(iso) && ParseIso(iso).None?
    ensures var line := lines[i];
      var name := Label(c1 + "/" + c2, title);
      var st := StepAt(lines, i, held);
      KindAt(lines, i) == LegacyKind(Some(name), LegacyTitle(line), LegacyDate(line))
      && st.advance == 1
      && st.held == (if IsLegacyTitle(line) then Some(line) else Some(name))
  {
    var line := lines[i];
    var next := lines[i + 1];
    HeaderLineRead(line, c1, c2, s1, title);
    IsoShapedLineRead(next, s, iso);
    HeaderNoDateKind(lines, i, c1 + "/" + c2, title, iso);
    LegacyStepAt(lines, i, held);
  }

  /** A line read by the legacy patterns moves the cursor by one and holds its title, else its header, else what was held. */
  lemma LegacyStepAt(lines: seq<string>, i: nat, held: Option<string>)
    requires i < |lines| && KindAt(lines, i).LegacyKind?
    ensures var k := KindAt(lines, i);
      var st := StepAt(lines, i, held);
      st.advance == 1 && st.held == (if k.title.Some? then k.title else if k.header.Some? then k.header else held)
  {
  }

  /** A header line whose next line is an ISO due line naming no real date is read as the header over a legacy line. */
  lemma HeaderNoDateKind(lines: seq<string>, i: nat, code: string, title: string, iso: string)
    requires i + 1 < |lines| && Strip(lines[i]) != [] && MatchInline(Strip(lines[i])).None?
    requires MatchHeader(Strip(lines[i])).Some? && MatchHeader(Strip(lines[i])).value == Header(code, title)
    requires MatchIsoDue(Strip(lines[i + 1])).Some? && MatchIsoDue(Strip(lines[i + 1])).value == iso
    requires ParseIso(iso).None?
    ensures var line := Strip(lines[i]);
      KindAt(lines, i) == LegacyKind(Some(Label(code, title)), LegacyTitle(line), LegacyDate(line))
  {
  }

  /** `2025-02-30` has the ISO shape but names no day. */
  lemma NoSuchIsoDay()
    ensures IsoShaped("2025-02-30") && ParseIso("2025-02-30").None?
  {
    var t := "2025-02-30";
    assert t[..4] == "2025" && t[5..7] == "02" && t[8..] == "30";
    assert DigitsValue("2025") == 2025 by { assert "2025"[..3] == "202"; assert "202"[..2] == "20"; assert "20"[..1] == "2"; }
    assert DigitsValue("02") == 2 by { assert "02"[..1] == "0"; }
    assert DigitsValue("30") == 30 by { assert "30"[..1] == "3"; }
  }

  // ---------------------------------------------------------------------------
  // The three layouts

  /**
   * An inline entry `code: title (Due D Mon YYYY)` sets `current_assignment`
   * to `code: title` and yields a dated assignment under that name exactly
   * when `%d %b %Y` accepts the date; the cursor moves by one line.
   */
  lemma InlineLine(lines: seq<string>, i: nat, held: Option<string>,
                   c1: string, c2: string, s1: string, title: string, s2: string, g: DateGroup, w: Gaps)
    requires i < |lines| && lines[i] == InlineText(c1, c2, s1, title, s2, g, w)
    requires WordRun(c1) && WordRun(c2) && SpaceRun(s1) && AllSpace(s2)
    requires title != [] && !IsSpace(title[0]) && !IsSpace(title[|title| - 1]) && '(' !in title
    requires WellFormedGroup(g) && forall k :: 0 <= k < 3 ==> IsAsciiLetter(g.month[k])
    requires WellGaps(w)
    ensures var name := Label(c1 + "/" + c2, title);
      var d := DayMonYearDate(g.day, g.month, g.year);
      var s := StepAt(lines, i, held);
      s.advance == 1 && s.held == Some(name)
      && (s.found.Some? <==> d.Some?)
      && (d.Some? ==> s.found.value == Found(name, d.value))
  {
    var line := lines[i];
    WordNoParen(c1);
    assert line[0] == c1[0];
    assert line[|line| - 1] == ')';
    Unpadded(line);
    InlineRecognised(c1, c2, s1, title, s2, g, w);
  }

  /**
   * A header `code: title` followed by `Due: YYYY-MM-DD` naming a real date
   * yields that date under `code: title` and moves the cursor past both lines.
   */
  lemma HeaderThenIsoLines(lines: seq<string>, i: nat, held: Option<string>,
                           c1: string, c2: string, s1: string, title: string, s: string, d: Date)
    requires Valid(d) && i + 1 < |lines| && lines[i] == HeaderText(c1, c2, s1, title) && lines[i + 1] == "Due:" + s + Format(d)
    requires WordRun(c1) && WordRun(c2) && SpaceRun(s1) && SpaceRun(s)
    requires title != [] && !IsSpace(title[0]) && !IsSpace(title[|title| - 1]) && '(' !in title
    ensures var name := Label(c1 + "/" + c2, title);
      StepAt(lines, i, held) == Step(2, Some(name), Some(Found(name, d)))
  {
    HeaderLineRead(lines[i], c1, c2, s1, title);
    IsoLineRead(lines[i + 1], s, d);
    SplitStepAt(lines, i, held, c1 + "/" + c2, title, d);
  }

  /**
   * A legacy title line (with ` - ` in it) becomes `current_assignment`, and a
   * following `Due: D/M/YYYY` line yields that date under the title when
   * `%d/%m/%Y` accepts it; each line moves the cursor by one.
   */
  lemma LegacyLines(lines: seq<string>, i: nat, held: Option<string>, title: string, s: string, g: DmyGroup)
    requires i + 1 < |lines| && lines[i] == title && lines[i + 1] == LegacyText(s, g)
    requires title != [] && !IsSpace(title[0]) && !IsSpace(title[|title| - 1])
    requires IsLegacyTitle(title) && '(' !in title && ':' !in title
    requires SpaceRun(s) && WellFormedDmy(g)
    ensures var first := StepAt(lines, i, held);
      var second := StepAt(lines, i + 1, first.held);
      var d := DmyDate(g.day, g.month, g.year);
      first == Step(1, Some(title), None)
      && second.advance == 1 && second.held == Some(title)
      && (second.found.Some? <==> d.Some?)
      && (d.Some? ==> second.found.value == Found(title, d.value))
  {
    TitleLineRead(title);
    LegacyKindAt(lines, i);
    LegacyDueLineRead(lines[i + 1], s, g);
    LegacyKindAt(lines, i + 1);
  }

  /**
   * A legacy title keeps `current_assignment` across lines the patterns do
   * not read: with a `Set …` line between the title and its `Due: D/M/YYYY`
   * line, the date is still found under the title.
   */
  lemma LegacyLinesAcrossSet(lines: seq<string>, i: nat, held: Option<string>, title: string, rest: string,
                             s: string, g: DmyGroup)
    requires i + 2 < |lines| && lines[i] == title && lines[i + 1] == "Set" + rest && lines[i + 2] == LegacyText(s, g)
    requires title != [] && !IsSpace(title[0]) && !IsSpace(title[|title| - 1])
    requires IsLegacyTitle(title) && '(' !in title && ':' !in title
    requires rest != [] && !IsSpace(rest[|rest| - 1]) && '(' !in rest && ':' !in rest
    requires SpaceRun(s) && WellFormedDmy(g)
    ensures var first := StepAt(lines, i, held);
      var second := StepAt(lines, i + 1, first.held);
      var third := StepAt(lines, i + 2, second.held);
      var d := DmyDate(g.day, g.month, g.year);
      first == Step(1, Some(title), None) && second == Step(1, Some(title), None)
      && third.advance == 1 && third.held == Some(title)
      && (third.found.Some? <==> d.Some?)
      && (d.Some? ==> third.found.value == Found(title, d.value))
  {
    TitleLineRead(title);
    LegacyKindAt(lines, i);
    SetLine(lines, i + 1, Some(title), rest);
    HeldDueLine(lines, i + 2, Some(title), s, g);
  }
}
