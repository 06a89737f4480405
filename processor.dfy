/**
 * `process_document` and `parse_assignments_and_schedule`: cut the
 * assignment section out of the scraped page, walk its lines, and replace
 * the user's pending reminders with one row per dated assignment whose
 * reminder day is still ahead.
 *
 * The decision taken on one line is the function `StepAt`; the whole walk is
 * the function `Run`; `ParseAndSchedule` is the loop that changes the store
 * and is proved to leave it as `Run` says.
 */
module Processor {
  import opened Options
  import opened Text
  import opened Dates
  import opened Formats
  import opened Store

  /** `f"{subject_code}: {assignment_name}"`, the name a reminder is stored under. */
  function Label(code: string, title: string): string
  {
    code + ": " + title
  }

  /**
   * A dated assignment the loop meets: the name it is stored under and its
   * due date. The row stores the date as `YYYY-MM-DD`; for the header and
   * ISO due line form that is the matched text itself (`WellKind`).
   */
  datatype Found = Found(name: string, due: Date)

  /** What one pass of the loop body decides at a line: how far to move, `current_assignment` after it, and the dated assignment found. */
  datatype Step = Step(advance: nat, held: Option<string>, found: Option<Found>)

  predicate WellFound(f: Found)
  {
    Valid(f.due)
  }

  /**
   * What the patterns read at a line, before `current_assignment` is
   * consulted: a blank line; an inline entry with its label and its date when
   * that exists; a header and ISO due line whose date exists; or otherwise the
   * header label that was set (its date did not exist), the line itself when it
   * is a legacy title, and the legacy due date when one matched (None inside
   * when it does not exist).
   */
  datatype LineKind =
    | Blank
    | InlineKind(name: string, date: Option<Date>)
    | SplitKind(name: string, iso: string, due: Date)
    | LegacyKind(header: Option<string>, title: Option<string>, legacy: Option<Option<Date>>)

  predicate WellKind(k: LineKind)
  {
    match k
    case Blank => true
    case InlineKind(_, d) => d.Some? ==> Valid(d.value)
    case SplitKind(_, iso, d) => Valid(d) && iso == Format(d)
    case LegacyKind(_, _, g) => g.Some? && g.value.Some? ==> Valid(g.value.value)
  }

  /** The patterns applied to line `i`, which may look at line `i + 1`. */
  function KindAt(lines: seq<string>, i: nat): (k: LineKind)
    requires i < |lines|
    ensures WellKind(k)
    ensures k.SplitKind? ==> i + 1 < |lines|
  {
    var line := Strip(lines[i]);
    if line == [] then Blank
    else
      match MatchInline(line)
      case Some(e) =>
        InlineKind(Label(e.code, e.title), DayMonYearDate(e.date.day, e.date.month, e.date.year))
      case None => HeaderKind(lines, i, line)
  }

  /** A header line followed by an ISO due line, or else the legacy reading of the line. */
  function HeaderKind(lines: seq<string>, i: nat, line: string): (k: LineKind)
    requires i < |lines|
    ensures WellKind(k)
    ensures k.SplitKind? || k.LegacyKind?
    ensures k.SplitKind? <==> (MatchHeader(line).Some? && i + 1 < |lines| && MatchIsoDue(Strip(lines[i + 1])).Some?
                               && ParseIso(MatchIsoDue(Strip(lines[i + 1])).value).Some?)
    ensures k.SplitKind? ==> i + 1 < |lines|
    ensures k.LegacyKind? ==> k.title == LegacyTitle(line) && k.legacy == LegacyDate(line)
    ensures k.LegacyKind? ==> (k.header.Some? <==> MatchHeader(line).Some? && i + 1 < |lines| && MatchIsoDue(Strip(lines[i + 1])).Some?)
    ensures k.LegacyKind? && k.header.Some? ==>
      MatchHeader(line).Some? && k.header.value == Label(MatchHeader(line).value.code, MatchHeader(line).value.title)
  {
    var h := MatchHeader(line);
    if h.Some? && i + 1 < |lines| && MatchIsoDue(Strip(lines[i + 1])).Some? then
      var name := Label(h.value.code, h.value.title);
      var iso := MatchIsoDue(Strip(lines[i + 1])).value;
      var d := ParseIso(iso);
      if d.Some? then
        ParseThenFormat(iso);
        SplitKind(name, iso, d.value)
      else LegacyKind(Some(name), LegacyTitle(line), LegacyDate(line))
    else LegacyKind(None, LegacyTitle(line), LegacyDate(line))
  }

  function LegacyTitle(line: string): Option<string>
  {
    if IsLegacyTitle(line) then Some(line) else None
  }

  /** The `%d/%m/%Y` date of the legacy due text, when the search finds one. */
  function LegacyDate(line: string): (r: Option<Option<Date>>)
    ensures r.Some? && r.value.Some? ==> Valid(r.value.value)
  {
    match LegacyDue(line)
    case None => None
    case Some(g) => Some(DmyDate(g.day, g.month, g.year))
  }

  /** The loop body's decision, given the reading of the line and `current_assignment`. */
  function StepOf(k: LineKind, held: Option<string>): (s: Step)
    requires WellKind(k)
    ensures s.advance == (if k.SplitKind? then 2 else 1)
    ensures s.found.Some? ==> WellFound(s.found.value)
    ensures s.found.Some? ==> s.held.Some? && s.held.value == s.found.value.name
    ensures held.Some? ==> s.held.Some?
    ensures k.Blank? ==> s.held == held && s.found.None?
    ensures k.LegacyKind? ==> s.held == (if k.title.Some? then k.title else if k.header.Some? then k.header else held)
    ensures k.LegacyKind? ==> (s.found.Some? <==> s.held.Some? && s.held.value != [] && k.legacy.Some? && k.legacy.value.Some?)
  {
    match k
    case Blank => Step(1, held, None)
    case InlineKind(name, d) =>
      Step(1, Some(name), if d.Some? then Some(Found(name, d.value)) else None)
    case SplitKind(name, _, d) => Step(2, Some(name), Some(Found(name, d)))
    case LegacyKind(header, title, g) =>
      var current := if title.Some? then title else if header.Some? then header else held;
      if current.Some? && current.value != [] && g.Some? then
        Step(1, current, if g.value.Some? then Some(Found(current.value, g.value.value)) else None)
      else Step(1, current, None)
  }

  /** The loop body at line `i`, given `current_assignment` as it stands. */
  function StepAt(lines: seq<string>, i: nat, held: Option<string>): (s: Step)
    requires i < |lines|
    ensures s.advance == 1 || (s.advance == 2 && i + 1 < |lines|)
    ensures s.found.Some? ==> WellFound(s.found.value)
  {
    StepOf(KindAt(lines, i), held)
  }

  /** What the loop does with a found date: store a row, pass over a reminder day already reached, or raise OverflowError. */
  datatype Action = Insert(row: Reminder) | Pass | Overflow

  /** A stored row whose texts read back as dates, the reminder `days` before the due date, on a day after today. */
  predicate WellScheduled(row: Reminder, days: int, now: Moment)
  {
    var due := ParseIso(row.due);
    var on := ParseIso(row.remindOn);
    due.Some? && on.Some? && Valid(due.value)
    && MinusDays(due.value, days).Some? && MinusDays(due.value, days).value == on.value
    && Before(now.date, on.value)
  }

  /** `reminder_date = due_date - timedelta(days)`, then the row is added only if its midnight is after `now`. */
  function Schedule(f: Found, id: string, days: int, now: Moment): (a: Action)
    requires WellFound(f)
    ensures a.Insert? ==> IsPendingOf(a.row, id) && a.row.assignment == f.name
  {
    match MinusDays(f.due, days)
    case None => Overflow
    case Some(r) =>
      if MidnightAfter(r, now) then Insert(Reminder(id, f.name, Format(f.due), Format(r), false))
      else Pass
  }

  /**
   * The date arithmetic raises exactly when the reminder day falls outside
   * the calendar; a row is added exactly when the reminder day is later than
   * today, and what it stores reads back as the due date and that day.
   */
  lemma ScheduleSpec(f: Found, id: string, days: int, now: Moment)
    requires WellFound(f)
    ensures var a := Schedule(f, id, days, now);
      (a.Overflow? <==> MinusDays(f.due, days).None?)
      && (a.Insert? <==> MinusDays(f.due, days).Some? && Before(now.date, MinusDays(f.due, days).value))
      && (a.Insert? ==> WellScheduled(a.row, days, now) && ParseIso(a.row.due) == Some(f.due))
  {
    var m := MinusDays(f.due, days);
    if m.Some? {
      FormatThenParse(f.due);
      FormatThenParse(m.value);
    }
  }

  /** The rows the walk adds, and whether it stopped on an OverflowError. */
  datatype Outcome = Outcome(rows: seq<Reminder>, overflow: bool)

  /** The readings of every line, in order. */
  function Kinds(lines: seq<string>, i: nat): (ks: seq<LineKind>)
    requires i <= |lines|
    ensures |ks| == |lines| - i
    ensures WellKinds(ks)
    decreases |lines| - i
  {
    if i == |lines| then []
    else
      [KindAt(lines, i)] + Kinds(lines, i + 1)
  }

  /** Every reading is well formed and a header reading is never on the last line. */
  predicate WellKinds(ks: seq<LineKind>)
  {
    (forall j :: 0 <= j < |ks| ==> WellKind(ks[j])) && (|ks| > 0 ==> !ks[|ks| - 1].SplitKind?)
  }

  /** A reading in a well-formed sequence is well formed, and a header reading has its due line after it. */
  lemma KindIn(ks: seq<LineKind>, i: nat)
    requires WellKinds(ks) && i < |ks|
    ensures WellKind(ks[i]) && (ks[i].SplitKind? ==> i + 1 < |ks|)
  {
  }

  predicate AllWellFound(fs: seq<Found>)
  {
    forall f | f in fs :: WellFound(f)
  }

  /** The dated assignments the loop meets from line `i` on, in order, with `current_assignment` as `held`. */
  function Founds(ks: seq<LineKind>, i: nat, held: Option<string>): (fs: seq<Found>)
    requires i <= |ks| && WellKinds(ks)
    ensures AllWellFound(fs)
    decreases |ks| - i
  {
    if i == |ks| then []
    else
      var s := StepOf(ks[i], held);
      (if s.found.Some? then [s.found.value] else []) + Founds(ks, i + s.advance, s.held)
  }

  /** The action each dated assignment asks for, in order. */
  function Actions(fs: seq<Found>, id: string, days: int, now: Moment): (acts: seq<Action>)
    requires AllWellFound(fs)
    ensures |acts| == |fs|
  {
    if fs == [] then [] else [Schedule(fs[0], id, days, now)] + Actions(fs[1..], id, days, now)
  }

  /** The action at position `j` is the one `Schedule` gives for the `j`-th dated assignment. */
  lemma {:induction false} ActionsAt(fs: seq<Found>, j: nat, id: string, days: int, now: Moment)
    requires AllWellFound(fs) && j < |fs|
    ensures Actions(fs, id, days, now)[j] == Schedule(fs[j], id, days, now)
  {
    if j > 0 {
      ActionsAt(fs[1..], j - 1, id, days, now);
    }
  }

  /** Carrying out actions in order: rows are added until the first OverflowError, which ends the run. */
  function Collect(acts: seq<Action>): (r: Outcome)
    ensures r.overflow <==> Overflow in acts
  {
    if acts == [] then Outcome([], false)
    else
      assert acts == [acts[0]] + acts[1..];
      match acts[0]
      case Overflow => Outcome([], true)
      case Pass => Collect(acts[1..])
      case Insert(row) =>
        var rest := Collect(acts[1..]);
        Outcome([row] + rest.rows, rest.overflow)
  }

  /** One action carried out: an overflow ends the run, otherwise its row, if any, joins the rows added so far. */
  lemma CollectFirst(acts: seq<Action>, j: nat, added: seq<Reminder>, spec: Outcome)
    requires j < |acts|
    requires spec == Outcome(added + Collect(acts[j..]).rows, Collect(acts[j..]).overflow)
    ensures acts[j].Overflow? ==> spec == Outcome(added, true)
    ensures !acts[j].Overflow? ==>
      var rest := Collect(acts[j + 1..]);
      spec == Outcome(added + (if acts[j].Insert? then [acts[j].row] else []) + rest.rows, rest.overflow)
  {
    assert acts[j..][0] == acts[j] && acts[j..][1..] == acts[j + 1..];
    var rest := Collect(acts[j + 1..]);
    if acts[j].Insert? {
      assert added + ([acts[j].row] + rest.rows) == added + [acts[j].row] + rest.rows;
    } else {
      assert added + [] == added;
    }
  }

  /** The dated assignments scheduled in order until the first OverflowError: the rows added and whether it raised. */
  function Apply(fs: seq<Found>, id: string, days: int, now: Moment): Outcome
    requires AllWellFound(fs)
  {
    Collect(Actions(fs, id, days, now))
  }

  /** Every row the scheduling adds is a row `Schedule` inserts for one of the dates, so it has any property all such rows have. */
  lemma {:induction false} ApplyKeeps(P: Reminder -> bool, fs: seq<Found>, id: string, days: int, now: Moment)
    requires AllWellFound(fs)
    requires forall f: Found | WellFound(f) && Schedule(f, id, days, now).Insert? :: P(Schedule(f, id, days, now).row)
    ensures forall k :: 0 <= k < |Collect(Actions(fs, id, days, now)).rows| ==> P(Collect(Actions(fs, id, days, now)).rows[k])
  {
    if fs != [] {
      var acts := Actions(fs, id, days, now);
      var a := Schedule(fs[0], id, days, now);
      assert acts[0] == a && acts[1..] == Actions(fs[1..], id, days, now);
      if !a.Overflow? {
        ApplyKeeps(P, fs[1..], id, days, now);
        var added := if a.Insert? then [a.row] else [];
        KeepsConcat(P, added, Collect(acts[1..]).rows);
      }
    }
  }

  lemma KeepsConcat(P: Reminder -> bool, xs: seq<Reminder>, ys: seq<Reminder>)
    requires forall k :: 0 <= k < |xs| ==> P(xs[k])
    requires forall k :: 0 <= k < |ys| ==> P(ys[k])
    ensures forall k :: 0 <= k < |xs + ys| ==> P((xs + ys)[k])
  {
  }

  /** The walk over all the lines of `content`. */
  function Run(content: string, id: string, days: int, now: Moment): Outcome
  {
    Apply(Founds(Kinds(SplitLines(content), 0), 0, None), id, days, now)
  }

  /** Every row the walk adds is a pending reminder of the user the page belongs to. */
  lemma RunPending(content: string, id: string, days: int, now: Moment)
    ensures AllPendingOf(Run(content, id, days, now).rows, id)
  {
    var fs := Founds(Kinds(SplitLines(content), 0), 0, None);
    ApplyKeeps(row => IsPendingOf(row, id), fs, id, days, now);
  }

  /** `parse_assignments_and_schedule`: the store afterwards, and whether it raised. */
  function Parsed(rows: seq<Reminder>, users: seq<User>, content: string, id: string, now: Moment): Outcome
  {
    var out := Run(content, id, ReminderDays(users, id), now);
    RunPending(content, id, ReminderDays(users, id), now);
    Outcome(WithoutPending(rows, id) + out.rows, out.overflow)
  }

  /** Applies the action for one dated assignment to the store; true when the date arithmetic raised. */
  method Remind(store: ReminderStore, f: Found, id: string, days: int, now: Moment) returns (overflow: bool)
    requires WellFound(f)
    modifies store
    ensures var a := Schedule(f, id, days, now);
      overflow == a.Overflow?
      && store.reminders == old(store.reminders) + (if a.Insert? then [a.row] else [])
    ensures store.users == old(store.users)
  {
    var r := MinusDays(f.due, days);
    if r.None? {
      return true;
    }
    overflow := false;
    if MidnightAfter(r.value, now) {
      store.AddReminder(id, f.name, Format(f.due), Format(r.value));
    }
  }

  lemma AppendAssoc(a: seq<Reminder>, b: seq<Reminder>, c: seq<Reminder>)
    ensures a + b + c == a + (b + c)
  {
  }

  /** The dated assignments from line `i` on are those of line `i`, then those from where the cursor moves. */
  lemma FoundsFirst(ks: seq<LineKind>, i: nat, held: Option<string>)
    requires i < |ks| && WellKinds(ks)
    ensures var s := StepOf(ks[i], held);
      Founds(ks, i, held) == (if s.found.Some? then [s.found.value] else []) + Founds(ks, i + s.advance, s.held)
  {
  }

  /** `acts[k]` is the action `Schedule` gives for the `k`-th dated assignment. */
  ghost predicate Planned(fs: seq<Found>, acts: seq<Action>, k: int, id: string, days: int, now: Moment)
  {
    0 <= k < |fs| && k < |acts| && WellFound(fs[k]) && acts[k] == Schedule(fs[k], id, days, now)
  }

  /** `acts` holds the action of every dated assignment of `fs`, in order. */
  ghost predicate PlannedAll(fs: seq<Found>, acts: seq<Action>, id: string, days: int, now: Moment)
  {
    |acts| == |fs| && forall k :: 0 <= k < |fs| ==> Planned(fs, acts, k, id, days, now)
  }

  lemma ActionsPlanned(fs: seq<Found>, id: string, days: int, now: Moment)
    requires AllWellFound(fs)
    ensures PlannedAll(fs, Actions(fs, id, days, now), id, days, now)
  {
    forall k | 0 <= k < |fs|
      ensures Planned(fs, Actions(fs, id, days, now), k, id, days, now)
    {
      ActionsAt(fs, k, id, days, now);
    }
  }

  /**
   * The loop's bookkeeping at line `i`: `fs[j..]` are the dated assignments
   * still ahead, `acts` the actions of all of them, and the run's outcome
   * `spec` is the rows `added` so far followed by what the actions still
   * ahead give.
   */
  ghost predicate Tracking(kinds: seq<LineKind>, i: nat, held: Option<string>, id: string, days: int, now: Moment,
                           fs: seq<Found>, acts: seq<Action>, j: nat, added: seq<Reminder>, spec: Outcome)
  {
    i <= |kinds| && WellKinds(kinds) && j <= |fs| && PlannedAll(fs, acts, id, days, now)
    && fs[j..] == Founds(kinds, i, held)
    && spec == Outcome(added + Collect(acts[j..]).rows, Collect(acts[j..]).overflow)
  }

  lemma TrackingStart(kinds: seq<LineKind>, id: string, days: int, now: Moment, acts: seq<Action>)
    requires WellKinds(kinds) && PlannedAll(Founds(kinds, 0, None), acts, id, days, now)
    ensures Tracking(kinds, 0, None, id, days, now, Founds(kinds, 0, None), acts, 0, [], Collect(acts))
  {
    var fs := Founds(kinds, 0, None);
    assert fs[0..] == fs && acts[0..] == acts;
    assert [] + Collect(acts).rows == Collect(acts).rows;
  }

  lemma TrackingDone(kinds: seq<LineKind>, held: Option<string>, id: string, days: int, now: Moment,
                     fs: seq<Found>, acts: seq<Action>, j: nat, added: seq<Reminder>, spec: Outcome)
    requires Tracking(kinds, |kinds|, held, id, days, now, fs, acts, j, added, spec)
    ensures spec == Outcome(added, false)
  {
    assert |fs[j..]| == 0;
    assert acts[j..] == [];
    assert added + [] == added;
  }

  /**
   * One pass of the loop body at line `i`: the cursor's move and
   * `current_assignment` after it, with the dated assignment of the line, if
   * any, handed to the store, which holds the rows `added` on top of `base`.
   */
  method LineStep(store: ReminderStore, kinds: seq<LineKind>, i: nat, held: Option<string>, id: string, days: int, now: Moment,
                  ghost fs: seq<Found>, ghost acts: seq<Action>, ghost j: nat, ghost base: seq<Reminder>, ghost added: seq<Reminder>,
                  ghost spec: Outcome)
    returns (step: Step, raised: bool, ghost j': nat, ghost added': seq<Reminder>)
    requires i < |kinds| && Tracking(kinds, i, held, id, days, now, fs, acts, j, added, spec)
    requires store.reminders == base + added
    modifies store
    ensures step == StepOf(kinds[i], held) && i + step.advance <= |kinds|
    ensures store.users == old(store.users)
    ensures raised ==> store.reminders == base + added && spec == Outcome(added, true)
    ensures !raised ==>
      store.reminders == base + added'
      && Tracking(kinds, i + step.advance, step.held, id, days, now, fs, acts, j', added', spec)
  {
    KindIn(kinds, i);
    step := StepOf(kinds[i], held);
    FoundsFirst(kinds, i, held);
    ghost var next := Founds(kinds, i + step.advance, step.held);
    j', added' := j, added;
    raised := false;
    if step.found.Some? {
      var f := step.found.value;
      assert fs[j..] == [f] + next;
      assert fs[j..][0] == f && fs[j..][1..] == fs[j + 1..];
      assert fs[j + 1..] == next;
      assert Planned(fs, acts, j, id, days, now);
      CollectFirst(acts, j, added, spec);
      ghost var row := if acts[j].Insert? then [acts[j].row] else [];
      raised := Remind(store, f, id, days, now);
      if !raised {
        AppendAssoc(base, added, row);
        j', added' := j + 1, added + row;
      }
    } else {
      assert fs[j..] == [] + next == next;
    }
  }

  /**
   * The `while i < len(lines)` loop, over the readings of the lines: each
   * pass handles the dated assignment of its line, if any, whose action is
   * the matching one of `acts`. An OverflowError ends the loop at once, with
   * the rows added so far left in place.
   */
  method WalkLines(store: ReminderStore, kinds: seq<LineKind>, id: string, days: int, now: Moment, ghost acts: seq<Action>)
    returns (overflow: bool)
    requires WellKinds(kinds) && PlannedAll(Founds(kinds, 0, None), acts, id, days, now)
    modifies store
    ensures store.reminders == old(store.reminders) + Collect(acts).rows && overflow == Collect(acts).overflow
    ensures store.users == old(store.users)
  {
    ghost var fs := Founds(kinds, 0, None);
    ghost var spec := Collect(acts);
    ghost var base := store.reminders;
    ghost var added: seq<Reminder> := [];
    ghost var j: nat := 0;
    TrackingStart(kinds, id, days, now, acts);
    assert base + [] == base;
    var held: Option<string> := None;
    var i: nat := 0;
    while i < |kinds|
      invariant Tracking(kinds, i, held, id, days, now, fs, acts, j, added, spec)
      invariant store.users == old(store.users)
      invariant store.reminders == base + added
      decreases |kinds| - i
    {
      var step, raised;
      step, raised, j, added := LineStep(store, kinds, i, held, id, days, now, fs, acts, j, base, added, spec);
      if raised {
        return true;
      }
      i, held := i + step.advance, step.held;
    }
    TrackingDone(kinds, held, id, days, now, fs, acts, j, added, spec);
    return false;
  }

  /**
   * `parse_assignments_and_schedule`: read the lead time, delete the user's
   * pending reminders, then walk the lines. On an OverflowError the deletion
   * and the rows added before it stay in place.
   */
  method ParseAndSchedule(store: ReminderStore, content: string, id: string, now: Moment) returns (overflow: bool)
    modifies store
    ensures var p := Parsed(old(store.reminders), old(store.users), content, id, now);
      store.reminders == p.rows && overflow == p.overflow
    ensures store.users == old(store.users)
  {
    var days := ReminderDays(store.users, id);
    store.ClearUserReminders(id);
    var lines := SplitLines(content);
    var kinds := Kinds(lines, 0);
    ghost var fs := Founds(kinds, 0, None);
    ActionsPlanned(fs, id, days, now);
    overflow := WalkLines(store, kinds, id, days, now, Actions(fs, id, days, now));
  }

  // ---------------------------------------------------------------------------
  // process_document

  const StartMarker := "Overdue Assignments"
  const EndMarker := "Submitted Assignments"
  const DueHeading := "Assignments that are due"

  /** The page after the two headings gain their colons. */
  function Colonised(content: string): (r: string)
    ensures |r| >= |content|
  {
    ReplaceAll(ReplaceAll(content, StartMarker, StartMarker + ":"), DueHeading, DueHeading + ":")
  }

  /** Both headings found in the page as scraped. */
  predicate HasMarkers(content: string)
  {
    Find(content, StartMarker) != -1 && Find(content, EndMarker) != -1
  }

  /** Strip the slice, drop the first `Assignments that are due:` and strip again. */
  function Tidy(slice: string): (r: string)
    ensures |r| <= |slice|
  {
    Strip(ReplaceFirst(Strip(slice), DueHeading + ":", ""))
  }

  /**
   * The section as the code computes it: the slice ends at the index of
   * `Submitted Assignments` in the page BEFORE the colons went in, so it
   * stops one character early for every colon inserted ahead of that heading.
   */
  function SectionAsWritten(content: string): (r: Option<string>)
    ensures r.Some? <==> HasMarkers(content)
  {
    if !HasMarkers(content) then None
    else
      var c := Colonised(content);
      Some(Tidy(PySlice(c, Find(c, StartMarker + ":") + |StartMarker + ":"|, Find(content, EndMarker))))
  }

  /** The section cut at `Submitted Assignments` in the text that is sliced. */
  function Section(content: string): (r: Option<string>)
    ensures r.Some? <==> HasMarkers(content)
  {
    if !HasMarkers(content) then None
    else
      var c := Colonised(content);
      Some(Tidy(PySlice(c, Find(c, StartMarker + ":") + |StartMarker + ":"|, Find(c, EndMarker))))
  }

  /** `process_document` on the page text: the store afterwards and the returned flag. */
  datatype Processed = Processed(rows: seq<Reminder>, ok: bool)

  function Process(rows: seq<Reminder>, users: seq<User>, content: string, id: string, now: Moment): (r: Processed)
    ensures !HasMarkers(content) ==> !r.ok && r.rows == rows
  {
    match SectionAsWritten(content)
    case None => Processed(rows, false)
    case Some(section) =>
      var p := Parsed(rows, users, section, id, now);
      Processed(p.rows, !p.overflow)
  }

  /**
   * `process_document`: false with nothing touched when a heading is
   * missing; otherwise the section is parsed and the result is true unless
   * the parse raised, in which case its changes so far remain.
   */
  method ProcessDocument(store: ReminderStore, content: string, id: string, now: Moment) returns (ok: bool)
    modifies store
    ensures var p := Process(old(store.reminders), old(store.users), content, id, now);
      store.reminders == p.rows && ok == p.ok
    ensures store.users == old(store.users)
    ensures !HasMarkers(content) ==> !ok && store.reminders == old(store.reminders)
  {
    var section := SectionAsWritten(content);
    if section.None? {
      return false;
    }
    var overflow := ParseAndSchedule(store, section.value, id, now);
    ok := !overflow;
  }

  // ---------------------------------------------------------------------------
  // What a run of the parser promises

  /** A parse replaces the user's pending reminders with exactly the rows the walk adds. */
  lemma ParsedReplaces(rows: seq<Reminder>, users: seq<User>, content: string, id: string, now: Moment)
    ensures PendingRows(Parsed(rows, users, content, id, now).rows, id) == Run(content, id, ReminderDays(users, id), now).rows
  {
    var out := Run(content, id, ReminderDays(users, id), now);
    RunPending(content, id, ReminderDays(users, id), now);
    PendingAppended(WithoutPending(rows, id), out.rows, id, id);
    ClearPending(rows, id, id);
  }

  /** A parse for one user leaves every other user's pending reminders, and every sent row, as they were. */
  lemma ProcessKeepsOthers(rows: seq<Reminder>, users: seq<User>, content: string, id: string, u: string, now: Moment)
    requires u != id
    ensures PendingRows(Process(rows, users, content, id, now).rows, u) == PendingRows(rows, u)
    ensures SentRows(Process(rows, users, content, id, now).rows) == SentRows(rows)
  {
    if SectionAsWritten(content).Some? {
      var out := Run(SectionAsWritten(content).value, id, ReminderDays(users, id), now);
      RunPending(SectionAsWritten(content).value, id, ReminderDays(users, id), now);
      PendingAppended(WithoutPending(rows, id), out.rows, id, u);
      ClearPending(rows, id, u);
      SentAppended(WithoutPending(rows, id), out.rows, id);
      ClearKeepsSent(rows, id);
    }
  }

  lemma {:induction false} SentAppended(base: seq<Reminder>, added: seq<Reminder>, id: string)
    requires AllPendingOf(added, id)
    ensures SentRows(base + added) == SentRows(base)
  {
    if added == [] {
      assert base + added == base;
    } else {
      var n := |added| - 1;
      var s := base + added;
      assert s[..|s| - 1] == base + added[..n];
      assert !s[|s| - 1].sent;
      SentAppended(base, added[..n], id);
    }
  }

  /** Processing the same page twice at the same moment leaves the store as processing it once. */
  lemma ProcessIdempotent(rows: seq<Reminder>, users: seq<User>, content: string, id: string, now: Moment)
    ensures var once := Process(rows, users, content, id, now);
      Process(once.rows, users, content, id, now) == once
  {
    if SectionAsWritten(content).Some? {
      var out := Run(SectionAsWritten(content).value, id, ReminderDays(users, id), now);
      RunPending(SectionAsWritten(content).value, id, ReminderDays(users, id), now);
      ClearAppended(WithoutPending(rows, id), out.rows, id);
      ClearIdempotent(rows, id);
    }
  }

  /** Every pending row a parse leaves for the user is due on a real date and reminds on a later day than today. */
  lemma ParsedFutureOnly(rows: seq<Reminder>, users: seq<User>, content: string, id: string, now: Moment)
    ensures var after := PendingRows(Parsed(rows, users, content, id, now).rows, id);
      forall k :: 0 <= k < |after| ==> WellScheduled(after[k], ReminderDays(users, id), now)
  {
    var days := ReminderDays(users, id);
    var fs := Founds(Kinds(SplitLines(content), 0), 0, None);
    ParsedReplaces(rows, users, content, id, now);
    forall f: Found | WellFound(f) && Schedule(f, id, days, now).Insert?
      ensures WellScheduled(Schedule(f, id, days, now).row, days, now)
    {
      ScheduleSpec(f, id, days, now);
    }
    ApplyKeeps(row => WellScheduled(row, days, now), fs, id, days, now);
  }

  /** The cursor moves by two only over a header line followed by an ISO due line; a blank line is skipped with nothing changed. */
  lemma StepCursor(lines: seq<string>, i: nat, held: Option<string>)
    requires i < |lines|
    ensures var s := StepAt(lines, i, held);
      (s.advance == 2 ==> MatchHeader(Strip(lines[i])).Some? && MatchIsoDue(Strip(lines[i + 1])).Some?)
      && (Strip(lines[i]) == [] ==> s.advance == 1 && s.held == held && s.found.None?)
  {
  }
}
