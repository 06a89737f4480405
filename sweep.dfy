/**
 * The two periodic jobs: one pass of the hourly reminder check and the daily
 * fetch for every user. The clock, the Discord API and the browser are
 * inputs: the pass is given today's date and, for each row it fetched,
 * whether the message reached the user; the daily fetch is given, for each
 * user, the page text the browser read or `None` when fetching it raised.
 */
module Sweep {
  import opened Options
  import opened Dates
  import opened Store
  import opened Processor

  // ---------------------------------------------------------------------------
  // check_reminders: one pass

  /** The fetched triples whose message was delivered, in the order they were tried. */
  function Delivered(due: seq<Due>, delivered: seq<bool>): (r: seq<Due>)
    requires |delivered| == |due|
    ensures |r| <= |due|
  {
    if due == [] then []
    else
      var n := |due| - 1;
      var init := Delivered(due[..n], delivered[..n]);
      if delivered[n] then init + [due[n]] else init
  }

  /** `mark_reminder_sent` applied to each triple of `ts` in turn. */
  function MarkAll(rows: seq<Reminder>, ts: seq<Due>): (r: seq<Reminder>)
    ensures |r| == |rows|
  {
    if ts == [] then rows else MarkSent(MarkAll(rows, ts[..|ts| - 1]), ts[|ts| - 1])
  }

  /**
   * One pass of `check_reminders`: the unsent rows reminding on `today` are
   * fetched once and every one of them is tried. Returns the delivered
   * triples.
   */
  method CheckReminders(store: ReminderStore, today: Date, delivered: seq<bool>) returns (sent: seq<Due>)
    requires Valid(today)
    requires |delivered| == |DueOn(store.reminders, Format(today))|
    modifies store
    ensures sent == Delivered(DueOn(old(store.reminders), Format(today)), delivered)
    ensures store.reminders == MarkAll(old(store.reminders), sent)
    ensures store.users == old(store.users)
  {
    var due := DueOn(store.reminders, Format(today));
    sent := TryEach(store, due, delivered);
  }

  /**
   * The loop of a pass: each fetched triple is tried in turn, a failure does
   * not stop the loop, and a triple is marked sent only when its message was
   * delivered.
   */
  method TryEach(store: ReminderStore, due: seq<Due>, delivered: seq<bool>) returns (sent: seq<Due>)
    requires |delivered| == |due|
    modifies store
    ensures sent == Delivered(due, delivered)
    ensures store.reminders == MarkAll(old(store.reminders), sent)
    ensures store.users == old(store.users)
  {
    sent := [];
    var k := 0;
    while k < |due|
      invariant k <= |due|
      invariant sent == Delivered(due[..k], delivered[..k])
      invariant store.reminders == MarkAll(old(store.reminders), sent)
      invariant store.users == old(store.users)
    {
      DeliveredSnoc(due, delivered, k);
      if delivered[k] {
        store.MarkReminderSent(due[k].user, due[k].assignment, due[k].due);
        MarkAllSnoc(old(store.reminders), sent, due[k]);
        sent := sent + [due[k]];
      }
      k := k + 1;
    }
    assert due[..k] == due && delivered[..k] == delivered;
  }

  /** One more try: its triple joins the delivered ones exactly when it got through. */
  lemma DeliveredSnoc(due: seq<Due>, delivered: seq<bool>, k: nat)
    requires |delivered| == |due| && k < |due|
    ensures Delivered(due[..k + 1], delivered[..k + 1])
      == Delivered(due[..k], delivered[..k]) + (if delivered[k] then [due[k]] else [])
  {
    assert due[..k + 1][..k] == due[..k] && delivered[..k + 1][..k] == delivered[..k];
  }

  /** Marking one more triple is marking it on top of the others. */
  lemma MarkAllSnoc(rows: seq<Reminder>, ts: seq<Due>, t: Due)
    ensures MarkAll(rows, ts + [t]) == MarkSent(MarkAll(rows, ts), t)
  {
    assert (ts + [t])[..|ts|] == ts;
  }

  /** A triple is delivered exactly when some try of it succeeded. */
  lemma {:induction false} DeliveredSpec(due: seq<Due>, delivered: seq<bool>, d: Due)
    requires |delivered| == |due|
    ensures d in Delivered(due, delivered) <==> exists k :: 0 <= k < |due| && delivered[k] && due[k] == d
  {
    if due != [] {
      var n := |due| - 1;
      DeliveredSpec(due[..n], delivered[..n], d);
      if exists k :: 0 <= k < |due| && delivered[k] && due[k] == d {
        var k :| 0 <= k < |due| && delivered[k] && due[k] == d;
        if k < n {
          assert delivered[..n][k] && due[..n][k] == d;
        }
      }
      if exists k :: 0 <= k < n && delivered[..n][k] && due[..n][k] == d {
        var k :| 0 <= k < n && delivered[..n][k] && due[..n][k] == d;
        assert delivered[k] && due[k] == d;
      }
    }
  }

  /** Marking a list of triples marks exactly the rows carrying one of them and leaves every other row as it was. */
  lemma {:induction false} MarkAllAt(rows: seq<Reminder>, ts: seq<Due>, i: nat)
    requires i < |rows|
    ensures MarkAll(rows, ts)[i] == if AsDue(rows[i]) in ts then rows[i].(sent := true) else rows[i]
  {
    if ts != [] {
      var n := |ts| - 1;
      var prev := MarkAll(rows, ts[..n]);
      MarkAllAt(rows, ts[..n], i);
      assert AsDue(prev[i]) == AsDue(rows[i]);
      assert ts == ts[..n] + [ts[n]];
      assert AsDue(rows[i]) in ts <==> AsDue(rows[i]) in ts[..n] || AsDue(rows[i]) == ts[n];
    }
  }

  /**
   * After marking, a triple is still due on a date exactly when it was due
   * before and was not among the marked ones.
   */
  lemma StillDue(rows: seq<Reminder>, ts: seq<Due>, date: string, d: Due)
    ensures d in DueOn(MarkAll(rows, ts), date) <==> d in DueOn(rows, date) && d !in ts
  {
    var m := MarkAll(rows, ts);
    if d in DueOn(m, date) {
      var x :| x in m && x.remindOn == date && !x.sent && AsDue(x) == d;
      var i :| 0 <= i < |m| && m[i] == x;
      MarkAllAt(rows, ts, i);
      assert rows[i] in rows;
    }
    if d in DueOn(rows, date) && d !in ts {
      var x :| x in rows && x.remindOn == date && !x.sent && AsDue(x) == d;
      var i :| 0 <= i < |rows| && rows[i] == x;
      MarkAllAt(rows, ts, i);
      assert m[i] in m;
    }
  }

  /**
   * The next pass on the same day retries exactly the triples none of whose
   * tries got through; one delivered try is enough to stop the reminder.
   */
  lemma NextPassRetries(rows: seq<Reminder>, today: Date, delivered: seq<bool>, d: Due)
    requires Valid(today)
    requires |delivered| == |DueOn(rows, Format(today))|
    ensures var due := DueOn(rows, Format(today));
      d in DueOn(MarkAll(rows, Delivered(due, delivered)), Format(today)) <==>
        d in due && forall k :: 0 <= k < |due| && due[k] == d ==> !delivered[k]
  {
    var due := DueOn(rows, Format(today));
    DeliveredSpec(due, delivered, d);
    StillDue(rows, Delivered(due, delivered), Format(today), d);
  }

  /** A pass changes nothing but the sent flag, and only sets it: a sent row stays sent. */
  lemma PassOnlySends(rows: seq<Reminder>, ts: seq<Due>, i: nat)
    requires i < |rows|
    ensures var r := MarkAll(rows, ts)[i];
      AsDue(r) == AsDue(rows[i]) && r.remindOn == rows[i].remindOn && (rows[i].sent ==> r.sent)
      && (r.sent <==> rows[i].sent || AsDue(rows[i]) in ts)
  {
    MarkAllAt(rows, ts, i);
  }

  // ---------------------------------------------------------------------------
  // schedule_daily_fetch: every user in turn
  //
  // The loop is stated over any per-user step; `Fetched` is the step the bot
  // takes, `process_document` on the page read for the user. Facts about the
  // loop are proved for every step with the matching property, and
  // `Fetched` is shown to have each property.

  /** The step of one user whose page was read: `process_document` on that page. */
  function Fetched(users: seq<User>, now: Moment): (seq<Reminder>, string, string) -> seq<Reminder>
  {
    (rows: seq<Reminder>, id: string, text: string) => Process(rows, users, text, id, now).rows
  }

  /**
   * The reminders after fetching for each of `ids` in turn, with `pages[k]`
   * the page read for `ids[k]`, or `None` when the fetch raised and the user
   * was skipped.
   */
  function FetchAll(rows: seq<Reminder>, ids: seq<string>, pages: seq<Option<string>>,
                    step: (seq<Reminder>, string, string) -> seq<Reminder>): seq<Reminder>
    requires |pages| == |ids|
  {
    if ids == [] then rows
    else
      var n := |ids| - 1;
      var before := FetchAll(rows, ids[..n], pages[..n], step);
      if pages[n].Some? then step(before, ids[n], pages[n].value) else before
  }

  /**
   * `schedule_daily_fetch`: every user of `get_all_users` is tried in table
   * order; a user whose fetch raised is skipped and the loop goes on.
   */
  method DailyFetch(store: ReminderStore, pages: seq<Option<string>>, now: Moment)
    requires |pages| == |AllUsers(store.users)|
    modifies store
    ensures store.reminders == FetchAll(old(store.reminders), AllUsers(old(store.users)), pages, Fetched(old(store.users), now))
    ensures store.users == old(store.users)
  {
    var ids := AllUsers(store.users);
    ghost var start := store.reminders;
    var k := 0;
    while k < |ids|
      invariant k <= |ids|
      invariant store.users == old(store.users)
      invariant store.reminders == FetchAll(start, ids[..k], pages[..k], Fetched(store.users, now))
    {
      FetchOne(store, ids, pages, k, now, start);
      k := k + 1;
    }
    assert ids[..k] == ids && pages[..k] == pages;
  }

  /**
   * One pass of the loop body: the `k`-th user's page, when it was fetched,
   * goes through `process_document`, whose flag is ignored.
   */
  method FetchOne(store: ReminderStore, ids: seq<string>, pages: seq<Option<string>>, k: nat, now: Moment,
                  ghost start: seq<Reminder>)
    requires |pages| == |ids| && k < |ids|
    requires store.reminders == FetchAll(start, ids[..k], pages[..k], Fetched(store.users, now))
    modifies store
    ensures store.reminders == FetchAll(start, ids[..k + 1], pages[..k + 1], Fetched(store.users, now))
    ensures store.users == old(store.users)
  {
    FetchAllLast(start, ids[..k + 1], pages[..k + 1], Fetched(store.users, now));
    assert ids[..k + 1][..k] == ids[..k] && pages[..k + 1][..k] == pages[..k];
    if pages[k].Some? {
      var _ := ProcessDocument(store, pages[k].value, ids[k], now);
    }
  }

  /** The loop so far, then the last user. */
  lemma FetchAllLast(rows: seq<Reminder>, ids: seq<string>, pages: seq<Option<string>>,
                     step: (seq<Reminder>, string, string) -> seq<Reminder>)
    requires |pages| == |ids| && ids != []
    ensures var n := |ids| - 1;
      var before := FetchAll(rows, ids[..n], pages[..n], step);
      FetchAll(rows, ids, pages, step) == if pages[n].Some? then step(before, ids[n], pages[n].value) else before
  {
  }

  /** A step that leaves every other user's pending reminders as they were. */
  ghost predicate KeepsOthers(step: (seq<Reminder>, string, string) -> seq<Reminder>)
  {
    forall rows, id, text, u :: u != id ==> PendingRows(step(rows, id, text), u) == PendingRows(rows, u)
  }

  /** A step that never touches a sent row. */
  ghost predicate KeepsSent(step: (seq<Reminder>, string, string) -> seq<Reminder>)
  {
    forall rows, id, text :: SentRows(step(rows, id, text)) == SentRows(rows)
  }

  /** A step that gives user `id` the pending reminders `mine` from page `text`, whatever they had before. */
  ghost predicate Replaces(step: (seq<Reminder>, string, string) -> seq<Reminder>, id: string, text: string, mine: seq<Reminder>)
  {
    forall rows :: PendingRows(step(rows, id, text), id) == mine
  }

  /** `process_document` for one user leaves every other user's pending reminders as they were. */
  lemma FetchedKeepsOthers(users: seq<User>, now: Moment)
    ensures KeepsOthers(Fetched(users, now))
  {
    forall rows, id, text, u | u != id
      ensures PendingRows(Fetched(users, now)(rows, id, text), u) == PendingRows(rows, u)
    {
      ProcessKeepsOthers(rows, users, text, id, u, now);
    }
  }

  /** `process_document` never touches a sent row. */
  lemma FetchedKeepsSent(users: seq<User>, now: Moment)
    ensures KeepsSent(Fetched(users, now))
  {
    forall rows, id, text ensures SentRows(Fetched(users, now)(rows, id, text)) == SentRows(rows) {
      ProcessKeepsOthers(rows, users, text, id, id + "'", now);
    }
  }

  /** A page with both headings gives its user exactly the reminders parsed from it. */
  lemma FetchedReplaces(users: seq<User>, now: Moment, id: string, text: string)
    requires SectionAsWritten(text).Some?
    ensures Replaces(Fetched(users, now), id, text, Run(SectionAsWritten(text).value, id, ReminderDays(users, id), now).rows)
  {
    forall rows ensures PendingRows(Fetched(users, now)(rows, id, text), id)
      == Run(SectionAsWritten(text).value, id, ReminderDays(users, id), now).rows
    {
      ParsedReplaces(rows, users, SectionAsWritten(text).value, id, now);
    }
  }

  /** Fetches none of which went through for `u` leave `u`'s pending reminders as they were. */
  lemma {:induction false} UntouchedBy(rows: seq<Reminder>, ids: seq<string>, pages: seq<Option<string>>,
                                      step: (seq<Reminder>, string, string) -> seq<Reminder>, u: string)
    requires |pages| == |ids| && KeepsOthers(step)
    requires forall k :: 0 <= k < |ids| && ids[k] == u ==> pages[k].None?
    ensures PendingRows(FetchAll(rows, ids, pages, step), u) == PendingRows(rows, u)
  {
    if ids != [] {
      var n := |ids| - 1;
      FetchAllLast(rows, ids, pages, step);
      UntouchedBy(rows, ids[..n], pages[..n], step, u);
    }
  }

  /** A loop of steps that keep sent rows keeps them. */
  lemma {:induction false} SentKept(rows: seq<Reminder>, ids: seq<string>, pages: seq<Option<string>>,
                                   step: (seq<Reminder>, string, string) -> seq<Reminder>)
    requires |pages| == |ids| && KeepsSent(step)
    ensures SentRows(FetchAll(rows, ids, pages, step)) == SentRows(rows)
  {
    if ids != [] {
      var n := |ids| - 1;
      FetchAllLast(rows, ids, pages, step);
      SentKept(rows, ids[..n], pages[..n], step);
    }
  }

  /** Steps after the first `m` users, none of them for `u`, leave `u`'s pending reminders as those users left them. */
  lemma {:induction false} LaterOthers(rows: seq<Reminder>, ids: seq<string>, pages: seq<Option<string>>,
                                      step: (seq<Reminder>, string, string) -> seq<Reminder>, m: nat, u: string)
    requires |pages| == |ids| && m <= |ids| && KeepsOthers(step)
    requires forall j :: m <= j < |ids| ==> ids[j] != u
    ensures PendingRows(FetchAll(rows, ids, pages, step), u) == PendingRows(FetchAll(rows, ids[..m], pages[..m], step), u)
  {
    if |ids| == m {
      assert ids[..m] == ids && pages[..m] == pages;
    } else {
      var n := |ids| - 1;
      FetchAllLast(rows, ids, pages, step);
      assert ids[..n][..m] == ids[..m] && pages[..n][..m] == pages[..m];
      assert forall j :: m <= j < n ==> ids[..n][j] == ids[j];
      LaterOthers(rows, ids[..n], pages[..n], step, m, u);
    }
  }

  /** The user's own step decides their reminders when no later step is for them. */
  lemma LastOwnStep(rows: seq<Reminder>, ids: seq<string>, pages: seq<Option<string>>,
                    step: (seq<Reminder>, string, string) -> seq<Reminder>, k: nat, mine: seq<Reminder>)
    requires |pages| == |ids| && k < |ids| && KeepsOthers(step)
    requires pages[k].Some? && Replaces(step, ids[k], pages[k].value, mine)
    requires forall j :: k < j < |ids| ==> ids[j] != ids[k]
    ensures PendingRows(FetchAll(rows, ids, pages, step), ids[k]) == mine
  {
    var head, heads := ids[..k + 1], pages[..k + 1];
    LaterOthers(rows, ids, pages, step, k + 1, ids[k]);
    FetchAllLast(rows, head, heads, step);
    assert head[k] == ids[k] && heads[k] == pages[k];
  }

  // What the daily fetch promises

  /** A user none of whose fetches went through keeps their pending reminders as they were. */
  lemma FailedUserUntouched(rows: seq<Reminder>, users: seq<User>, ids: seq<string>,
                            pages: seq<Option<string>>, now: Moment, u: string)
    requires |pages| == |ids|
    requires forall k :: 0 <= k < |ids| && ids[k] == u ==> pages[k].None?
    ensures PendingRows(FetchAll(rows, ids, pages, Fetched(users, now)), u) == PendingRows(rows, u)
  {
    FetchedKeepsOthers(users, now);
    UntouchedBy(rows, ids, pages, Fetched(users, now), u);
  }

  /** The daily fetch never touches a row that is already sent. */
  lemma FetchKeepsSent(rows: seq<Reminder>, users: seq<User>, ids: seq<string>,
                       pages: seq<Option<string>>, now: Moment)
    requires |pages| == |ids|
    ensures SentRows(FetchAll(rows, ids, pages, Fetched(users, now))) == SentRows(rows)
  {
    FetchedKeepsSent(users, now);
    SentKept(rows, ids, pages, Fetched(users, now));
  }

  /**
   * A user whose page has both headings, and who is not fetched again later
   * in the loop, ends with exactly the reminders that page yields, whatever
   * happened to the other users and to the user's earlier fetches.
   */
  lemma OwnPageDecides(rows: seq<Reminder>, users: seq<User>, ids: seq<string>,
                       pages: seq<Option<string>>, now: Moment, k: nat)
    requires |pages| == |ids| && k < |ids|
    requires pages[k].Some? && SectionAsWritten(pages[k].value).Some?
    requires forall j :: k < j < |ids| ==> ids[j] != ids[k]
    ensures PendingRows(FetchAll(rows, ids, pages, Fetched(users, now)), ids[k])
      == Run(SectionAsWritten(pages[k].value).value, ids[k], ReminderDays(users, ids[k]), now).rows
  {
    var mine := Run(SectionAsWritten(pages[k].value).value, ids[k], ReminderDays(users, ids[k]), now).rows;
    FetchedKeepsOthers(users, now);
    FetchedReplaces(users, now, ids[k], pages[k].value);
    LastOwnStep(rows, ids, pages, Fetched(users, now), k, mine);
  }
}
