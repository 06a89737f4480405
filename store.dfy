/**
 * The `users` and `reminders` tables of the bot's sqlite database, held in
 * memory. A table is a sequence of rows in rowid order; each SQL statement
 * the bot issues is a function from the old rows to the new rows or to the
 * selected values, and `ReminderStore` is the database whose methods apply
 * them in place.
 */
module Store {
  import opened Options

  /** A row of `reminders`; the dates are the `YYYY-MM-DD` text the parser writes. */
  datatype Reminder = Reminder(user: string, assignment: string, due: string, remindOn: string, sent: bool)

  /** A row of `users`; the password is the stored ciphertext and is never looked into. */
  datatype User = User(id: string, username: string, password: string, days: int)

  /** A row of `get_due_reminders`: `(discord_id, assignment_name, due_date)`. */
  datatype Due = Due(user: string, assignment: string, due: string)

  /** A row of `get_user_reminders`: `(assignment_name, due_date, reminder_date)`. */
  datatype Pending = Pending(assignment: string, due: string, remindOn: string)

  function AsDue(r: Reminder): Due
  {
    Due(r.user, r.assignment, r.due)
  }

  function AsPending(r: Reminder): Pending
  {
    Pending(r.assignment, r.due, r.remindOn)
  }

  /** `discord_id = ? AND sent = 0` */
  predicate IsPendingOf(r: Reminder, id: string)
  {
    r.user == id && !r.sent
  }

  // ---------------------------------------------------------------------------
  // The reminders table

  /** `DELETE FROM reminders WHERE discord_id = ? AND sent = 0` (clear_user_reminders). */
  function WithoutPending(rows: seq<Reminder>, id: string): (r: seq<Reminder>)
    ensures |r| <= |rows|
    ensures forall x :: x in r <==> x in rows && !IsPendingOf(x, id)
  {
    if rows == [] then []
    else
      var n := |rows| - 1;
      assert rows == rows[..n] + [rows[n]];
      var init := WithoutPending(rows[..n], id);
      if IsPendingOf(rows[n], id) then init else init + [rows[n]]
  }

  /** The rows `discord_id = ? AND sent = 0`, in table order. */
  function PendingRows(rows: seq<Reminder>, id: string): (r: seq<Reminder>)
    ensures |r| <= |rows|
    ensures forall x :: x in r <==> x in rows && IsPendingOf(x, id)
  {
    if rows == [] then []
    else
      var n := |rows| - 1;
      assert rows == rows[..n] + [rows[n]];
      var init := PendingRows(rows[..n], id);
      if IsPendingOf(rows[n], id) then init + [rows[n]] else init
  }

  /** The rows that are already sent, in table order: the history no reconciliation touches. */
  function SentRows(rows: seq<Reminder>): (r: seq<Reminder>)
    ensures forall x :: x in r <==> x in rows && x.sent
  {
    if rows == [] then []
    else
      var n := |rows| - 1;
      assert rows == rows[..n] + [rows[n]];
      var init := SentRows(rows[..n]);
      if rows[n].sent then init + [rows[n]] else init
  }

  /** `SELECT discord_id, assignment_name, due_date FROM reminders WHERE reminder_date = ? AND sent = 0` */
  function DueOn(rows: seq<Reminder>, date: string): (r: seq<Due>)
    ensures |r| <= |rows|
    ensures forall x :: x in rows && x.remindOn == date && !x.sent ==> AsDue(x) in r
    ensures forall d :: d in r ==> exists x :: x in rows && x.remindOn == date && !x.sent && AsDue(x) == d
  {
    if rows == [] then []
    else
      var n := |rows| - 1;
      assert rows == rows[..n] + [rows[n]];
      var init := DueOn(rows[..n], date);
      if rows[n].remindOn == date && !rows[n].sent then init + [AsDue(rows[n])] else init
  }

  /** `UPDATE reminders SET sent = 1 WHERE discord_id = ? AND assignment_name = ? AND due_date = ?` */
  function MarkSent(rows: seq<Reminder>, t: Due): (r: seq<Reminder>)
    ensures |r| == |rows|
    ensures forall i :: 0 <= i < |rows| ==>
      r[i] == if AsDue(rows[i]) == t then rows[i].(sent := true) else rows[i]
  {
    if rows == [] then []
    else
      var n := |rows| - 1;
      var x := rows[n];
      MarkSent(rows[..n], t) + [if AsDue(x) == t then x.(sent := true) else x]
  }

  /** `DELETE FROM reminders WHERE discord_id = ?`: sent or not. */
  function WithoutUserRows(rows: seq<Reminder>, id: string): (r: seq<Reminder>)
    ensures forall x :: x in r <==> x in rows && x.user != id
  {
    if rows == [] then []
    else
      var n := |rows| - 1;
      assert rows == rows[..n] + [rows[n]];
      var init := WithoutUserRows(rows[..n], id);
      if rows[n].user == id then init else init + [rows[n]]
  }

  // ---------------------------------------------------------------------------
  // get_user_reminders: the pending rows of one user, ORDER BY due_date

  /** sqlite's BINARY collation on text: code point by code point, a proper prefix first. */
  predicate TextLe(a: string, b: string)
    decreases |a|
  {
    a == [] || (b != [] && (a[0] < b[0] || (a[0] == b[0] && TextLe(a[1..], b[1..]))))
  }

  lemma {:induction false} TextLeTotal(a: string, b: string)
    ensures TextLe(a, b) || TextLe(b, a)
    decreases |a|
  {
    if a != [] && b != [] && a[0] == b[0] {
      TextLeTotal(a[1..], b[1..]);
    }
  }

  lemma {:induction false} TextLeTrans(a: string, b: string, c: string)
    requires TextLe(a, b) && TextLe(b, c)
    ensures TextLe(a, c)
    decreases |a|
  {
    if a != [] && a[0] == b[0] && b[0] == c[0] {
      TextLeTrans(a[1..], b[1..], c[1..]);
    }
  }

  predicate SortedByDue(s: seq<Pending>)
  {
    forall i, j :: 0 <= i < j < |s| ==> TextLe(s[i].due, s[j].due)
  }

  /** A row that sorts no later than every row of a sorted sequence can go in front of it. */
  lemma SortedCons(x: Pending, rest: seq<Pending>)
    requires SortedByDue(rest) && forall i :: 0 <= i < |rest| ==> TextLe(x.due, rest[i].due)
    ensures SortedByDue([x] + rest)
  {
  }

  /** Every row of `rest` is `p` or a row of `s` after the first, so the first row of `s` sorts no later than it. */
  lemma HeadBelow(p: Pending, s: seq<Pending>, rest: seq<Pending>)
    requires s != [] && SortedByDue(s) && TextLe(s[0].due, p.due)
    requires multiset(rest) == multiset(s[1..]) + multiset{p}
    ensures forall i :: 0 <= i < |rest| ==> TextLe(s[0].due, rest[i].due)
  {
    forall i | 0 <= i < |rest| ensures TextLe(s[0].due, rest[i].due) {
      assert rest[i] in multiset(rest);
      if rest[i] != p {
        assert rest[i] in multiset(s[1..]);
        var k :| 0 <= k < |s[1..]| && s[1..][k] == rest[i];
        assert s[1..][k] == s[k + 1];
      }
    }
  }

  /** A row that sorts before the first row of a sorted sequence sorts no later than all of it. */
  lemma BelowHead(p: Pending, s: seq<Pending>)
    requires s != [] && SortedByDue(s) && !TextLe(s[0].due, p.due)
    ensures forall i :: 0 <= i < |s| ==> TextLe(p.due, s[i].due)
  {
    TextLeTotal(s[0].due, p.due);
    forall i | 0 <= i < |s| ensures TextLe(p.due, s[i].due) {
      if i > 0 { TextLeTrans(p.due, s[0].due, s[i].due); }
    }
  }

  /** Insert `p` into a due-sorted sequence after every row that does not sort after it. */
  function InsertByDue(p: Pending, s: seq<Pending>): (r: seq<Pending>)
    requires SortedByDue(s)
    ensures SortedByDue(r)
    ensures multiset(r) == multiset(s) + multiset{p}
  {
    if s == [] then [p]
    else if TextLe(s[0].due, p.due) then
      var rest := InsertByDue(p, s[1..]);
      HeadBelow(p, s, rest);
      SortedCons(s[0], rest);
      assert s == [s[0]] + s[1..];
      [s[0]] + rest
    else
      BelowHead(p, s);
      SortedCons(p, s);
      [p] + s
  }

  /** Insertion sort by due date; rows with equal due dates keep their table order. */
  function SortByDue(s: seq<Pending>): (r: seq<Pending>)
    ensures SortedByDue(r)
    ensures multiset(r) == multiset(s)
  {
    if s == [] then []
    else
      var n := |s| - 1;
      assert s == s[..n] + [s[n]];
      InsertByDue(s[n], SortByDue(s[..n]))
  }

  function Views(rows: seq<Reminder>): (r: seq<Pending>)
    ensures |r| == |rows| && forall i :: 0 <= i < |rows| ==> r[i] == AsPending(rows[i])
  {
    if rows == [] then [] else Views(rows[..|rows| - 1]) + [AsPending(rows[|rows| - 1])]
  }

  /** `SELECT assignment_name, due_date, reminder_date ... WHERE discord_id = ? AND sent = 0 ORDER BY due_date` */
  function UserReminders(rows: seq<Reminder>, id: string): (r: seq<Pending>)
    ensures SortedByDue(r)
    ensures multiset(r) == multiset(Views(PendingRows(rows, id)))
  {
    SortByDue(Views(PendingRows(rows, id)))
  }

  // ---------------------------------------------------------------------------
  // The users table

  /** The first row with this id, as `fetchone` returns it. */
  function FirstUser(users: seq<User>, id: string): (r: Option<nat>)
    ensures r.None? <==> forall k :: 0 <= k < |users| ==> users[k].id != id
    ensures r.Some? ==> r.value < |users| && users[r.value].id == id
    ensures r.Some? ==> forall k :: 0 <= k < r.value ==> users[k].id != id
  {
    if users == [] then None
    else if users[0].id == id then Some(0)
    else
      match FirstUser(users[1..], id)
      case None => None
      case Some(k) => Some(k + 1)
  }

  /** `get_reminder_days`: the stored lead when present and non-zero, else 1. */
  function ReminderDays(users: seq<User>, id: string): (r: int)
    ensures r != 0
    ensures !UserExists(users, id) ==> r == 1
    ensures r != 1 ==> exists k :: 0 <= k < |users| && users[k].id == id && users[k].days == r
  {
    match FirstUser(users, id)
    case None => 1
    case Some(k) => if users[k].days != 0 then users[k].days else 1
  }

  /** `user_exists`: some row carries the id. */
  predicate UserExists(users: seq<User>, id: string)
    ensures UserExists(users, id) <==> FirstUser(users, id).Some?
  {
    exists k :: 0 <= k < |users| && users[k].id == id
  }

  /** `UPDATE users SET reminder_days = ? WHERE discord_id = ?` (set_reminder_days). */
  function SetDays(users: seq<User>, id: string, n: int): (r: seq<User>)
    ensures |r| == |users|
    ensures forall k :: 0 <= k < |users| ==> r[k] == if users[k].id == id then users[k].(days := n) else users[k]
  {
    if users == [] then []
    else
      var x := users[|users| - 1];
      SetDays(users[..|users| - 1], id, n) + [if x.id == id then x.(days := n) else x]
  }

  /** `UPDATE users SET username = ?, password = ? WHERE discord_id = ?` */
  function SetCredentials(users: seq<User>, id: string, name: string, password: string): (r: seq<User>)
    ensures |r| == |users|
    ensures forall k :: 0 <= k < |users| ==>
      r[k] == if users[k].id == id then users[k].(username := name, password := password) else users[k]
  {
    if users == [] then []
    else
      var x := users[|users| - 1];
      SetCredentials(users[..|users| - 1], id, name, password)
        + [if x.id == id then x.(username := name, password := password) else x]
  }

  /** `save_user_credentials`: update every row of an existing id, or insert one row with the column default lead of 1. */
  function Upsert(users: seq<User>, id: string, name: string, password: string): (r: seq<User>)
    ensures |r| == if UserExists(users, id) then |users| else |users| + 1
    ensures forall k :: 0 <= k < |users| ==> r[k].id == users[k].id && r[k].days == users[k].days
  {
    if UserExists(users, id) then SetCredentials(users, id, name, password)
    else users + [User(id, name, password, 1)]
  }

  /** `DELETE FROM users WHERE discord_id = ?` */
  function WithoutUser(users: seq<User>, id: string): (r: seq<User>)
    ensures forall u :: u in r <==> u in users && u.id != id
  {
    if users == [] then []
    else
      var n := |users| - 1;
      assert users == users[..n] + [users[n]];
      var init := WithoutUser(users[..n], id);
      if users[n].id == id then init else init + [users[n]]
  }

  /** `SELECT discord_id FROM users`, one id per row. */
  function AllUsers(users: seq<User>): (r: seq<string>)
    ensures |r| == |users| && forall k :: 0 <= k < |users| ==> r[k] == users[k].id
  {
    if users == [] then [] else AllUsers(users[..|users| - 1]) + [users[|users| - 1].id]
  }

  // ---------------------------------------------------------------------------
  // What the statements promise

  /** Clearing leaves the user with no pending rows and every other user's pending rows as they were. */
  lemma {:induction false} ClearPending(rows: seq<Reminder>, id: string, u: string)
    ensures PendingRows(WithoutPending(rows, id), u) == if u == id then [] else PendingRows(rows, u)
  {
    if rows != [] {
      var n := |rows| - 1;
      ClearPending(rows[..n], id, u);
    }
  }

  /** Clearing never touches a sent row: the history is kept in order. */
  lemma {:induction false} ClearKeepsSent(rows: seq<Reminder>, id: string)
    ensures SentRows(WithoutPending(rows, id)) == SentRows(rows)
  {
    if rows != [] {
      var n := |rows| - 1;
      ClearKeepsSent(rows[..n], id);
      var init := WithoutPending(rows[..n], id);
      if !IsPendingOf(rows[n], id) {
        assert (init + [rows[n]])[..|init|] == init;
      }
    }
  }

  /** Clearing twice is clearing once. */
  lemma {:induction false} ClearIdempotent(rows: seq<Reminder>, id: string)
    ensures WithoutPending(WithoutPending(rows, id), id) == WithoutPending(rows, id)
  {
    if rows != [] {
      var n := |rows| - 1;
      ClearIdempotent(rows[..n], id);
      var init := WithoutPending(rows[..n], id);
      if !IsPendingOf(rows[n], id) {
        assert (init + [rows[n]])[..|init|] == init;
      }
    }
  }

  predicate AllPendingOf(rows: seq<Reminder>, id: string)
  {
    forall k :: 0 <= k < |rows| ==> IsPendingOf(rows[k], id)
  }

  /** Appended rows that are all pending for `id` vanish again when `id` is cleared. */
  lemma {:induction false} ClearAppended(base: seq<Reminder>, added: seq<Reminder>, id: string)
    requires AllPendingOf(added, id)
    ensures WithoutPending(base + added, id) == WithoutPending(base, id)
  {
    if added != [] {
      var n := |added| - 1;
      var s := base + added;
      assert s[..|s| - 1] == base + added[..n];
      assert IsPendingOf(s[|s| - 1], id);
      ClearAppended(base, added[..n], id);
    } else {
      assert base + added == base;
    }
  }

  /** Appended rows that are all pending for `id` are exactly what the user then has pending, behind the old ones. */
  lemma PendingAppended(base: seq<Reminder>, added: seq<Reminder>, id: string, u: string)
    requires AllPendingOf(added, id)
    ensures PendingRows(base + added, u) == PendingRows(base, u) + (if u == id then added else [])
  {
    if u == id {
      OwnAppended(base, added, id);
    } else {
      OtherAppended(base, added, id, u);
    }
  }

  /** The owner of the appended rows finds them behind their old pending rows. */
  lemma {:induction false} OwnAppended(base: seq<Reminder>, added: seq<Reminder>, id: string)
    requires AllPendingOf(added, id)
    ensures PendingRows(base + added, id) == PendingRows(base, id) + added
  {
    if added != [] {
      var n := |added| - 1;
      var front, last := added[..n], added[n];
      Snoc(base, added, front, last);
      PendingSnoc(base + front, last, id);
      OwnAppended(base, front, id);
    } else {
      assert base + added == base;
    }
  }

  /** Splitting off the last of the appended rows. */
  lemma Snoc(base: seq<Reminder>, added: seq<Reminder>, front: seq<Reminder>, last: Reminder)
    requires added != [] && front == added[..|added| - 1] && last == added[|added| - 1]
    ensures added == front + [last] && base + added == (base + front) + [last]
    ensures forall id :: AllPendingOf(added, id) ==> AllPendingOf(front, id) && IsPendingOf(last, id)
  {
  }

  /** Filtering a sequence extended by one row. */
  lemma PendingSnoc(rows: seq<Reminder>, r: Reminder, u: string)
    ensures PendingRows(rows + [r], u) == PendingRows(rows, u) + (if IsPendingOf(r, u) then [r] else [])
  {
    assert (rows + [r])[..|rows|] == rows;
  }

  /** Any other user's pending rows are not changed by rows appended for `id`. */
  lemma {:induction false} OtherAppended(base: seq<Reminder>, added: seq<Reminder>, id: string, u: string)
    requires AllPendingOf(added, id) && u != id
    ensures PendingRows(base + added, u) == PendingRows(base, u)
  {
    if added != [] {
      var n := |added| - 1;
      var s := base + added;
      assert s[..|s| - 1] == base + added[..n];
      assert !IsPendingOf(s[|s| - 1], u);
      OtherAppended(base, added[..n], id, u);
    } else {
      assert base + added == base;
    }
  }

  /** add_reminder: one new pending row for the user, at the end; nobody else's pending rows change. */
  lemma AddPending(rows: seq<Reminder>, id: string, a: string, due: string, on: string, u: string)
    ensures var r := Reminder(id, a, due, on, false);
      PendingRows(rows + [r], u) == PendingRows(rows, u) + (if u == id then [r] else [])
  {
    var r := Reminder(id, a, due, on, false);
    assert (rows + [r])[..|rows|] == rows;
  }

  /** Marking is idempotent. */
  lemma MarkSentIdempotent(rows: seq<Reminder>, t: Due)
    ensures MarkSent(MarkSent(rows, t), t) == MarkSent(rows, t)
  {
    var once := MarkSent(rows, t);
    forall i | 0 <= i < |rows| ensures MarkSent(once, t)[i] == once[i] {
      assert AsDue(once[i]) == AsDue(rows[i]);
    }
  }

  /** After marking, no pending row due on any date carries the marked triple. */
  lemma MarkSentRemovesDue(rows: seq<Reminder>, t: Due, date: string)
    ensures t !in DueOn(MarkSent(rows, t), date)
  {
    var m := MarkSent(rows, t);
    forall x | x in m && x.remindOn == date && !x.sent ensures AsDue(x) != t {
      var i :| 0 <= i < |m| && m[i] == x;
      assert AsDue(m[i]) == AsDue(rows[i]);
    }
  }

  /** A stored lead of 0 reads back as the default 1; any other stored lead reads back as itself. */
  lemma SetDaysThenRead(users: seq<User>, id: string, n: int)
    requires UserExists(users, id)
    ensures ReminderDays(SetDays(users, id, n), id) == if n == 0 then 1 else n
  {
    var k :| 0 <= k < |users| && users[k].id == id;
    var r := SetDays(users, id, n);
    assert r[k].id == id;
    var f := FirstUser(r, id).value;
    assert r[f] == users[f].(days := n);
  }

  /** set_reminder_days for an id with no row changes nothing. */
  lemma SetDaysUnknown(users: seq<User>, id: string, n: int)
    requires !UserExists(users, id)
    ensures SetDays(users, id, n) == users
  {
  }

  /** After save_user_credentials the id exists, its rows carry the new credentials, and other rows are as they were. */
  lemma UpsertSaves(users: seq<User>, id: string, name: string, password: string)
    ensures var r := Upsert(users, id, name, password);
      UserExists(r, id)
      && (forall k :: 0 <= k < |r| && r[k].id == id ==> r[k].username == name && r[k].password == password)
      && (forall k :: 0 <= k < |users| && users[k].id != id ==> k < |r| && r[k] == users[k])
  {
    var r := Upsert(users, id, name, password);
    if !UserExists(users, id) {
      assert r[|users|].id == id;
    } else {
      var k :| 0 <= k < |users| && users[k].id == id;
      assert r[k].id == id;
    }
  }

  /** A new user starts with the default lead of one day. */
  lemma UpsertNewUserDays(users: seq<User>, id: string, name: string, password: string)
    requires !UserExists(users, id)
    ensures ReminderDays(Upsert(users, id, name, password), id) == 1
  {
    var r := Upsert(users, id, name, password);
    assert r[|users|].id == id;
    var f := FirstUser(r, id).value;
    assert f == |users|;
  }

  /** After delete_user_account the id is gone from both tables and no one else's rows change. */
  lemma DeleteUserRemovesAll(users: seq<User>, rows: seq<Reminder>, id: string, u: string)
    ensures !UserExists(WithoutUser(users, id), id)
    ensures UserReminders(WithoutUserRows(rows, id), id) == []
    ensures u != id ==> PendingRows(WithoutUserRows(rows, id), u) == PendingRows(rows, u)
  {
    var w := WithoutUser(users, id);
    forall k | 0 <= k < |w| ensures w[k].id != id {
      assert w[k] in w;
    }
    PendingWithoutUser(rows, id, id);
    PendingWithoutUser(rows, id, u);
  }

  lemma {:induction false} PendingWithoutUser(rows: seq<Reminder>, id: string, u: string)
    ensures PendingRows(WithoutUserRows(rows, id), u) == if u == id then [] else PendingRows(rows, u)
  {
    if rows != [] {
      PendingWithoutUser(rows[..|rows| - 1], id, u);
    }
  }

  /** A view of a pending row of the user is one of the user's pending views. */
  lemma PendingViewed(rows: seq<Reminder>, id: string, x: Reminder)
    requires x in rows && IsPendingOf(x, id)
    ensures AsPending(x) in Views(PendingRows(rows, id))
  {
    var pr := PendingRows(rows, id);
    var i :| 0 <= i < |pr| && pr[i] == x;
    assert Views(pr)[i] == AsPending(x);
  }

  /** Each of the user's pending views comes from a pending row of the user. */
  lemma ViewedPending(rows: seq<Reminder>, id: string, p: Pending)
    requires p in Views(PendingRows(rows, id))
    ensures exists x :: x in rows && IsPendingOf(x, id) && AsPending(x) == p
  {
    var pr := PendingRows(rows, id);
    var v := Views(pr);
    var i :| 0 <= i < |v| && v[i] == p;
    assert pr[i] in pr;
  }

  /** get_user_reminders returns exactly the user's pending rows, sorted by due date. */
  lemma UserRemindersSpec(rows: seq<Reminder>, id: string)
    ensures SortedByDue(UserReminders(rows, id))
    ensures multiset(UserReminders(rows, id)) == multiset(Views(PendingRows(rows, id)))
    ensures forall p :: p in UserReminders(rows, id) <==>
      exists x :: x in rows && IsPendingOf(x, id) && AsPending(x) == p
  {
    var v := Views(PendingRows(rows, id));
    var s := UserReminders(rows, id);
    forall p ensures p in s <==> exists x :: x in rows && IsPendingOf(x, id) && AsPending(x) == p {
      assert p in s <==> p in multiset(v);
      if p in v {
        ViewedPending(rows, id, p);
      }
      if exists x :: x in rows && IsPendingOf(x, id) && AsPending(x) == p {
        var x :| x in rows && IsPendingOf(x, id) && AsPending(x) == p;
        PendingViewed(rows, id, x);
      }
    }
  }

  // ---------------------------------------------------------------------------
  // The database

  class ReminderStore {
    var users: seq<User>
    var reminders: seq<Reminder>

    /** Both tables empty, as `init_db` creates them. */
    constructor ()
      ensures users == [] && reminders == []
    {
      users := [];
      reminders := [];
    }

    method SaveUserCredentials(id: string, name: string, password: string)
      modifies this
      ensures users == Upsert(old(users), id, name, password) && reminders == old(reminders)
      ensures UserExists(users, id)
    {
      UpsertSaves(users, id, name, password);
      users := Upsert(users, id, name, password);
    }

    method DeleteUserAccount(id: string)
      modifies this
      ensures users == WithoutUser(old(users), id) && reminders == WithoutUserRows(old(reminders), id)
      ensures !UserExists(users, id) && UserReminders(reminders, id) == []
    {
      DeleteUserRemovesAll(users, reminders, id, id);
      reminders := WithoutUserRows(reminders, id);
      users := WithoutUser(users, id);
    }

    method SetReminderDays(id: string, n: int)
      modifies this
      ensures users == SetDays(old(users), id, n) && reminders == old(reminders)
      ensures UserExists(old(users), id) ==> ReminderDays(users, id) == if n == 0 then 1 else n
      ensures !UserExists(old(users), id) ==> users == old(users)
    {
      if UserExists(users, id) {
        SetDaysThenRead(users, id, n);
      }
      users := SetDays(users, id, n);
    }

    method ClearUserReminders(id: string)
      modifies this
      ensures reminders == WithoutPending(old(reminders), id) && users == old(users)
      ensures PendingRows(reminders, id) == []
      ensures SentRows(reminders) == SentRows(old(reminders))
    {
      ClearPending(reminders, id, id);
      ClearKeepsSent(reminders, id);
      reminders := WithoutPending(reminders, id);
    }

    method AddReminder(id: string, assignment: string, due: string, remindOn: string)
      modifies this
      ensures reminders == old(reminders) + [Reminder(id, assignment, due, remindOn, false)]
      ensures users == old(users)
    {
      reminders := reminders + [Reminder(id, assignment, due, remindOn, false)];
    }

    method MarkReminderSent(id: string, assignment: string, due: string)
      modifies this
      ensures reminders == MarkSent(old(reminders), Due(id, assignment, due)) && users == old(users)
    {
      reminders := MarkSent(reminders, Due(id, assignment, due));
    }
  }
}
