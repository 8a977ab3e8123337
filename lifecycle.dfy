/** The time-entry lifecycle as transitions on values: status derivation
    after a fetch, Time-In, Time-Out, and the button that offers one or the
    other. The store is a sequence of rows; whether it accepts a write is an
    input. The classes in `Tracker` are proved against these functions. */
module Lifecycle {

  import opened Wrappers
  import opened TimeOfDay
  import opened Sequences
  import opened Entries

  datatype Status = LoggedIn | LoggedOut

  /** The component's state. */
  datatype Ui = Ui(entries: seq<Row>, status: Status, activeLog: Option<Row>, totalHours: Option<Hours>)

  /** The component's state together with the store's rows and the id the
      store assigns to the next row it inserts. */
  datatype World = World(ui: Ui, rows: seq<Row>, nextId: nat)

  /** The state a freshly mounted component starts in. */
  function Initial(): (u: Ui)
    ensures u.entries == [] && u.status == LoggedOut && u.activeLog.None? && u.totalHours.None?
  {
    Ui([], LoggedOut, None, None)
  }

  /** `data.find((entry) => !entry.clock_out)`. */
  function FirstOpen(rows: seq<Row>): (r: Option<Row>)
    ensures r.None? <==> forall i :: 0 <= i < |rows| ==> !IsOpen(rows[i])
    ensures r.Some? ==> r.value in rows && IsOpen(r.value)
    ensures forall k :: (0 <= k < |rows| && IsOpen(rows[k]) &&
      (forall j :: 0 <= j < k ==> !IsOpen(rows[j]))) ==> r == Some(rows[k])
  {
    var k := Find(rows, IsOpen);
    if k < |rows| then Some(rows[k]) else None
  }

  /** `fetchLogs` once the query has answered: no data leaves everything as
      it was; otherwise the entries are replaced, the status is Logged In
      exactly when some row is open, the active log becomes the first open
      row, and it is left as it was (not cleared) when there is none. */
  function Fetched(u: Ui, data: Option<seq<Row>>): (v: Ui)
    ensures data.None? ==> v == u
    ensures data.Some? ==>
      && v.entries == data.value
      && v.totalHours == u.totalHours
      && (v.status == LoggedIn <==> exists i :: 0 <= i < |data.value| && IsOpen(data.value[i]))
      && (v.status == LoggedIn ==> v.activeLog == FirstOpen(data.value))
      && (v.status == LoggedOut ==> v.activeLog == u.activeLog)
  {
    match data
    case None => u
    case Some(rows) =>
      var open := FirstOpen(rows);
      if open.Some? then u.(entries := rows, activeLog := open, status := LoggedIn)
      else u.(entries := rows, status := LoggedOut)
  }

  /** Deriving the status again from the same answer changes nothing. */
  lemma FetchedIsIdempotent(u: Ui, data: Option<seq<Row>>)
    ensures Fetched(Fetched(u, data), data) == Fetched(u, data)
  {
  }

  /** `handleTimeIn`: on success the store holds one more row, open, with the
      given date and Time-In, and the status is Logged In; on an error
      nothing changes. */
  function TimedIn(w: World, user: string, date: string, time: string, ok: bool): (v: World)
    ensures !ok ==> v == w
    ensures ok ==>
      && |v.rows| == |w.rows| + 1
      && v.rows[..|w.rows|] == w.rows
      && v.ui == w.ui.(status := LoggedIn)
      && v.nextId == w.nextId + 1
      && (var r := v.rows[|w.rows|];
          IsOpen(r) && r.hours.None? && r.clockIn == Some(time) && r.date == date && r.userId == user
          && r.id == w.nextId)
  {
    if ok then
      World(w.ui.(status := LoggedIn), w.rows + [Row(w.nextId, user, date, Some(time), None, None)], w.nextId + 1)
    else w
  }

  /** `.update({ clock_out, hours }).eq('id', id)`. */
  function ClosedById(rows: seq<Row>, id: nat, clockOut: Option<string>, hours: Option<Hours>): (r: seq<Row>)
    ensures |r| == |rows|
    ensures forall i :: 0 <= i < |rows| ==>
      r[i].id == rows[i].id && r[i].userId == rows[i].userId && r[i].date == rows[i].date && r[i].clockIn == rows[i].clockIn
    ensures forall i :: 0 <= i < |rows| && rows[i].id == id ==> r[i].clockOut == clockOut && r[i].hours == hours
    ensures forall i :: 0 <= i < |rows| && rows[i].id != id ==> r[i] == rows[i]
  {
    seq(|rows|, i requires 0 <= i < |rows| =>
      if rows[i].id == id then rows[i].(clockOut := clockOut, hours := hours) else rows[i])
  }

  /** No two rows of the store share an id, and every id is below the next
      one to be assigned. */
  ghost predicate StoreValid(rows: seq<Row>, nextId: nat) {
    && (forall i :: 0 <= i < |rows| ==> rows[i].id < nextId)
    && (forall i, j :: 0 <= i < |rows| && 0 <= j < |rows| && rows[i].id == rows[j].id ==> i == j)
  }

  /** With unique ids the update changes exactly one row, and it sets the
      Time-Out and the hours together. */
  lemma ClosedByIdChangesOneRow(rows: seq<Row>, nextId: nat, k: nat, clockOut: Option<string>, hours: Option<Hours>)
    requires StoreValid(rows, nextId) && k < |rows|
    ensures var r := ClosedById(rows, rows[k].id, clockOut, hours);
      && r[k] == rows[k].(clockOut := clockOut, hours := hours)
      && forall j :: 0 <= j < |rows| && j != k ==> r[j] == rows[j]
  {
  }

  /** An update for an id no row has changes nothing. */
  lemma ClosedByIdOfMissingId(rows: seq<Row>, id: nat, clockOut: Option<string>, hours: Option<Hours>)
    requires forall i :: 0 <= i < |rows| ==> rows[i].id != id
    ensures ClosedById(rows, id, clockOut, hours) == rows
  {
  }

  /** `handleTimeOut`: with no active log, reading its Time-In throws before
      the store is asked and nothing changes. Otherwise the hours from its
      Time-In to `time` are computed; on success the rows with its id get
      the Time-Out and the hours, the displayed total becomes those hours and
      the status is Logged Out; on an error nothing changes. Entries and the
      active log are left to the next fetch. */
  function TimedOut(w: World, time: string, ok: bool): (v: World)
    ensures (!ok || w.ui.activeLog.None?) ==> v == w
    ensures ok && w.ui.activeLog.Some? ==>
      var a := w.ui.activeLog.value;
      var h := Duration(a.clockIn, time);
      && v.rows == ClosedById(w.rows, a.id, Some(time), Some(h))
      && v.nextId == w.nextId
      && v.ui == w.ui.(status := LoggedOut, totalHours := Some(h))
  {
    match w.ui.activeLog
    case None => w
    case Some(a) =>
      var h := Duration(a.clockIn, time);
      if ok then World(w.ui.(status := LoggedOut, totalHours := Some(h)), ClosedById(w.rows, a.id, Some(time), Some(h)), w.nextId)
      else w
  }

  /** The one button: Time In while the status is Logged Out, Time Out
      otherwise. No row is added while Logged In, and no existing row is
      touched while Logged Out. */
  function Pressed(w: World, user: string, date: string, time: string, ok: bool): (v: World)
    ensures w.ui.status == LoggedIn ==> |v.rows| == |w.rows| && v.nextId == w.nextId
    ensures w.ui.status == LoggedOut ==> |v.rows| >= |w.rows| && v.rows[..|w.rows|] == w.rows
  {
    if w.ui.status == LoggedOut then TimedIn(w, user, date, time, ok) else TimedOut(w, time, ok)
  }

  /** A press of the button followed by the fetch its handler starts, with
      that fetch's answer: `fetchLogs()` at src/pages/TimeTracker.jsx:54-55
      after a Time-In, at 71-73 after a Time-Out. */
  function PressAndFetch(w: World, user: string, date: string, time: string, ok: bool, data: Option<seq<Row>>): (v: World) {
    var v := Pressed(w, user, date, time, ok);
    v.(ui := Fetched(v.ui, data))
  }

  /** Every row has both a Time-Out and hours, or neither. */
  ghost predicate Paired(rows: seq<Row>) {
    forall i :: 0 <= i < |rows| ==> (rows[i].clockOut.Some? <==> rows[i].hours.Some?)
  }

  lemma PressKeepsPaired(w: World, user: string, date: string, time: string, ok: bool)
    requires Paired(w.rows)
    ensures Paired(Pressed(w, user, date, time, ok).rows)
  {
  }

  lemma {:induction false} PressKeepsStoreValid(w: World, user: string, date: string, time: string, ok: bool)
    requires StoreValid(w.rows, w.nextId)
    ensures var v := Pressed(w, user, date, time, ok); StoreValid(v.rows, v.nextId)
  {
    var v := Pressed(w, user, date, time, ok);
    if w.ui.status == LoggedOut && ok {
      assert forall i :: 0 <= i < |w.rows| ==> v.rows[i] == w.rows[i];
    }
  }

  /** At most one of the user's rows is open. */
  ghost predicate AtMostOneOpen(rows: seq<Row>, user: string) {
    forall i, j :: (0 <= i < |rows| && 0 <= j < |rows| &&
      rows[i].userId == user && IsOpen(rows[i]) &&
      rows[j].userId == user && IsOpen(rows[j])) ==> i == j
  }

  /** `data` answers the query for the user's rows: it holds exactly them,
      in some order. */
  ghost predicate IsListing(data: seq<Row>, rows: seq<Row>, user: string) {
    forall r :: r in data <==> r in rows && r.userId == user
  }

  /** The component's state reflects the store: its entries are the user's
      rows, it is Logged In exactly when one of them is open, and then the
      active log is an open one of them. */
  ghost predicate Synced(u: Ui, rows: seq<Row>, user: string) {
    && IsListing(u.entries, rows, user)
    && (u.status == LoggedIn <==> exists r :: r in u.entries && IsOpen(r))
    && (u.status == LoggedIn ==> u.activeLog.Some? && u.activeLog.value in u.entries && IsOpen(u.activeLog.value))
  }

  lemma FetchedSyncs(u: Ui, data: seq<Row>, rows: seq<Row>, user: string)
    requires IsListing(data, rows, user)
    ensures Synced(Fetched(u, Some(data)), rows, user)
  {
    var v := Fetched(u, Some(data));
    if exists r :: r in data && IsOpen(r) {
      var r :| r in data && IsOpen(r);
      var i :| 0 <= i < |data| && data[i] == r;
      assert v.status == LoggedIn;
    }
  }

  lemma TimeInKeepsOneOpen(w: World, user: string, date: string, time: string, ok: bool)
    requires Synced(w.ui, w.rows, user) && w.ui.status == LoggedOut
    ensures AtMostOneOpen(TimedIn(w, user, date, time, ok).rows, user)
  {
    var v := TimedIn(w, user, date, time, ok);
    forall i | 0 <= i < |w.rows| && w.rows[i].userId == user ensures !IsOpen(w.rows[i]) {
      assert w.rows[i] in w.ui.entries;
    }
    if ok {
      assert forall i :: 0 <= i < |w.rows| ==> v.rows[i] == w.rows[i];
    }
  }

  lemma TimeOutKeepsOneOpen(w: World, user: string, time: string, ok: bool)
    requires StoreValid(w.rows, w.nextId) && AtMostOneOpen(w.rows, user)
    requires Synced(w.ui, w.rows, user) && w.ui.status == LoggedIn
    ensures AtMostOneOpen(TimedOut(w, time, ok).rows, user)
  {
    var v := TimedOut(w, time, ok);
    var a := w.ui.activeLog.value;
    assert a in w.rows && a.userId == user && IsOpen(a);
    var k :| 0 <= k < |w.rows| && w.rows[k] == a;
    if ok {
      ClosedByIdChangesOneRow(w.rows, w.nextId, k, Some(time), Some(Duration(a.clockIn, time)));
    }
  }

  /** What "at most one open entry per user" rests on: starting from a store
      with unique ids and at most one open row for the user, and once the
      page's first fetch has answered (`FetchedSyncs`), when every press of
      the button is followed by a fetch that answers, the user never has two
      open rows, and the state stays in step with the store. */
  lemma PressThenFetchKeepsOneOpen(w: World, user: string, date: string, time: string, ok: bool, data: seq<Row>)
    requires StoreValid(w.rows, w.nextId) && AtMostOneOpen(w.rows, user) && Synced(w.ui, w.rows, user)
    requires IsListing(data, Pressed(w, user, date, time, ok).rows, user)
    ensures var v := Pressed(w, user, date, time, ok);
      && StoreValid(v.rows, v.nextId)
      && AtMostOneOpen(v.rows, user)
      && Synced(Fetched(v.ui, Some(data)), v.rows, user)
  {
    var v := Pressed(w, user, date, time, ok);
    PressKeepsStoreValid(w, user, date, time, ok);
    FetchedSyncs(v.ui, data, v.rows, user);
    if w.ui.status == LoggedOut {
      TimeInKeepsOneOpen(w, user, date, time, ok);
    } else {
      TimeOutKeepsOneOpen(w, user, time, ok);
    }
  }

  /** Time-In then Time-Out, each accepted and each followed by a fetch that
      answers, adds exactly one row, with the Time-Out and the hours between
      the two clock readings, and shows those hours. The page ends Logged Out
      when the Time-Out reading is non-empty; an empty one leaves the row
      open, and the fetch reports Logged In again. */
  lemma {:induction false} TimeInThenTimeOut(w: World, user: string, date: string, t1: string, t2: string, data1: seq<Row>, data2: seq<Row>)
    requires StoreValid(w.rows, w.nextId) && AtMostOneOpen(w.rows, user) && Synced(w.ui, w.rows, user)
    requires w.ui.status == LoggedOut
    requires IsListing(data1, Pressed(w, user, date, t1, true).rows, user)
    requires IsListing(data2, Pressed(PressAndFetch(w, user, date, t1, true, Some(data1)), user, date, t2, true).rows, user)
    ensures var w2 := PressAndFetch(PressAndFetch(w, user, date, t1, true, Some(data1)), user, date, t2, true, Some(data2));
      && w2.rows == w.rows + [Row(w.nextId, user, date, Some(t1), Some(t2), Some(Duration(Some(t1), t2)))]
      && w2.ui.totalHours == Some(Duration(Some(t1), t2))
      && (w2.ui.status == LoggedOut <==> t2 != "")
  {
    var w1 := Pressed(w, user, date, t1, true);
    var n := Row(w.nextId, user, date, Some(t1), None, None);
    assert w1.rows == w.rows + [n];
    PressThenFetchKeepsOneOpen(w, user, date, t1, true, data1);
    var u1 := Fetched(w1.ui, Some(data1));
    assert n in data1;
    assert u1.status == LoggedIn by {
      var i :| 0 <= i < |data1| && data1[i] == n;
    }
    var a := u1.activeLog.value;
    assert a in w1.rows && a.userId == user && IsOpen(a);
    assert a == n by {
      var k :| 0 <= k < |w1.rows| && w1.rows[k] == a;
      assert w1.rows[|w.rows|] == n;
    }
    var v2 := Pressed(w1.(ui := u1), user, date, t2, true);
    var c := Row(w.nextId, user, date, Some(t1), Some(t2), Some(Duration(Some(t1), t2)));
    ClosedByIdChangesOneRow(w1.rows, w1.nextId, |w.rows|, Some(t2), Some(Duration(Some(t1), t2)));
    assert v2.rows == w.rows + [c];
    assert c in data2;
    forall i | 0 <= i < |w.rows| && w.rows[i].userId == user ensures !IsOpen(w.rows[i]) {
      assert w.rows[i] in w.ui.entries;
    }
    var u2 := Fetched(v2.ui, Some(data2));
    if t2 != "" {
      forall i | 0 <= i < |data2| ensures !IsOpen(data2[i]) {
        var r := data2[i];
        assert r in v2.rows && r.userId == user;
        var k :| 0 <= k < |v2.rows| && v2.rows[k] == r;
        if k < |w.rows| {
          assert r == w.rows[k];
        }
      }
    } else {
      var i :| 0 <= i < |data2| && data2[i] == c;
      assert IsOpen(data2[i]);
    }
  }

  /** Without a fetch in between, the button's guard does not stop a second
      open row: a component still in its initial state offers Time In
      although the store already holds an open row for the user. */
  lemma TimeInBeforeFirstFetchDuplicatesOpenRow()
    ensures var open := Row(0, "u", "2024-01-01", Some("09:00:00"), None, None);
      var v := Pressed(World(Initial(), [open], 1), "u", "2024-01-01", "10:00:00", true);
      !AtMostOneOpen(v.rows, "u")
  {
    var open := Row(0, "u", "2024-01-01", Some("09:00:00"), None, None);
    var v := Pressed(World(Initial(), [open], 1), "u", "2024-01-01", "10:00:00", true);
    assert IsOpen(v.rows[0]) && IsOpen(v.rows[1]);
  }

  /** A fetch that finds no open row keeps the old active log. Starting from
      a freshly mounted page and a store with one open row: the first fetch
      makes it the active log, Time-Out closes it, and the next fetch finds
      no open row. If the fetch after the next Time-In then fails, Time-Out
      updates the old, closed row again and leaves the new row open. */
  lemma StaleActiveLogClosesOldRowAgain()
    ensures
      var r0 := Row(0, "u", "2024-01-01", Some("09:00:00"), None, None);
      var w0 := World(Fetched(Initial(), Some([r0])), [r0], 1);
      var w1 := PressAndFetch(w0, "u", "2024-01-01", "12:00:00", true, Some(Pressed(w0, "u", "2024-01-01", "12:00:00", true).rows));
      var w2 := PressAndFetch(w1, "u", "2024-01-02", "08:00:00", true, None);
      var w3 := Pressed(w2, "u", "2024-01-02", "16:00:00", true);
      && w1.rows[0].hours == Some(Hundredths(300))
      && w1.ui.status == LoggedOut
      && |w3.rows| == 2
      && w3.rows[0].clockOut == Some("16:00:00")
      && w3.rows[0].hours == Some(Hundredths(700))
      && w2.ui.activeLog == Some(r0)
      && IsOpen(w3.rows[1])
      && w3.ui.status == LoggedOut
  {
    assert ParseTime("09:00:00") == Some(32400);
    assert ParseTime("12:00:00") == Some(43200);
    assert ParseTime("16:00:00") == Some(57600);
    var r0 := Row(0, "u", "2024-01-01", Some("09:00:00"), None, None);
    var c0 := r0.(clockOut := Some("12:00:00"), hours := Some(Hundredths(300)));
    var r1 := Row(1, "u", "2024-01-02", Some("08:00:00"), None, None);
    var u0 := Fetched(Initial(), Some([r0]));
    assert u0 == Ui([r0], LoggedIn, Some(r0), None);
    var w0 := World(u0, [r0], 1);
    var v1 := Pressed(w0, "u", "2024-01-01", "12:00:00", true);
    assert Duration(Some("09:00:00"), "12:00:00") == Hundredths(300);
    assert v1.rows == [c0];
    assert FirstOpen([c0]).None?;
    var w1 := PressAndFetch(w0, "u", "2024-01-01", "12:00:00", true, Some(v1.rows));
    assert w1 == World(Ui([c0], LoggedOut, Some(r0), Some(Hundredths(300))), [c0], 1);
    var w2 := PressAndFetch(w1, "u", "2024-01-02", "08:00:00", true, None);
    assert w2 == World(Ui([c0], LoggedIn, Some(r0), Some(Hundredths(300))), [c0, r1], 2);
    assert Duration(Some("09:00:00"), "16:00:00") == Hundredths(700);
    var w3 := Pressed(w2, "u", "2024-01-02", "16:00:00", true);
    assert w3.rows == [r0.(clockOut := Some("16:00:00"), hours := Some(Hundredths(700))), r1];
  }
}
