/** The time tracker component and the row store it writes to, as objects
    whose fields change in place. Each handler is one atomic step; the fetch
    that each handler starts without waiting for it is the separate step
    `FetchLogs`. */
module Tracker {

  import opened Wrappers
  import opened TimeOfDay
  import opened Entries
  import opened Lifecycle
  import opened Projections

  /** The `time_logs` table: the rows of every user and the id the next
      inserted row receives. Whether the service accepts a write is the
      `ok` argument. */
  class EntryStore {
    var rows: seq<Row>
    var nextId: nat

    ghost predicate Valid()
      reads this
    {
      StoreValid(rows, nextId)
    }

    constructor ()
      ensures Valid() && rows == [] && nextId == 0
    {
      rows, nextId := [], 0;
    }

    /** Inserts an open row for `userId` with the given date and Time-In. */
    method Insert(userId: string, date: string, clockIn: string, ok: bool)
      requires Valid()
      modifies this
      ensures Valid()
      ensures ok ==> rows == old(rows) + [Row(old(nextId), userId, date, Some(clockIn), None, None)] && nextId == old(nextId) + 1
      ensures !ok ==> rows == old(rows) && nextId == old(nextId)
    {
      if ok {
        assert forall i :: 0 <= i < |rows| ==> (rows + [Row(nextId, userId, date, Some(clockIn), None, None)])[i] == rows[i];
        rows := rows + [Row(nextId, userId, date, Some(clockIn), None, None)];
        nextId := nextId + 1;
      }
    }

    /** Sets the Time-Out and the hours of the rows whose id is `id`. */
    method UpdateById(id: nat, clockOut: string, hours: Hours, ok: bool)
      requires Valid()
      modifies this
      ensures Valid() && nextId == old(nextId)
      ensures rows == if ok then ClosedById(old(rows), id, Some(clockOut), Some(hours)) else old(rows)
    {
      if ok {
        rows := ClosedById(rows, id, Some(clockOut), Some(hours));
      }
    }
  }

  class TimeTracker {
    var entries: seq<Row>
    var status: Status
    var activeLog: Option<Row>
    var totalHours: Option<Hours>
    /** The signed-in user's id and email. */
    const user: string
    const email: string
    const store: EntryStore

    ghost predicate Valid()
      reads this, store
    {
      store.Valid()
    }

    /** `firstName`, the name in the welcome line: the user's email up to
        its first `@`. */
    function Greeting(): (name: string)
      reads this
      ensures name <= email && '@' !in name
      ensures |name| < |email| ==> email[|name|] == '@'
    {
      FirstName(email)
    }

    /** The component's state and the store's, as one value. */
    ghost function State(): (s: World)
      reads this, store
    {
      World(Ui(entries, status, activeLog, totalHours), store.rows, store.nextId)
    }

    constructor (user: string, email: string, store: EntryStore)
      requires store.Valid()
      ensures Valid() && this.user == user && this.email == email && this.store == store
      ensures State() == World(Initial(), store.rows, store.nextId)
    {
      this.user, this.email, this.store := user, email, store;
      entries, status, activeLog, totalHours := [], LoggedOut, None, None;
    }

    /** `fetchLogs`, given the query's answer (`None` when it returns no
        data). */
    method FetchLogs(data: Option<seq<Row>>)
      requires Valid()
      modifies this
      ensures Valid()
      ensures State() == old(State()).(ui := Fetched(old(State()).ui, data))
    {
      if data.Some? {
        entries := data.value;
        var openLog := FirstOpen(data.value);
        if openLog.Some? {
          activeLog := openLog;
          status := LoggedIn;
        } else {
          status := LoggedOut;
        }
      }
    }

    /** `handleTimeIn` at the clock reading `date`, `time`. */
    method TimeIn(date: string, time: string, ok: bool)
      requires Valid()
      modifies this, store
      ensures Valid()
      ensures State() == TimedIn(old(State()), user, date, time, ok)
    {
      store.Insert(user, date, time, ok);
      if ok {
        status := LoggedIn;
      }
    }

    /** `handleTimeOut` at the clock reading `time`. */
    method TimeOut(time: string, ok: bool)
      requires Valid()
      modifies this, store
      ensures Valid()
      ensures State() == TimedOut(old(State()), time, ok)
    {
      if activeLog.None? {
        return;
      }
      var log := activeLog.value;
      var hours := Duration(log.clockIn, time);
      store.UpdateById(log.id, time, hours, ok);
      if ok {
        totalHours := Some(hours);
        status := LoggedOut;
      }
    }

    /** The button: Time In while Logged Out, Time Out otherwise. */
    method Press(date: string, time: string, ok: bool)
      requires Valid()
      modifies this, store
      ensures Valid()
      ensures State() == Pressed(old(State()), user, date, time, ok)
    {
      if status == LoggedOut {
        TimeIn(date, time, ok);
      } else {
        TimeOut(time, ok);
      }
    }
  }
}
