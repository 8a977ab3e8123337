/** The read-only summary the tracker shows: one line per date with the
    first Time-In, the last Time-Out and the total hours, and the greeting
    name taken from the user's email. */
module Projections {

  import opened Wrappers
  import opened TimeOfDay
  import opened Sequences
  import opened Entries

  /** What a cell shows when there is nothing to show. */
  const Dash := "—"

  predicate HasTimeIn(date: string, r: Row) {
    r.date == date && Truthy(r.clockIn)
  }

  predicate HasTimeOut(date: string, r: Row) {
    r.date == date && Truthy(r.clockOut)
  }

  predicate HasHours(date: string, r: Row) {
    r.date == date && r.hours.Some?
  }

  function TimeInOn(date: string): (p: Row -> bool) {
    r => HasTimeIn(date, r)
  }

  function TimeOutOn(date: string): (p: Row -> bool) {
    r => HasTimeOut(date, r)
  }

  function HoursOn(date: string): (p: Row -> bool) {
    r => HasHours(date, r)
  }

  /** `getFirstTimeIn`: the Time-In of the first row in list order that has
      the date and a non-empty Time-In, or a dash. */
  function FirstTimeIn(logs: seq<Row>, date: string): (t: string)
    ensures (forall i :: 0 <= i < |logs| ==> !HasTimeIn(date, logs[i])) ==> t == Dash
    ensures forall i :: (0 <= i < |logs| && HasTimeIn(date, logs[i]) &&
      (forall j :: 0 <= j < i ==> !HasTimeIn(date, logs[j]))) ==> t == logs[i].clockIn.value
  {
    var k := Find(logs, TimeInOn(date));
    if k < |logs| then logs[k].clockIn.value else Dash
  }

  /** `getLastTimeOut`: the Time-Out of the last row with the date and a
      non-empty Time-Out, or a dash. */
  function LastTimeOut(logs: seq<Row>, date: string): (t: string)
    ensures t == Dash || exists i :: 0 <= i < |logs| && HasTimeOut(date, logs[i]) && t == logs[i].clockOut.value
  {
    var outs := Filter(logs, TimeOutOn(date));
    if |outs| > 0 then
      FilterMembers(logs, TimeOutOn(date), outs[|outs| - 1]);
      outs[|outs| - 1].clockOut.value
    else Dash
  }

  lemma LastTimeOutIsLastMatch(logs: seq<Row>, date: string)
    ensures (forall i :: 0 <= i < |logs| ==> !HasTimeOut(date, logs[i])) ==> LastTimeOut(logs, date) == Dash
    ensures forall i :: (0 <= i < |logs| && HasTimeOut(date, logs[i]) &&
      (forall j :: i < j < |logs| ==> !HasTimeOut(date, logs[j]))) ==> LastTimeOut(logs, date) == logs[i].clockOut.value
  {
    forall i | 0 <= i < |logs| && HasTimeOut(date, logs[i]) &&
      (forall j :: i < j < |logs| ==> !HasTimeOut(date, logs[j]))
      ensures LastTimeOut(logs, date) == logs[i].clockOut.value
    {
      FilterLast(logs, TimeOutOn(date), i);
    }
  }

  /** Addition as `+` does it on numbers, `NaN` absorbing. */
  function Add(a: Hours, b: Hours): (c: Hours)
    ensures c.Hundredths? <==> a.Hundredths? && b.Hundredths?
    ensures c.Hundredths? ==> c.n == a.n + b.n
  {
    match (a, b)
    case (Hundredths(x), Hundredths(y)) => Hundredths(x + y)
    case _ => NaN
  }

  /** `parseFloat` of a stored hours value; an absent one reads as `NaN`. */
  function HoursValue(h: Option<Hours>): (v: Hours)
    ensures v.NaN? <==> (h.None? || h.value.NaN?)
    ensures v.Hundredths? ==> h == Some(v)
  {
    if h.Some? then h.value else NaN
  }

  /** `reduce((sum, log) => sum + parseFloat(log.hours), 0)`. */
  function Sum(rows: seq<Row>): (total: Hours)
    ensures rows == [] ==> total == Hundredths(0)
    ensures total.NaN? <==> exists i :: 0 <= i < |rows| && HoursValue(rows[i].hours).NaN?
  {
    if rows == [] then Hundredths(0)
    else
      var n := |rows| - 1;
      assert forall i :: 0 <= i < n ==> rows[..n][i] == rows[i];
      Add(Sum(rows[..n]), HoursValue(rows[n].hours))
  }

  /** `getTotalHours`: the sum of the hours of the rows with the date that
      have hours, kept exact in hundredths. */
  function TotalHours(logs: seq<Row>, date: string): (total: Hours)
    ensures (forall i :: 0 <= i < |logs| ==> !HasHours(date, logs[i])) ==> total == Hundredths(0)
  {
    Sum(Filter(logs, HoursOn(date)))
  }

  lemma {:induction false} SumAppend(a: seq<Row>, b: seq<Row>)
    ensures Sum(a + b) == Add(Sum(a), Sum(b))
  {
    if b == [] {
      assert a + b == a;
    } else {
      var n := |b| - 1;
      assert (a + b)[..|a + b| - 1] == a + b[..n];
      SumAppend(a, b[..n]);
    }
  }

  /** The total over a concatenation is the sum of the totals. */
  lemma TotalHoursAppend(a: seq<Row>, b: seq<Row>, date: string)
    ensures TotalHours(a + b, date) == Add(TotalHours(a, date), TotalHours(b, date))
  {
    FilterAppend(a, b, HoursOn(date));
    SumAppend(Filter(a, HoursOn(date)), Filter(b, HoursOn(date)));
  }

  /** A row of another date does not change a date's total, wherever it
      stands. */
  lemma TotalHoursIgnoresOtherDates(a: seq<Row>, r: Row, b: seq<Row>, date: string)
    requires r.date != date
    ensures TotalHours(a + [r] + b, date) == TotalHours(a + b, date)
  {
    var ar := a + [r];
    var ta, tr, tb := TotalHours(a, date), TotalHours([r], date), TotalHours(b, date);
    assert a + [r] + b == ar + b;
    assert tr == Hundredths(0);
    TotalHoursAppend(a, [r], date);
    assert TotalHours(ar, date) == Add(ta, tr);
    assert Add(ta, Hundredths(0)) == ta;
    TotalHoursAppend(ar, b, date);
    TotalHoursAppend(a, b, date);
  }

  /** The total is `NaN` exactly when a row of the date holds `NaN` hours. */
  lemma TotalHoursIsNaN(logs: seq<Row>, date: string)
    ensures TotalHours(logs, date).NaN? <==>
      exists i :: 0 <= i < |logs| && logs[i].date == date && logs[i].hours == Some(NaN)
  {
    var kept := Filter(logs, HoursOn(date));
    if TotalHours(logs, date).NaN? {
      var i :| 0 <= i < |kept| && HoursValue(kept[i].hours).NaN?;
      FilterMembers(logs, HoursOn(date), kept[i]);
      var j :| 0 <= j < |logs| && logs[j] == kept[i];
      assert logs[j].date == date && logs[j].hours == Some(NaN);
    }
    if exists i :: 0 <= i < |logs| && logs[i].date == date && logs[i].hours == Some(NaN) {
      var i :| 0 <= i < |logs| && logs[i].date == date && logs[i].hours == Some(NaN);
      FilterMembers(logs, HoursOn(date), logs[i]);
      var j :| 0 <= j < |kept| && kept[j] == logs[i];
      assert HoursValue(kept[j].hours).NaN?;
    }
  }

  /** The dates of the entries, in list order. */
  function Dates(entries: seq<Row>): (ds: seq<string>)
    ensures |ds| == |entries|
    ensures forall i :: 0 <= i < |entries| ==> ds[i] == entries[i].date
  {
    seq(|entries|, i requires 0 <= i < |entries| => entries[i].date)
  }

  /** `uniqueDates`: every date of the entries exactly once. */
  function UniqueDates(entries: seq<Row>): (ds: seq<string>)
    ensures forall d :: d in ds <==> exists i :: 0 <= i < |entries| && entries[i].date == d
    ensures forall i, j :: 0 <= i < j < |ds| ==> ds[i] != ds[j]
  {
    var all := Dates(entries);
    assert forall d :: d in all <==> exists i :: 0 <= i < |entries| && entries[i].date == d by {
      forall d | d in all ensures exists i :: 0 <= i < |entries| && entries[i].date == d {
        var i :| 0 <= i < |all| && all[i] == d;
      }
      forall i | 0 <= i < |entries| ensures entries[i].date in all {
        assert all[i] == entries[i].date;
      }
    }
    Dedup(all)
  }

  /** ... and in order of first occurrence. */
  lemma UniqueDatesInFirstOccurrenceOrder(entries: seq<Row>, i: nat, j: nat)
    requires i < j < |UniqueDates(entries)|
    ensures IndexOf(Dates(entries), UniqueDates(entries)[i]) < IndexOf(Dates(entries), UniqueDates(entries)[j])
  {
    DedupFirstOccurrenceOrder(Dates(entries), i, j);
  }

  /** `firstName`: `email.split('@')[0]`, the part of the email before the
      first `@` (all of it when there is none). */
  function FirstName(email: string): (name: string)
    ensures name <= email
    ensures '@' !in name
    ensures |name| < |email| ==> email[|name|] == '@'
  {
    if email == [] || email[0] == '@' then [] else [email[0]] + FirstName(email[1..])
  }

  lemma TotalHoursOfOneRow(r: Row, date: string)
    requires HasHours(date, r)
    ensures TotalHours([r], date) == Add(Hundredths(0), r.hours.value)
  {
    assert Filter([r], HoursOn(date)) == [r] by {
      assert [r][1..] == [];
    }
    assert [r][..0] == [];
    assert Sum([r]) == Add(Sum([]), HoursValue(r.hours));
  }

  /** The rows of a day with two sessions, 08:00-12:00 and 13:00-17:00. */
  function TwoSessions(): (rows: seq<Row>) {
    [Row(1, "u", "2024-01-01", Some("08:00"), Some("12:00"), Some(Hundredths(400))),
     Row(2, "u", "2024-01-01", Some("13:00"), Some("17:00"), Some(Hundredths(400)))]
  }

  lemma TwoSessionsTotal()
    ensures TotalHours(TwoSessions(), "2024-01-01") == Hundredths(800)
  {
    var logs := TwoSessions();
    assert logs == [logs[0]] + [logs[1]];
    TotalHoursAppend([logs[0]], [logs[1]], "2024-01-01");
    TotalHoursOfOneRow(logs[0], "2024-01-01");
    TotalHoursOfOneRow(logs[1], "2024-01-01");
  }

  lemma TwoSessionsFirstAndLast()
    ensures FirstTimeIn(TwoSessions(), "2024-01-01") == "08:00"
    ensures LastTimeOut(TwoSessions(), "2024-01-01") == "17:00"
  {
    LastTimeOutIsLastMatch(TwoSessions(), "2024-01-01");
  }

  lemma TwoSessionsDates()
    ensures UniqueDates(TwoSessions()) == ["2024-01-01"]
  {
    var d := "2024-01-01";
    assert Dates(TwoSessions()) == [d, d];
    assert [d, d][..1] == [d];
    assert [d][..0] == [];
    assert Dedup([d]) == [d];
  }
}
