/** reminders.php: the urgency badge of each listed reminder and the
    listing's status filter and ORDER BY. Dates are epoch seconds (what
    strtotime / time() return). */
module Urgency {
  import opened Php
  import opened Config
  import opened Ledger

  const SECONDS_PER_DAY := 86400
  /** The distance window of the odometer axis. */
  const ODOMETER_WARNING_KM := 500

  /** The CSS class of the badge; `Unmarked` is the empty class. */
  datatype StatusClass = Overdue | DueToday | DueSoon | Upcoming | Completed | Unmarked

  datatype Status = Status(cls: StatusClass, text: string)

  /** floor((due − now) / 86400): whole days left, rounded down. */
  function DaysUntil(due: int, now: int): (d: int)
    ensures SECONDS_PER_DAY * d <= due - now < SECONDS_PER_DAY * (d + 1)
    ensures d < 0 <==> due < now
  {
    (due - now) / SECONDS_PER_DAY
  }

  /** The date axis on its own: overdue / today / within the warning window / later. */
  function DateStatus(days: int): (s: Status)
    ensures s.cls == Overdue <==> days < 0
    ensures s.cls == DueToday <==> days == 0
    ensures s.cls == DueSoon <==> 0 < days <= REMINDER_WARNING_DAYS
    ensures s.cls == Upcoming <==> days > REMINDER_WARNING_DAYS
    ensures days < 0 ==> s.text == "Overdue by " + NatToString(-days) + " days"
    ensures days == 0 ==> s.text == "Due Today!"
    ensures days > 0 ==> s.text == "Due in " + NatToString(days) + " days"
  {
    if days < 0 then Status(Overdue, "Overdue by " + NatToString(-days) + " days")
    else if days == 0 then Status(DueToday, "Due Today!")
    else if days <= REMINDER_WARNING_DAYS then Status(DueSoon, "Due in " + NatToString(days) + " days")
    else Status(Upcoming, "Due in " + NatToString(days) + " days")
  }

  /** Days left on the date axis; none when the reminder has no due date. */
  function DateDays(r: Reminder, now: int): Option<int> {
    if r.dueDate.Some? then Some(DaysUntil(r.dueDate.value, now)) else None
  }

  /** Kilometres left on the odometer axis, which applies only when both the
      due odometer and the bike's odometer are truthy (set and non-zero). */
  function KmLeft(r: Reminder, current: int): Option<int> {
    if r.dueOdometer.Some? && r.dueOdometer.value != 0 && current != 0 then Some(r.dueOdometer.value - current) else None
  }

  /** `$status_text .= ($status_text ? ' | ' : '') . part`. */
  function Append(text: string, part: string): (r: string)
    ensures IsEmpty(text) ==> r == part
    ensures !IsEmpty(text) ==> r == text + " | " + part
  {
    if IsEmpty(text) then part else text + " | " + part
  }

  /** The urgency block of reminders.php for one reminder of a bike whose
      odometer reads `current`. A completed reminder is always 'completed'.
      Otherwise the date axis sets a class and text, then the odometer axis
      forces 'overdue' when the due reading is reached, turns anything but
      'overdue' into 'due-soon' within 500 km, and appends its own text. */
  function Classify(r: Reminder, current: int, now: int): (s: Status)
    ensures r.completed ==> s == Status(Completed, "Completed")
    ensures !r.completed ==>
      (s.cls == Overdue <==>
        (DateDays(r, now).Some? && DateDays(r, now).value < 0) ||
        (KmLeft(r, current).Some? && KmLeft(r, current).value <= 0))
    ensures !r.completed && s.cls != Overdue ==>
      (s.cls == DueSoon <==>
        (KmLeft(r, current).Some? && KmLeft(r, current).value <= ODOMETER_WARNING_KM) ||
        (DateDays(r, now).Some? && 0 < DateDays(r, now).value <= REMINDER_WARNING_DAYS))
    ensures !r.completed && (KmLeft(r, current).None? || KmLeft(r, current).value > ODOMETER_WARNING_KM) ==>
      s == (if r.dueDate.Some? then DateStatus(DateDays(r, now).value) else Status(Unmarked, ""))
    ensures s.cls != Completed <==> !r.completed
  {
    if r.completed then Status(Completed, "Completed")
    else
      var d := if r.dueDate.Some? then DateStatus(DaysUntil(r.dueDate.value, now)) else Status(Unmarked, "");
      match KmLeft(r, current)
      case None => d
      case Some(km) =>
        if km <= 0 then Status(Overdue, Append(d.text, "Odometer reached"))
        else if km <= ODOMETER_WARNING_KM then
          Status(if d.cls == Overdue then Overdue else DueSoon, Append(d.text, NatToString(km) + " km left"))
        else d
  }

  /** The badge text joins the date part and the odometer part with " | "
      only when both are present. */
  lemma StatusTextParts(r: Reminder, current: int, now: int)
    requires !r.completed && KmLeft(r, current).Some? && KmLeft(r, current).value <= ODOMETER_WARNING_KM
    ensures var part := if KmLeft(r, current).value <= 0 then "Odometer reached" else NatToString(KmLeft(r, current).value) + " km left";
      Classify(r, current, now).text ==
        if r.dueDate.Some? then DateStatus(DateDays(r, now).value).text + " | " + part else part
  {
    if r.dueDate.Some? {
      var days := DateDays(r, now).value;
      var t := DateStatus(days).text;
      if days < 0 {
        assert t[0] == 'O';
      } else if days == 0 {
        assert t[0] == 'D';
      } else {
        assert t[0] == 'D';
      }
      assert t != "" && t != "0";
    }
  }

  /** A reminder with no due odometer, or on a bike whose odometer reads 0,
      is classified by its date alone. */
  lemma OdometerAxisNeedsBothReadings(r: Reminder, current: int, now: int)
    requires r.dueOdometer.None? || r.dueOdometer == Some(0) || current == 0
    ensures Classify(r, current, now) == Classify(r.(dueOdometer := None), current, now)
  {
  }

  /** Reaching the due reading makes a reminder overdue whatever its date says. */
  lemma ReachedOdometerIsOverdue(r: Reminder, current: int, now: int)
    requires !r.completed && r.dueOdometer.Some? && r.dueOdometer.value != 0 && current != 0
    requires current >= r.dueOdometer.value
    ensures Classify(r, current, now).cls == Overdue
  {
  }

  // ---------------------------------------------------------------- listing

  /** The `status` query parameter: 'pending' (the default) keeps open
      reminders, 'completed' the closed ones, any other value keeps all. */
  predicate StatusKeeps(status: string, r: Reminder) {
    if status == "pending" then !r.completed
    else if status == "completed" then r.completed
    else true
  }

  /** The WHERE clause: the user's reminders, of one bike when one is chosen. */
  predicate Listed(r: Reminder, user: int, bike: Option<int>, status: string) {
    r.owner == user && (bike.None? || r.bikeId == bike.value) && StatusKeeps(status, r)
  }

  function Filter(rows: seq<Reminder>, user: int, bike: Option<int>, status: string): (r: seq<Reminder>)
    ensures forall x :: x in r ==> Listed(x, user, bike, status)
    ensures forall x :: x in rows && Listed(x, user, bike, status) ==> x in r
    ensures multiset(r) <= multiset(rows)
    ensures forall x :: multiset(r)[x] == if Listed(x, user, bike, status) then multiset(rows)[x] else 0
  {
    if rows == [] then []
    else
      var rest := Filter(rows[1..], user, bike, status);
      assert rows == [rows[0]] + rows[1..];
      var keep := x => Listed(x, user, bike, status);
      KeepFirst(rows[0], rows[1..], rest, keep);
      var r := if keep(rows[0]) then [rows[0]] + rest else rest;
      KeptRows(rows, r, keep);
      r
  }

  /** The ENUM rank used by `priority DESC`. */
  function PriorityRank(p: Priority): int {
    match p
    case Low => 0
    case Medium => 1
    case High => 2
  }

  /** `due_date ASC` as MySQL sorts it: NULL first, then by date. */
  predicate DueNotAfter(a: Option<int>, b: Option<int>) {
    a.None? || (b.Some? && a.value <= b.value)
  }

  /** `ORDER BY is_completed ASC, due_date ASC, priority DESC`: `a` may be listed before `b`. */
  predicate Before(a: Reminder, b: Reminder) {
    if a.completed != b.completed then !a.completed
    else if a.dueDate != b.dueDate then DueNotAfter(a.dueDate, b.dueDate)
    else PriorityRank(a.priority) >= PriorityRank(b.priority)
  }

  /** Any two reminders can be ordered one way or the other. */
  lemma BeforeTotal(a: Reminder, b: Reminder)
    ensures Before(a, b) || Before(b, a)
  {
  }

  predicate Sorted(rs: seq<Reminder>) {
    forall i :: 0 <= i < |rs| - 1 ==> Before(rs[i], rs[i + 1])
  }

  /** Inserts `x` into an ordered listing. */
  function Insert(x: Reminder, rs: seq<Reminder>): (r: seq<Reminder>)
    requires Sorted(rs)
    ensures Sorted(r)
    ensures multiset(r) == multiset(rs) + multiset{x}
    ensures |r| == |rs| + 1
    ensures r[0] == x || (rs != [] && r[0] == rs[0])
  {
    if rs == [] || Before(x, rs[0]) then [x] + rs
    else
      BeforeTotal(x, rs[0]);
      var tail := Insert(x, rs[1..]);
      assert rs == [rs[0]] + rs[1..];
      [rs[0]] + tail
  }

  /** The ORDER BY of the listing. */
  function Order(rs: seq<Reminder>): (r: seq<Reminder>)
    ensures Sorted(r)
    ensures multiset(r) == multiset(rs)
  {
    if rs == [] then []
    else
      assert rs == [rs[0]] + rs[1..];
      Insert(rs[0], Order(rs[1..]))
  }

  /** The reminders page's list: exactly the rows the WHERE clause keeps, in
      the ORDER BY order. */
  function ListReminders(rows: seq<Reminder>, user: int, bike: Option<int>, status: string): (r: seq<Reminder>)
    ensures Sorted(r)
    ensures multiset(r) == multiset(Filter(rows, user, bike, status))
    ensures forall x :: x in r ==> Listed(x, user, bike, status)
  {
    var f := Filter(rows, user, bike, status);
    var r := Order(f);
    SameElements(r, f);
    r
  }

  /** Sequences with the same multiset have the same members. */
  lemma SameElements<T>(a: seq<T>, b: seq<T>)
    requires multiset(a) == multiset(b)
    ensures forall x :: x in a <==> x in b
  {
    forall x
      ensures x in a <==> x in b
    {
      assert x in a <==> x in multiset(a);
      assert x in b <==> x in multiset(b);
    }
  }

  /** In the listing every open reminder comes before every completed one. */
  lemma {:induction false} OpenBeforeCompleted(rs: seq<Reminder>, i: int, j: int)
    requires Sorted(rs) && 0 <= i < j < |rs|
    requires rs[j].completed == false
    ensures !rs[i].completed
    decreases j - i
  {
    if j > i + 1 {
      OpenBeforeCompleted(rs, i + 1, j);
    }
    assert Before(rs[i], rs[i + 1]);
  }
}
