/** A class's timetable: weekly regular items, one-off special items and
    tasks, with the day view sorted by start time, the window of upcoming
    pending tasks, and task completion. */
module ScheduleModel {
  import opened Common
  import opened Strings
  import opened Seqs

  /** Milliseconds in a day: `setDate(getDate() + days)` moves the end of the
      window by whole days. */
  const DayMs: int := 86400000
  /** `getUpcomingTasks(days = 7)`. */
  const DefaultDays: int := 7
  /** The calendar colour an item gets when none is given. */
  const DefaultColor: string := "#3788d8"

  datatype ItemKind = ClassSession | Exam | Event | Holiday | OtherKind

  function ParseItemKind(s: string): (r: Option<ItemKind>)
    ensures r.Some? <==> s in {"class", "exam", "event", "holiday", "other"}
  {
    if s == "class" then Some(ClassSession)
    else if s == "exam" then Some(Exam)
    else if s == "event" then Some(Event)
    else if s == "holiday" then Some(Holiday)
    else if s == "other" then Some(OtherKind)
    else None
  }

  datatype Priority = Low | Medium | High

  function ParsePriority(s: string): (r: Option<Priority>)
    ensures r.Some? <==> s in {"low", "medium", "high"}
  {
    if s == "low" then Some(Low)
    else if s == "medium" then Some(Medium)
    else if s == "high" then Some(High)
    else None
  }

  datatype TaskStatus = Pending | Completed | Overdue

  /** A regular (weekly) or special (one-off) entry of the timetable. */
  datatype Item = Item(
    id: ItemId,
    title: string,
    kind: ItemKind,
    subject: Option<string>,
    teacher: Option<UserId>,
    dayOfWeek: Option<int>,
    startTime: string,
    endTime: string,
    location: Option<string>,
    description: Option<string>,
    color: string,
    isRecurring: bool,
    specificDate: Option<Time>,
    createdBy: Option<UserId>,
    createdAt: Time)

  datatype Task = Task(
    id: ItemId,
    title: string,
    description: Option<string>,
    subject: Option<string>,
    dueDate: Time,
    assignedBy: UserId,
    assignedAt: Time,
    priority: Priority,
    status: TaskStatus,
    attachments: seq<string>,
    reminderDate: Option<Time>)

  /** What saving an item checks: a title that is not blank once trimmed,
      start and end times, and a day of the week in 0..6 when one is set. */
  predicate ItemOk(it: Item)
  {
    Trim(it.title) != "" && it.startTime != "" && it.endTime != ""
    && (it.dayOfWeek.Some? ==> 0 <= it.dayOfWeek.value <= 6)
  }

  /** What saving a task checks: a title that is not blank once trimmed. */
  predicate TaskOk(t: Task)
  {
    Trim(t.title) != ""
  }

  /** The schema's `trim` on every text field of an item. */
  function StoredItem(it: Item): (r: Item)
    ensures r.title == Trim(it.title) && r.subject == TrimOpt(it.subject)
    ensures r.location == TrimOpt(it.location) && r.description == TrimOpt(it.description)
    ensures r.id == it.id && r.kind == it.kind && r.teacher == it.teacher && r.dayOfWeek == it.dayOfWeek
    ensures r.startTime == it.startTime && r.endTime == it.endTime && r.color == it.color
    ensures r.isRecurring == it.isRecurring && r.specificDate == it.specificDate
    ensures r.createdBy == it.createdBy && r.createdAt == it.createdAt
  {
    it.(title := Trim(it.title), subject := TrimOpt(it.subject), location := TrimOpt(it.location),
        description := TrimOpt(it.description))
  }

  /** The schema's `trim` on every text field of a task. */
  function StoredTask(t: Task): (r: Task)
    ensures r.id == t.id && r.title == Trim(t.title) && r.dueDate == t.dueDate && r.status == t.status
    ensures r.assignedBy == t.assignedBy && |r.attachments| == |t.attachments|
  {
    t.(title := Trim(t.title), description := TrimOpt(t.description), subject := TrimOpt(t.subject),
       attachments := seq(|t.attachments|, i requires 0 <= i < |t.attachments| => Trim(t.attachments[i])))
  }

  /** Whether an item passes validation depends on its trimmed title, its
      times and its day only. */
  lemma ItemOkDependsOn(it: Item, other: Item)
    requires Trim(other.title) == Trim(it.title) && other.startTime == it.startTime
    requires other.endTime == it.endTime && other.dayOfWeek == it.dayOfWeek
    ensures ItemOk(other) <==> ItemOk(it)
  {
  }

  /** Trimming before the save does not change what the save accepts. */
  lemma StoredItemOk(it: Item)
    ensures ItemOk(StoredItem(it)) <==> ItemOk(it)
  {
    TrimIdempotent(it.title);
    ItemOkDependsOn(it, StoredItem(it));
  }

  /** Task ids are document ids: no two tasks share one. */
  ghost predicate TaskIdsUnique(ts: seq<Task>)
  {
    forall i, j :: 0 <= i < j < |ts| ==> ts[i].id != ts[j].id
  }

  /** The schedule invariant: every stored item and task passed validation,
      and task ids are distinct. */
  ghost predicate ScheduleOk(regular: seq<Item>, special: seq<Item>, tasks: seq<Task>)
  {
    (forall it :: it in regular ==> ItemOk(it))
    && (forall it :: it in special ==> ItemOk(it))
    && (forall t :: t in tasks ==> TaskOk(t))
    && TaskIdsUnique(tasks)
  }

  // ---- Start times ----

  predicate IsDigit(c: char)
  {
    '0' <= c <= '9'
  }

  /** One or two decimal digits, as in "9" or "09". */
  predicate ClockField(s: string)
  {
    1 <= |s| <= 2 && forall i :: 0 <= i < |s| ==> IsDigit(s[i])
  }

  function FieldValue(s: string): (n: nat)
    requires ClockField(s)
    ensures n <= 99
  {
    if |s| == 1 then s[0] as int - '0' as int
    else 10 * (s[0] as int - '0' as int) + (s[1] as int - '0' as int)
  }

  /** `startTime.split(':').map(Number)` on a well-formed "HH:MM" string: the
      hour and the minute. */
  function Clock(s: string): (r: Option<(nat, nat)>)
    ensures r.Some? ==> ':' in s && r.value.0 <= 99 && r.value.1 <= 99
  {
    match IndexOf(s, ':')
    case None => None
    case Some(k) =>
      if ClockField(s[..k]) && ClockField(s[k + 1..]) then Some((FieldValue(s[..k]), FieldValue(s[k + 1..])))
      else None
  }

  /** The sort key of an item: hour and minute in one number, so that keys
      compare as the comparator compares hours first and minutes second;
      a malformed start time sorts first. */
  function StartKey(it: Item): int
  {
    match Clock(it.startTime)
    case None => -1
    case Some(hm) => hm.0 * 100 + hm.1
  }

  /** The key order is the comparator's order: by hour, then by minute. */
  lemma StartKeyIsHourThenMinute(a: Item, b: Item)
    requires Clock(a.startTime).Some? && Clock(b.startTime).Some?
    ensures var (ha, ma) := Clock(a.startTime).value;
            var (hb, mb) := Clock(b.startTime).value;
            StartKey(a) <= StartKey(b) <==> ha < hb || (ha == hb && ma <= mb)
  {
    var (ha, ma) := Clock(a.startTime).value;
    var (hb, mb) := Clock(b.startTime).value;
    if ha < hb {
      assert ha * 100 + 100 <= hb * 100;
    } else if hb < ha {
      assert hb * 100 + 100 <= ha * 100;
    }
  }

  /** A well-formed start time sorts after every malformed one. */
  lemma MalformedSortsFirst(a: Item, b: Item)
    requires Clock(a.startTime).None? && Clock(b.startTime).Some?
    ensures StartKey(a) < StartKey(b)
  {
  }

  // ---- Day view ----

  function OnDay(items: seq<Item>, d: int): (r: seq<Item>)
    ensures forall it :: it in r <==> it in items && it.dayOfWeek == Some(d)
    ensures multiset(r) <= multiset(items)
  {
    Filter(items, (it: Item) => it.dayOfWeek == Some(d))
  }

  /** `getDaySchedule`: the items of that weekday, ordered by start time. */
  function DaySchedule(items: seq<Item>, d: int): (r: seq<Item>)
    ensures multiset(r) == multiset(OnDay(items, d))
    ensures forall it :: it in r <==> it in items && it.dayOfWeek == Some(d)
    ensures SortedBy(r, StartKey)
  {
    var on := OnDay(items, d);
    var r := SortBy(on, StartKey);
    assert forall it :: it in r <==> it in multiset(r);
    r
  }

  /** Every item of the day appears in the day view as often as it is
      stored, and items of other days never do. */
  lemma DayScheduleCounts(items: seq<Item>, d: int, it: Item)
    ensures it.dayOfWeek == Some(d) ==> multiset(DaySchedule(items, d))[it] == multiset(items)[it]
    ensures it.dayOfWeek != Some(d) ==> multiset(DaySchedule(items, d))[it] == 0
  {
    FilterCount(items, (x: Item) => x.dayOfWeek == Some(d), it);
  }

  /** The sort is stable: items of the day with the same start key keep the
      order in which they are stored. */
  lemma DayScheduleStable(items: seq<Item>, d: int, k: int, p: Item -> bool)
    requires forall it :: p(it) == (StartKey(it) == k)
    ensures Filter(DaySchedule(items, d), p) == Filter(OnDay(items, d), p)
  {
    SortByStable(OnDay(items, d), StartKey, k, p);
  }

  // ---- Upcoming tasks ----

  /** Pending and due between now and `days` days from now, both ends
      included. */
  predicate Upcoming(t: Task, now: Time, days: int)
  {
    now <= t.dueDate <= now + days * DayMs && t.status == Pending
  }

  function DueKey(t: Task): int
  {
    t.dueDate
  }

  /** `getUpcomingTasks`: the upcoming tasks, soonest first. */
  function UpcomingTasks(ts: seq<Task>, now: Time, days: int): (r: seq<Task>)
    ensures forall t :: t in r <==> t in ts && Upcoming(t, now, days)
    ensures multiset(r) <= multiset(ts)
    ensures forall i, j :: 0 <= i < j < |r| ==> r[i].dueDate <= r[j].dueDate
  {
    var f := Filter(ts, (t: Task) => Upcoming(t, now, days));
    var r := SortBy(f, DueKey);
    assert forall t :: t in r <==> t in multiset(r);
    assert forall i, j :: 0 <= i < j < |r| ==> DueKey(r[i]) <= DueKey(r[j]);
    r
  }

  /** The sort is stable: upcoming tasks due at the same time keep the order
      in which they are stored. */
  lemma UpcomingTasksStable(ts: seq<Task>, now: Time, days: int, k: int, p: Task -> bool)
    requires forall t :: p(t) == (DueKey(t) == k)
    ensures Filter(UpcomingTasks(ts, now, days), p) == Filter(Filter(ts, (t: Task) => Upcoming(t, now, days)), p)
  {
    SortByStable(Filter(ts, (t: Task) => Upcoming(t, now, days)), DueKey, k, p);
  }

  /** A window that ends before it starts holds nothing. */
  lemma NegativeWindowEmpty(ts: seq<Task>, now: Time, days: int)
    requires days < 0
    ensures UpcomingTasks(ts, now, days) == []
  {
  }

  /** `tasks.id(id)`: the first task with that id. */
  function TaskIndex(ts: seq<Task>, id: ItemId): (r: Option<nat>)
    ensures r.Some? ==> r.value < |ts| && ts[r.value].id == id
    ensures r.Some? ==> forall j :: 0 <= j < r.value ==> ts[j].id != id
    ensures r.None? <==> forall j :: 0 <= j < |ts| ==> ts[j].id != id
  {
    if ts == [] then None
    else if ts[0].id == id then Some(0)
    else match TaskIndex(ts[1..], id)
      case None => None
      case Some(k) => Some(k + 1)
  }

  /** The tasks after `completeTask(id)`: the one with that id is completed,
      nothing else changes; no such task is an error. */
  function CompleteById(ts: seq<Task>, id: ItemId): (r: Option<seq<Task>>)
    ensures r.None? <==> TaskIndex(ts, id).None?
    ensures r.Some? ==> (var k := TaskIndex(ts, id).value;
      |r.value| == |ts| && r.value[k].status == Completed && r.value[k].(status := ts[k].status) == ts[k]
      && forall j :: 0 <= j < |ts| && j != k ==> r.value[j] == ts[j])
  {
    match TaskIndex(ts, id)
    case None => None
    case Some(k) => Some(ts[k := ts[k].(status := Completed)])
  }

  /** Completing a task twice is completing it once. */
  lemma CompleteIdempotent(ts: seq<Task>, id: ItemId)
    requires CompleteById(ts, id).Some?
    ensures CompleteById(CompleteById(ts, id).value, id) == CompleteById(ts, id)
  {
    var k := TaskIndex(ts, id).value;
    var once := CompleteById(ts, id).value;
    assert forall j :: 0 <= j < k ==> once[j] == ts[j];
    assert TaskIndex(once, id) == Some(k);
    assert once[k := once[k].(status := Completed)] == once;
  }

  /** Completion keeps the invariant: titles and ids are untouched. */
  lemma CompleteKeepsOk(regular: seq<Item>, special: seq<Item>, ts: seq<Task>, id: ItemId)
    requires ScheduleOk(regular, special, ts) && CompleteById(ts, id).Some?
    ensures ScheduleOk(regular, special, CompleteById(ts, id).value)
  {
    var k := TaskIndex(ts, id).value;
    var r := CompleteById(ts, id).value;
    forall t | t in r
      ensures TaskOk(t)
    {
      var j :| 0 <= j < |r| && r[j] == t;
      assert ts[j] in ts;
      assert t.title == ts[j].title;
    }
    forall i, j | 0 <= i < j < |r|
      ensures r[i].id != r[j].id
    {
      assert r[i].id == ts[i].id && r[j].id == ts[j].id;
    }
  }

  /** Once completed, a task with unique id is no longer upcoming, whatever
      the window. */
  lemma CompletedNotUpcoming(ts: seq<Task>, id: ItemId, now: Time, days: int)
    requires TaskIdsUnique(ts) && CompleteById(ts, id).Some?
    ensures forall t :: t in UpcomingTasks(CompleteById(ts, id).value, now, days) ==> t.id != id
  {
    var k := TaskIndex(ts, id).value;
    var r := CompleteById(ts, id).value;
    forall t | t in UpcomingTasks(r, now, days)
      ensures t.id != id
    {
      var j :| 0 <= j < |r| && r[j] == t;
      if j != k {
        assert r[j] == ts[j];
        assert ts[j].id != ts[k].id;
      }
    }
  }

  /** Appending a valid task with a new id keeps the invariant. */
  lemma PushTaskKeepsOk(regular: seq<Item>, special: seq<Item>, ts: seq<Task>, t: Task)
    requires ScheduleOk(regular, special, ts) && TaskOk(t) && TaskIndex(ts, t.id).None?
    ensures ScheduleOk(regular, special, ts + [t])
  {
    var r := ts + [t];
    forall i, j | 0 <= i < j < |r|
      ensures r[i].id != r[j].id
    {
      if j == |ts| {
        assert r[i] == ts[i];
      }
    }
  }

  class Schedule {
    const cls: ClassId
    const academicYear: string
    var regularItems: seq<Item>
    var specialItems: seq<Item>
    var tasks: seq<Task>
    const createdBy: UserId
    var lastUpdatedBy: Option<UserId>

    ghost predicate Valid()
      reads this
    {
      ScheduleOk(regularItems, specialItems, tasks)
    }

    /** `new Schedule({ class, academicYear, createdBy })`: an empty timetable. */
    constructor(cls: ClassId, academicYear: string, createdBy: UserId)
      ensures Valid() && this.cls == cls && this.academicYear == academicYear && this.createdBy == createdBy
      ensures regularItems == [] && specialItems == [] && tasks == [] && lastUpdatedBy.None?
    {
      this.cls := cls;
      this.academicYear := academicYear;
      this.createdBy := createdBy;
      regularItems := [];
      specialItems := [];
      tasks := [];
      lastUpdatedBy := None;
    }

    /** `addTask`: append it and record who assigned it; a title that
        trims to nothing fails the save and nothing changes. */
    method AddTask(t: Task) returns (s: Status)
      requires Valid() && TaskIndex(tasks, t.id).None?
      modifies this
      ensures Valid() && regularItems == old(regularItems) && specialItems == old(specialItems)
      ensures s.Done? <==> TaskOk(t)
      ensures s.Failed? ==> s.error == ServerError && unchanged(this)
      ensures s.Done? ==> tasks == old(tasks) + [StoredTask(t)] && lastUpdatedBy == Some(t.assignedBy)
    {
      if !TaskOk(t) {
        return Failed(ServerError);
      }
      var st := StoredTask(t);
      PushTaskKeepsOk(regularItems, specialItems, tasks, st);
      tasks := tasks + [st];
      lastUpdatedBy := Some(t.assignedBy);
      s := Done;
    }

    /** `completeTask`: mark it completed and record who did it; an
        unknown id throws and nothing changes. */
    method CompleteTask(id: ItemId, u: UserId) returns (s: Status)
      requires Valid()
      modifies this
      ensures Valid() && regularItems == old(regularItems) && specialItems == old(specialItems)
      ensures s.Done? <==> TaskIndex(old(tasks), id).Some?
      ensures s.Failed? ==> s.error == ServerError && unchanged(this)
      ensures s.Done? ==> Some(tasks) == CompleteById(old(tasks), id) && lastUpdatedBy == Some(u)
    {
      var k := TaskIndex(tasks, id);
      if k.None? {
        return Failed(ServerError);
      }
      CompleteKeepsOk(regularItems, specialItems, tasks, id);
      tasks := tasks[k.value := tasks[k.value].(status := Completed)];
      lastUpdatedBy := Some(u);
      s := Done;
    }
  }
}
