/** The HTTP handlers over class timetables: who may see and edit a class's
    schedule, the checks on new items and tasks, editing and deleting regular
    items, the day view and the upcoming-task window. The class record
    (its existence, schedule visibility and academic year) and the class's
    schedule (`Schedule.findOne({ class })`) are parameters; ids of new items
    and tasks are supplied by the caller. */
module ScheduleController {
  import opened Common
  import opened Strings
  import opened Seqs
  import opened Roles
  import opened Users
  import opened Permissions
  import opened ScheduleModel

  /** The fields of an item request; `None` is a field left out. */
  datatype ItemRequest = ItemRequest(
    title: Option<string>,
    kind: Option<string>,
    subject: Option<string>,
    teacher: Option<UserId>,
    dayOfWeek: Option<int>,
    startTime: Option<string>,
    endTime: Option<string>,
    location: Option<string>,
    description: Option<string>,
    color: Option<string>,
    specificDate: Option<Time>)

  /** Viewing a schedule: administrators, class members when the schedule
      visibility is `class_only`, and everyone when it is `school` or
      `public`. */
  predicate MayViewSchedule(a: Actor, classId: ClassId, v: Visibility)
  {
    HasAdminAccess(a.role) || (BelongsToClass(a.cls, classId) && v == ClassOnly) || v == School || v == Public
  }

  /** Adding special items: whoever may manage tasks, and the president of the
      class. */
  predicate MayAddSpecial(a: Actor, classId: ClassId)
  {
    CanManageTasks(a.role, a.cls, classId) || (a.role == ClassPresident && BelongsToClass(a.cls, classId))
  }

  /** Editing a regular item: whoever may manage tasks, and its creator. */
  predicate MayUpdateItem(a: Actor, classId: ClassId, creator: Option<UserId>)
  {
    CanManageTasks(a.role, a.cls, classId) || creator == Some(a.id)
  }

  /** Deleting a regular item: administrators, class teachers, and its
      creator. */
  predicate MayDeleteItem(a: Actor, creator: Option<UserId>)
  {
    a.role in {SuperAdmin, Admin, ClassTeacher} || creator == Some(a.id)
  }

  /** The write rules are not nested in the view rule: a teacher may add to
      and edit a `class_only` schedule of a class they cannot see, and may
      edit an item they cannot delete. */
  lemma WriteRulesVersusView(a: Actor, classId: ClassId, creator: Option<UserId>)
    ensures MayDeleteItem(a, creator) ==> MayUpdateItem(a, classId, creator)
    ensures CanManageTasks(a.role, a.cls, classId) ==> MayAddSpecial(a, classId)
    ensures var t := Actor(a.id, Teacher, None);
      CanManageTasks(t.role, t.cls, classId) && !MayViewSchedule(t, classId, ClassOnly)
      && MayUpdateItem(t, classId, creator) && (creator != Some(a.id) ==> !MayDeleteItem(t, creator))
  {
  }

  /** `type || default`, then the schema's enum check. */
  function KindOrDefault(kind: Option<string>, fallback: ItemKind): (r: Option<ItemKind>)
    ensures !Truthy(kind) ==> r == Some(fallback)
    ensures Truthy(kind) ==> r == ParseItemKind(kind.value)
  {
    if Truthy(kind) then ParseItemKind(kind.value) else Some(fallback)
  }

  /** The presence check of `addRegularScheduleItem` as written: `!dayOfWeek`
      is true for Sunday's 0 as well as for a missing day. */
  predicate RegularRequestOkAsWritten(r: ItemRequest)
  {
    Truthy(r.title) && r.dayOfWeek.Some? && r.dayOfWeek.value != 0 && Truthy(r.startTime) && Truthy(r.endTime)
    && 0 <= r.dayOfWeek.value <= 6
  }

  /** The check the error message describes: all four fields present and the
      day in 0 (Sunday) .. 6 (Saturday). */
  predicate RegularRequestOk(r: ItemRequest)
  {
    Truthy(r.title) && r.dayOfWeek.Some? && Truthy(r.startTime) && Truthy(r.endTime)
    && 0 <= r.dayOfWeek.value <= 6
  }

  /** As written, a Sunday item is refused with 400 although Sunday is in the
      documented range; the two checks differ on Sunday and nowhere else. */
  lemma SundayRefusedAsWritten(r: ItemRequest)
    ensures var sunday := ItemRequest(Some("Maths"), None, None, None, Some(0), Some("08:00"), Some("09:00"),
                                      None, None, None, None);
      !RegularRequestOkAsWritten(sunday) && RegularRequestOk(sunday)
    ensures RegularRequestOkAsWritten(r) <==> RegularRequestOk(r) && r.dayOfWeek.value != 0
  {
  }

  /** A regular item as `addRegularScheduleItem` builds it. */
  function RegularItem(id: ItemId, r: ItemRequest, author: UserId, now: Time): (it: Item)
    requires r.title.Some? && r.startTime.Some? && r.endTime.Some? && KindOrDefault(r.kind, ClassSession).Some?
    ensures it.id == id && it.dayOfWeek == r.dayOfWeek && it.isRecurring && it.specificDate.None?
    ensures it.createdBy == Some(author) && it.title == Trim(r.title.value)
    ensures it.color == (if r.color.Some? then r.color.value else DefaultColor)
  {
    StoredItem(Item(id, r.title.value, KindOrDefault(r.kind, ClassSession).value, r.subject, r.teacher, r.dayOfWeek,
                    r.startTime.value, r.endTime.value, r.location, r.description,
                    if r.color.Some? then r.color.value else DefaultColor, true, None, Some(author), now))
  }

  /** A special item as `addSpecialScheduleItem` builds it: no weekday. */
  function SpecialItem(id: ItemId, r: ItemRequest, author: UserId, now: Time): (it: Item)
    requires r.title.Some? && r.startTime.Some? && r.endTime.Some? && KindOrDefault(r.kind, Event).Some?
    ensures it.id == id && it.dayOfWeek.None? && !it.isRecurring && it.specificDate == r.specificDate
    ensures it.createdBy == Some(author) && it.title == Trim(r.title.value)
  {
    StoredItem(Item(id, r.title.value, KindOrDefault(r.kind, Event).value, r.subject, r.teacher, None,
                    r.startTime.value, r.endTime.value, r.location, r.description,
                    if r.color.Some? then r.color.value else DefaultColor, false, r.specificDate, Some(author), now))
  }

  /** Every weekday, Sunday included, can be scheduled by the corrected check,
      and what it lets through is a valid item once the title is not blank. */
  lemma RegularRequestsStoreValidItems(r: ItemRequest, id: ItemId, author: UserId, now: Time)
    ensures forall d :: 0 <= d <= 6 ==>
      RegularRequestOk(ItemRequest(Some("Maths"), None, None, None, Some(d), Some("08:00"), Some("09:00"), None, None, None, None))
    ensures RegularRequestOk(r) && KindOrDefault(r.kind, ClassSession).Some? && Trim(r.title.value) != "" ==>
      ItemOk(RegularItem(id, r, author, now)) && RegularItem(id, r, author, now).dayOfWeek == r.dayOfWeek
  {
    if RegularRequestOk(r) && KindOrDefault(r.kind, ClassSession).Some? && Trim(r.title.value) != "" {
      var raw := Item(id, r.title.value, KindOrDefault(r.kind, ClassSession).value, r.subject, r.teacher, r.dayOfWeek,
                      r.startTime.value, r.endTime.value, r.location, r.description,
                      if r.color.Some? then r.color.value else DefaultColor, true, None, Some(author), now);
      StoredItemOk(raw);
    }
  }

  /** Appending a valid item to either list keeps the schedule invariant. */
  lemma PushItemKeepsOk(regular: seq<Item>, special: seq<Item>, tasks: seq<Task>, it: Item)
    requires ScheduleOk(regular, special, tasks) && ItemOk(it)
    ensures ScheduleOk(regular + [it], special, tasks)
    ensures ScheduleOk(regular, special + [it], tasks)
  {
  }

  /** `push` onto the regular or the special items, recording the editor. */
  method PushItem(sch: Schedule, it: Item, special: bool, u: UserId)
    requires sch.Valid() && ItemOk(it)
    modifies sch
    ensures sch.Valid() && sch.tasks == old(sch.tasks) && sch.lastUpdatedBy == Some(u)
    ensures special ==> sch.specialItems == old(sch.specialItems) + [it] && sch.regularItems == old(sch.regularItems)
    ensures !special ==> sch.regularItems == old(sch.regularItems) + [it] && sch.specialItems == old(sch.specialItems)
  {
    PushItemKeepsOk(sch.regularItems, sch.specialItems, sch.tasks, it);
    if special {
      sch.specialItems := sch.specialItems + [it];
    } else {
      sch.regularItems := sch.regularItems + [it];
    }
    sch.lastUpdatedBy := Some(u);
  }

  /** `getClassSchedule`: 404 for an unknown class, 403 without view access;
      otherwise the schedule, created empty when the class has none. */
  method GetClassSchedule(a: Actor, classId: ClassId, classVisibility: Option<Visibility>, academicYear: string,
                          schedule: Schedule?)
    returns (s: Status, created: Schedule?)
    ensures classVisibility.None? ==> s == Failed(NotFound)
    ensures s.Done? <==> classVisibility.Some? && MayViewSchedule(a, classId, classVisibility.value)
    ensures classVisibility.Some? && s.Failed? ==> s == Failed(Forbidden)
    ensures created != null <==> s.Done? && schedule == null
    ensures created != null ==> (fresh(created) && created.Valid() && created.cls == classId
      && created.academicYear == academicYear && created.createdBy == a.id && created.tasks == [])
  {
    created := null;
    if classVisibility.None? {
      return Failed(NotFound), null;
    }
    if !MayViewSchedule(a, classId, classVisibility.value) {
      return Failed(Forbidden), null;
    }
    if schedule == null {
      created := new Schedule(classId, academicYear, a.id);
    }
    s := Done;
  }

  /** `addRegularScheduleItem`: 400 for a missing field, for Sunday (the
      check as written takes day 0 for a missing day) or for a day outside
      0..6, 404 for an unknown class, 403 unless the caller may manage tasks;
      then the item joins the regular items of the class's schedule, or of a
      new one. An unknown type or a blank title fails the save. */
  method AddRegularItem(a: Actor, classId: ClassId, r: ItemRequest, classExists: bool, academicYear: string,
                        schedule: Schedule?, itemId: ItemId, now: Time)
    returns (s: Status, created: Schedule?)
    requires schedule != null ==> schedule.Valid()
    modifies schedule
    ensures !RegularRequestOkAsWritten(r) ==> s == Failed(BadRequest)
    ensures RegularRequestOkAsWritten(r) && !classExists ==> s == Failed(NotFound)
    ensures RegularRequestOkAsWritten(r) && classExists && !CanManageTasks(a.role, a.cls, classId) ==> s == Failed(Forbidden)
    ensures s.Done? <==> (RegularRequestOkAsWritten(r) && classExists && CanManageTasks(a.role, a.cls, classId)
                          && KindOrDefault(r.kind, ClassSession).Some? && Trim(r.title.value) != "")
    ensures schedule != null ==> schedule.Valid()
    ensures schedule != null && s.Failed? ==> unchanged(schedule)
    ensures schedule != null && s.Done? ==>
      schedule.regularItems == old(schedule.regularItems) + [RegularItem(itemId, r, a.id, now)]
      && schedule.specialItems == old(schedule.specialItems) && schedule.tasks == old(schedule.tasks)
      && schedule.lastUpdatedBy == Some(a.id)
    ensures created != null <==> s.Done? && schedule == null
    ensures created != null ==> (fresh(created) && created.Valid() && created.cls == classId
      && created.regularItems == [RegularItem(itemId, r, a.id, now)] && created.specialItems == [] && created.tasks == [])
  {
    created := null;
    if !RegularRequestOkAsWritten(r) {
      return Failed(BadRequest), null;
    }
    if !classExists {
      return Failed(NotFound), null;
    }
    if !CanManageTasks(a.role, a.cls, classId) {
      return Failed(Forbidden), null;
    }
    if KindOrDefault(r.kind, ClassSession).None? || Trim(r.title.value) == "" {
      return Failed(ServerError), null;
    }
    var it := RegularItem(itemId, r, a.id, now);
    RegularRequestsStoreValidItems(r, itemId, a.id, now);
    if schedule == null {
      created := new Schedule(classId, academicYear, a.id);
      PushItem(created, it, false, a.id);
    } else {
      PushItem(schedule, it, false, a.id);
    }
    s := Done;
  }

  /** The presence check of `addSpecialScheduleItem`. */
  predicate SpecialRequestOk(r: ItemRequest)
  {
    Truthy(r.title) && r.specificDate.Some? && Truthy(r.startTime) && Truthy(r.endTime)
  }

  /** `addSpecialScheduleItem`: 400 for a missing field, 404 for an unknown
      class, 403 unless the caller may manage tasks or presides over the
      class; then the item joins the special items. An unknown type or a
      blank title fails the save. */
  method AddSpecialItem(a: Actor, classId: ClassId, r: ItemRequest, classExists: bool, academicYear: string,
                        schedule: Schedule?, itemId: ItemId, now: Time)
    returns (s: Status, created: Schedule?)
    requires schedule != null ==> schedule.Valid()
    modifies schedule
    ensures !SpecialRequestOk(r) ==> s == Failed(BadRequest)
    ensures SpecialRequestOk(r) && !classExists ==> s == Failed(NotFound)
    ensures SpecialRequestOk(r) && classExists && !MayAddSpecial(a, classId) ==> s == Failed(Forbidden)
    ensures s.Done? <==> (SpecialRequestOk(r) && classExists && MayAddSpecial(a, classId)
                          && KindOrDefault(r.kind, Event).Some? && Trim(r.title.value) != "")
    ensures schedule != null ==> schedule.Valid()
    ensures schedule != null && s.Failed? ==> unchanged(schedule)
    ensures schedule != null && s.Done? ==>
      schedule.specialItems == old(schedule.specialItems) + [SpecialItem(itemId, r, a.id, now)]
      && schedule.regularItems == old(schedule.regularItems) && schedule.tasks == old(schedule.tasks)
      && schedule.lastUpdatedBy == Some(a.id)
    ensures created != null <==> s.Done? && schedule == null
    ensures created != null ==> (fresh(created) && created.Valid() && created.cls == classId
      && created.specialItems == [SpecialItem(itemId, r, a.id, now)] && created.regularItems == [] && created.tasks == [])
  {
    created := null;
    if !SpecialRequestOk(r) {
      return Failed(BadRequest), null;
    }
    if !classExists {
      return Failed(NotFound), null;
    }
    if !MayAddSpecial(a, classId) {
      return Failed(Forbidden), null;
    }
    if KindOrDefault(r.kind, Event).None? || Trim(r.title.value) == "" {
      return Failed(ServerError), null;
    }
    var it := SpecialItem(itemId, r, a.id, now);
    StoredItemOk(Item(itemId, r.title.value, KindOrDefault(r.kind, Event).value, r.subject, r.teacher, None,
                      r.startTime.value, r.endTime.value, r.location, r.description,
                      if r.color.Some? then r.color.value else DefaultColor, false, r.specificDate, Some(a.id), now));
    if schedule == null {
      created := new Schedule(classId, academicYear, a.id);
      PushItem(created, it, true, a.id);
    } else {
      PushItem(schedule, it, true, a.id);
    }
    s := Done;
  }

  /** What `addTask` builds: pending, assigned by the caller now, with
      priority `priority || 'medium'` and no attachments unless given. */
  function NewTask(id: ItemId, title: string, description: Option<string>, subject: Option<string>, dueDate: Time,
                   priority: Priority, attachments: Option<seq<string>>, reminderDate: Option<Time>,
                   author: UserId, now: Time): (t: Task)
    ensures t.id == id && t.status == Pending && t.assignedBy == author && t.dueDate == dueDate && t.priority == priority
    ensures attachments.None? ==> t.attachments == []
  {
    Task(id, title, description, subject, dueDate, author, now, priority, Pending,
         if attachments.Some? then attachments.value else [], reminderDate)
  }

  function PriorityOrDefault(p: Option<string>): (r: Option<Priority>)
    ensures !Truthy(p) ==> r == Some(Medium)
    ensures Truthy(p) ==> r == ParsePriority(p.value)
  {
    if Truthy(p) then ParsePriority(p.value) else Some(Medium)
  }

  /** `addTask`: 400 without a title or due date, 404 for an unknown class,
      403 unless the caller may manage tasks; then `Schedule.AddTask` on the
      class's schedule or a new one. An unknown priority or a blank title
      fails the save. */
  method AddTask(a: Actor, classId: ClassId, title: Option<string>, description: Option<string>, subject: Option<string>,
                 dueDate: Option<Time>, priority: Option<string>, attachments: Option<seq<string>>,
                 reminderDate: Option<Time>, classExists: bool, academicYear: string,
                 schedule: Schedule?, taskId: ItemId, now: Time)
    returns (s: Status, created: Schedule?)
    requires schedule != null ==> schedule.Valid() && TaskIndex(schedule.tasks, taskId).None?
    modifies schedule
    ensures !Truthy(title) || dueDate.None? ==> s == Failed(BadRequest)
    ensures Truthy(title) && dueDate.Some? && !classExists ==> s == Failed(NotFound)
    ensures (Truthy(title) && dueDate.Some? && classExists && !CanManageTasks(a.role, a.cls, classId)) ==> s == Failed(Forbidden)
    ensures (Truthy(title) && dueDate.Some? && classExists && CanManageTasks(a.role, a.cls, classId)
             && !(PriorityOrDefault(priority).Some? && Trim(title.value) != "")) ==> s == Failed(ServerError)
    ensures s.Done? <==> (Truthy(title) && dueDate.Some? && classExists && CanManageTasks(a.role, a.cls, classId)
                          && PriorityOrDefault(priority).Some? && Trim(title.value) != "")
    ensures schedule != null ==> schedule.Valid()
    ensures schedule != null && s.Failed? ==> unchanged(schedule)
    ensures s.Done? ==>
      var t := StoredTask(NewTask(taskId, title.value, description, subject, dueDate.value,
                                  PriorityOrDefault(priority).value, attachments, reminderDate, a.id, now));
      (schedule != null ==> schedule.tasks == old(schedule.tasks) + [t] && schedule.lastUpdatedBy == Some(a.id))
      && (created != null ==> created.tasks == [t])
    ensures created != null <==> s.Done? && schedule == null
    ensures created != null ==> fresh(created) && created.Valid() && created.cls == classId
  {
    created := null;
    if !Truthy(title) || dueDate.None? {
      return Failed(BadRequest), null;
    }
    if !classExists {
      return Failed(NotFound), null;
    }
    if !CanManageTasks(a.role, a.cls, classId) {
      return Failed(Forbidden), null;
    }
    var p := PriorityOrDefault(priority);
    if p.None? {
      return Failed(ServerError), null;
    }
    var t := NewTask(taskId, title.value, description, subject, dueDate.value, p.value, attachments, reminderDate, a.id, now);
    if schedule == null {
      var fresh_ := new Schedule(classId, academicYear, a.id);
      s := fresh_.AddTask(t);
      if s.Done? {
        created := fresh_;
      }
    } else {
      s := schedule.AddTask(t);
    }
  }

  /** `completeTask`: 404 without a schedule or task; then that task is
      completed. No role is checked: any signed-in user may complete any
      class's task. */
  method CompleteTask(u: UserId, taskId: ItemId, schedule: Schedule?) returns (s: Status)
    requires schedule != null ==> schedule.Valid()
    modifies schedule
    ensures s.Done? <==> schedule != null && TaskIndex(old(schedule.tasks), taskId).Some?
    ensures s.Failed? ==> s.error == NotFound
    ensures schedule != null ==> schedule.Valid()
    ensures schedule != null && s.Failed? ==> unchanged(schedule)
    ensures s.Done? ==> Some(schedule.tasks) == CompleteById(old(schedule.tasks), taskId)
                        && schedule.lastUpdatedBy == Some(u)
  {
    if schedule == null || TaskIndex(schedule.tasks, taskId).None? {
      return Failed(NotFound);
    }
    s := schedule.CompleteTask(taskId, u);
  }

  /** `getDaySchedule`: 400 for a missing day or one outside 0..6 (here 0 is
      accepted), 404 without a schedule; otherwise the day view. */
  method GetDaySchedule(dayOfWeek: Option<int>, schedule: Schedule?) returns (r: Result<seq<Item>>)
    ensures dayOfWeek.None? || !(0 <= dayOfWeek.value <= 6) ==> r == Err(BadRequest)
    ensures dayOfWeek.Some? && 0 <= dayOfWeek.value <= 6 && schedule == null ==> r == Err(NotFound)
    ensures r.Ok? <==> dayOfWeek.Some? && 0 <= dayOfWeek.value <= 6 && schedule != null
    ensures r.Ok? ==> (forall it :: it in r.value <==> it in schedule.regularItems && it.dayOfWeek == dayOfWeek)
                      && SortedBy(r.value, StartKey)
                      && r.value == DaySchedule(schedule.regularItems, dayOfWeek.value)
  {
    if dayOfWeek.None? || dayOfWeek.value < 0 || dayOfWeek.value > 6 {
      return Err(BadRequest);
    }
    if schedule == null {
      return Err(NotFound);
    }
    r := Ok(DaySchedule(schedule.regularItems, dayOfWeek.value));
  }

  /** `getUpcomingTasks`: 404 without a schedule; otherwise the pending tasks
      due within the given number of days, seven when none is given. */
  method GetUpcomingTasks(days: Option<int>, schedule: Schedule?, now: Time) returns (r: Result<seq<Task>>)
    ensures r.Err? <==> schedule == null
    ensures r.Err? ==> r.error == NotFound
    ensures r.Ok? ==> r.value == UpcomingTasks(schedule.tasks, now, if days.Some? then days.value else DefaultDays)
    ensures r.Ok? && days.None? ==> forall t :: t in r.value ==> t.status == Pending && now <= t.dueDate <= now + 7 * DayMs
  {
    if schedule == null {
      return Err(NotFound);
    }
    r := Ok(UpcomingTasks(schedule.tasks, now, if days.Some? then days.value else DefaultDays));
  }

  /** The item after `updateRegularScheduleItem`: each field the request
      gives replaces the stored one, trimmed where the schema trims (title,
      type, times and colour only when truthy); the rest stay as stored. */
  function EditedItem(it: Item, r: ItemRequest, kind: Option<ItemKind>): Item
  {
    Item(it.id,
         if Truthy(r.title) then Trim(r.title.value) else it.title,
         if kind.Some? then kind.value else it.kind,
         if r.subject.Some? then TrimOpt(r.subject) else it.subject,
         if r.teacher.Some? then r.teacher else it.teacher,
         if r.dayOfWeek.Some? then r.dayOfWeek else it.dayOfWeek,
         if Truthy(r.startTime) then r.startTime.value else it.startTime,
         if Truthy(r.endTime) then r.endTime.value else it.endTime,
         if r.location.Some? then TrimOpt(r.location) else it.location,
         if r.description.Some? then TrimOpt(r.description) else it.description,
         if Truthy(r.color) then r.color.value else it.color,
         it.isRecurring, it.specificDate, it.createdBy, it.createdAt)
  }

  /** An update that gives no field leaves the item as it was; one that only
      moves a valid item to Sunday is accepted, although the creation check
      as written refuses Sunday. */
  lemma EditedItemCases(it: Item)
    ensures EditedItem(it, ItemRequest(None, None, None, None, None, None, None, None, None, None, None), None) == it
    ensures ItemOk(it) ==>
      var e := EditedItem(it, ItemRequest(None, None, None, None, Some(0), None, None, None, None, None, None), None);
      ItemOk(e) && e.dayOfWeek == Some(0)
  {
    var e := EditedItem(it, ItemRequest(None, None, None, None, Some(0), None, None, None, None, None, None), None);
    if ItemOk(it) {
      ItemOkDependsOn(it.(dayOfWeek := Some(0)), e);
    }
  }

  /** Replacing one item with a valid one keeps the schedule invariant. */
  lemma ReplaceItemKeepsOk(regular: seq<Item>, special: seq<Item>, tasks: seq<Task>, k: nat, it: Item)
    requires ScheduleOk(regular, special, tasks) && k < |regular| && ItemOk(it)
    ensures ScheduleOk(regular[k := it], special, tasks)
  {
  }

  /** `regularItems.id(id)`: the first regular item with that id. */
  function ItemIndex(items: seq<Item>, id: ItemId): (r: Option<nat>)
    ensures r.Some? ==> r.value < |items| && items[r.value].id == id
    ensures r.Some? ==> forall j :: 0 <= j < r.value ==> items[j].id != id
    ensures r.None? <==> forall j :: 0 <= j < |items| ==> items[j].id != id
  {
    if items == [] then None
    else if items[0].id == id then Some(0)
    else match ItemIndex(items[1..], id)
      case None => None
      case Some(k) => Some(k + 1)
  }

  /** `updateRegularScheduleItem`: 404 without a schedule or item, 403 unless
      the caller may manage tasks or created the item; then the given fields
      replace the stored ones. An unknown type, a blank title or a day
      outside 0..6 fails the save. */
  method UpdateRegularItem(a: Actor, classId: ClassId, itemId: ItemId, r: ItemRequest, schedule: Schedule?)
    returns (s: Status)
    requires schedule != null ==> schedule.Valid()
    modifies schedule
    ensures schedule == null ==> s == Failed(NotFound)
    ensures schedule != null ==> schedule.Valid()
    ensures schedule != null && s.Failed? ==> unchanged(schedule)
    ensures s.Done? <==> (schedule != null && ItemIndex(old(schedule.regularItems), itemId).Some?
      && (var it := old(schedule.regularItems)[ItemIndex(old(schedule.regularItems), itemId).value];
          MayUpdateItem(a, classId, it.createdBy)
          && (Truthy(r.kind) ==> ParseItemKind(r.kind.value).Some?)
          && ItemOk(EditedItem(it, r, if Truthy(r.kind) then ParseItemKind(r.kind.value) else None))))
    ensures s.Done? ==>
      var k := ItemIndex(old(schedule.regularItems), itemId).value;
      var it := old(schedule.regularItems)[k];
      schedule.regularItems == old(schedule.regularItems)[k := EditedItem(it, r, if Truthy(r.kind) then ParseItemKind(r.kind.value) else None)]
      && schedule.specialItems == old(schedule.specialItems) && schedule.tasks == old(schedule.tasks)
      && schedule.lastUpdatedBy == Some(a.id)
  {
    if schedule == null {
      return Failed(NotFound);
    }
    var k := ItemIndex(schedule.regularItems, itemId);
    if k.None? {
      return Failed(NotFound);
    }
    var it := schedule.regularItems[k.value];
    if !MayUpdateItem(a, classId, it.createdBy) {
      return Failed(Forbidden);
    }
    var kind := if Truthy(r.kind) then ParseItemKind(r.kind.value) else None;
    if Truthy(r.kind) && kind.None? {
      return Failed(ServerError);
    }
    var e := EditedItem(it, r, kind);
    if !ItemOk(e) {
      return Failed(ServerError);
    }
    ReplaceItemKeepsOk(schedule.regularItems, schedule.specialItems, schedule.tasks, k.value, e);
    schedule.regularItems := schedule.regularItems[k.value := e];
    schedule.lastUpdatedBy := Some(a.id);
    s := Done;
  }

  function WithoutItem(items: seq<Item>, id: ItemId): (r: seq<Item>)
    ensures forall it :: it in r <==> it in items && it.id != id
    ensures |r| <= |items|
  {
    Filter(items, (it: Item) => it.id != id)
  }

  /** `deleteRegularScheduleItem`: 404 without a schedule or item, 403 unless
      the caller is an administrator, a class teacher or the item's creator;
      then every item with that id goes and all others stay, in order. */
  method DeleteRegularItem(a: Actor, itemId: ItemId, schedule: Schedule?) returns (s: Status)
    requires schedule != null ==> schedule.Valid()
    modifies schedule
    ensures schedule == null ==> s == Failed(NotFound)
    ensures schedule != null ==> schedule.Valid()
    ensures schedule != null && s.Failed? ==> unchanged(schedule)
    ensures s.Done? <==> (schedule != null && ItemIndex(old(schedule.regularItems), itemId).Some?
      && MayDeleteItem(a, old(schedule.regularItems)[ItemIndex(old(schedule.regularItems), itemId).value].createdBy))
    ensures s.Done? ==>
      schedule.regularItems == WithoutItem(old(schedule.regularItems), itemId)
      && |schedule.regularItems| < |old(schedule.regularItems)|
      && schedule.specialItems == old(schedule.specialItems) && schedule.tasks == old(schedule.tasks)
      && schedule.lastUpdatedBy == Some(a.id)
  {
    if schedule == null {
      return Failed(NotFound);
    }
    var k := ItemIndex(schedule.regularItems, itemId);
    if k.None? {
      return Failed(NotFound);
    }
    if !MayDeleteItem(a, schedule.regularItems[k.value].createdBy) {
      return Failed(Forbidden);
    }
    var rest := WithoutItem(schedule.regularItems, itemId);
    FilterShrinks(schedule.regularItems, (it: Item) => it.id != itemId, k.value);
    schedule.regularItems := rest;
    schedule.lastUpdatedBy := Some(a.id);
    s := Done;
  }
}
