/** The class handlers that change a class and the users tied to it: adding
    and removing students, replacing the class structure (and with it the
    officers' roles), updating details including the class teacher, and the
    privacy settings. Users are the account collection, indexed by id;
    `User.findByIdAndUpdate` on an unknown id changes nothing. The class is
    the document `Class.findById` returns, or null. */
module ClassController {
  import opened Common
  import opened Strings
  import opened Seqs
  import opened Roles
  import opened Users
  import opened Accounts
  import opened ClassModel

  // ---- Updates of user records ----

  /** `findByIdAndUpdate(id, { role })`. */
  function WithRole(users: seq<User>, id: UserId, r: Role): (v: seq<User>)
    ensures |v| == |users|
    ensures forall i :: 0 <= i < |v| ==> v[i] == if i == id then users[i].(role := r) else users[i]
  {
    if id < |users| then users[id := users[id].(role := r)] else users
  }

  /** Changes that keep every email keep them unique. */
  lemma SameEmailsKeepUnique(a: seq<User>, b: seq<User>)
    requires UniqueEmails(a) && |a| == |b| && forall i :: 0 <= i < |a| ==> a[i].email == b[i].email
    ensures UniqueEmails(b)
  {
  }

  /** The role changes applied one after another. */
  function SetRoles(users: seq<User>, updates: seq<(UserId, Role)>): (v: seq<User>)
    ensures |v| == |users|
  {
    if updates == [] then users
    else
      var last := updates[|updates| - 1];
      WithRole(SetRoles(users, updates[..|updates| - 1]), last.0, last.1)
  }

  /** The role the last update for `id` sets, if any. */
  function LastRole(updates: seq<(UserId, Role)>, id: UserId): (r: Option<Role>)
    ensures r.None? <==> forall k :: 0 <= k < |updates| ==> updates[k].0 != id
  {
    if updates == [] then None
    else if updates[|updates| - 1].0 == id then Some(updates[|updates| - 1].1)
    else LastRole(updates[..|updates| - 1], id)
  }

  /** Applying a run of role changes: each user ends with the role of the
      last change naming them, or their old role, and nothing else about any
      user changes. */
  lemma {:induction false} SetRolesEffect(users: seq<User>, updates: seq<(UserId, Role)>)
    ensures |SetRoles(users, updates)| == |users|
    ensures forall i :: 0 <= i < |users| ==>
      SetRoles(users, updates)[i] == users[i].(role := if LastRole(updates, i).Some? then LastRole(updates, i).value else users[i].role)
  {
    if updates != [] {
      SetRolesEffect(users, updates[..|updates| - 1]);
    }
  }

  /** The last change for a user in `a + b` is their last in `b`, or else
      their last in `a`. */
  lemma {:induction false} LastRoleAppend(a: seq<(UserId, Role)>, b: seq<(UserId, Role)>, id: UserId)
    ensures LastRole(a + b, id) == if LastRole(b, id).Some? then LastRole(b, id) else LastRole(a, id)
  {
    if b != [] {
      assert (a + b)[..|a + b| - 1] == a + b[..|b| - 1];
      LastRoleAppend(a, b[..|b| - 1], id);
    } else {
      assert a + b == a;
    }
  }

  lemma SetRolesKeepsUnique(users: seq<User>, updates: seq<(UserId, Role)>)
    requires UniqueEmails(users)
    ensures UniqueEmails(SetRoles(users, updates))
  {
    SetRolesEffect(users, updates);
    SameEmailsKeepUnique(users, SetRoles(users, updates));
  }

  // ---- Adding and removing students ----

  /** The students after `addStudentsToClass`: each id not yet present is
      appended, in the order given. */
  function AddNew(students: seq<UserId>, ids: seq<UserId>): (r: seq<UserId>)
    ensures |r| >= |students| && r[..|students|] == students
  {
    if ids == [] then students
    else
      var s := AddNew(students, ids[..|ids| - 1]);
      var x := ids[|ids| - 1];
      if x in s then s else (assert (s + [x])[..|students|] == s[..|students|]; s + [x])
  }

  ghost predicate NoDuplicates(s: seq<UserId>)
  {
    forall i, j :: 0 <= i < j < |s| ==> s[i] != s[j]
  }

  /** The old list is kept as a prefix, the new list holds exactly the old
      students and the given ids, and no duplicate is introduced. */
  lemma {:induction false} AddNewProperties(students: seq<UserId>, ids: seq<UserId>)
    ensures |AddNew(students, ids)| >= |students| && AddNew(students, ids)[..|students|] == students
    ensures forall x :: x in AddNew(students, ids) <==> x in students || x in ids
    ensures NoDuplicates(students) ==> NoDuplicates(AddNew(students, ids))
  {
    if ids != [] {
      var init := ids[..|ids| - 1];
      AddNewProperties(students, init);
      assert ids == init + [ids[|ids| - 1]];
      var s := AddNew(students, init);
      if ids[|ids| - 1] !in s {
        assert (s + [ids[|ids| - 1]])[..|students|] == s[..|students|];
      }
    }
  }

  /** `findByIdAndUpdate(id, { class })` for every newly added student. */
  function JoinClass(users: seq<User>, added: seq<UserId>, c: ClassId): (v: seq<User>)
    ensures |v| == |users|
  {
    if added == [] then users
    else
      var w := JoinClass(users, added[..|added| - 1], c);
      var id := added[|added| - 1];
      if id < |w| then w[id := w[id].(cls := Some(c))] else w
  }

  /** Exactly the added students now belong to the class; nothing else about
      any user changes. */
  lemma {:induction false} JoinClassEffect(users: seq<User>, added: seq<UserId>, c: ClassId)
    ensures forall i :: 0 <= i < |users| ==>
      JoinClass(users, added, c)[i] == if i in added then users[i].(cls := Some(c)) else users[i]
  {
    if added != [] {
      JoinClassEffect(users, added[..|added| - 1], c);
      assert added == added[..|added| - 1] + [added[|added| - 1]];
    }
  }

  /** `addStudentsToClass`: 400 for an empty list, 404 without the class;
      otherwise every id not yet a student is appended and joins the class. */
  method AddStudents(ids: seq<UserId>, doc: ClassDoc?, dir: Directory) returns (s: Status)
    requires dir.Valid() && (doc != null ==> doc.Valid())
    modifies doc, dir
    ensures dir.Valid() && (doc != null ==> doc.Valid())
    ensures ids == [] ==> s == Failed(BadRequest)
    ensures ids != [] && doc == null ==> s == Failed(NotFound)
    ensures s.Done? <==> ids != [] && doc != null
    ensures s.Failed? ==> unchanged(dir) && (doc != null ==> unchanged(doc))
    ensures s.Done? ==> doc.students == AddNew(old(doc.students), ids)
                        && doc.structure == old(doc.structure) && doc.name == old(doc.name)
                        && dir.users == JoinClass(old(dir.users), doc.students[|old(doc.students)|..], doc.id)
  {
    if ids == [] {
      return Failed(BadRequest);
    }
    if doc == null {
      return Failed(NotFound);
    }
    var students0 := doc.students;
    var st, us := AddEach(students0, ids, dir.users, doc.id);
    AddNewProperties(students0, ids);
    JoinClassEffect(dir.users, st[|students0|..], doc.id);
    SameEmailsKeepUnique(dir.users, us);
    doc.students := st;
    dir.users := us;
    s := Done;
  }

  /** The `for ... of studentIds` loop: skip ids already present, append the
      others and record their class. */
  method AddEach(students0: seq<UserId>, ids: seq<UserId>, users0: seq<User>, c: ClassId)
    returns (st: seq<UserId>, us: seq<User>)
    ensures st == AddNew(students0, ids)
    ensures us == JoinClass(users0, st[|students0|..], c)
  {
    st, us := students0, users0;
    var i := 0;
    while i < |ids|
      invariant 0 <= i <= |ids|
      invariant st == AddNew(students0, ids[..i])
      invariant us == JoinClass(users0, st[|students0|..], c)
    {
      AddStep(students0, ids, i, users0, c);
      var x := ids[i];
      if x !in st {
        st := st + [x];
        if x < |us| {
          us := us[x := us[x].(cls := Some(c))];
        }
      }
      i := i + 1;
    }
    assert ids[..i] == ids;
  }

  /** One step of the loop of `AddEach`, on the students and on the accounts. */
  lemma AddStep(students0: seq<UserId>, ids: seq<UserId>, i: nat, users0: seq<User>, c: ClassId)
    requires i < |ids|
    ensures var st := AddNew(students0, ids[..i]);
      AddNew(students0, ids[..i + 1]) == (if ids[i] in st then st else st + [ids[i]])
    ensures var st := AddNew(students0, ids[..i]);
      var w := JoinClass(users0, st[|students0|..], c);
      ids[i] !in st ==>
        JoinClass(users0, (st + [ids[i]])[|students0|..], c)
          == if ids[i] < |w| then w[ids[i] := w[ids[i]].(cls := Some(c))] else w
  {
    assert ids[..i + 1][..i] == ids[..i];
    var st := AddNew(students0, ids[..i]);
    var added := (st + [ids[i]])[|students0|..];
    assert added == st[|students0|..] + [ids[i]];
    assert added[..|added| - 1] == st[|students0|..];
  }

  /** The user record after removal: no class, and the student role. */
  function Detached(users: seq<User>, id: UserId): (v: seq<User>)
    ensures |v| == |users|
    ensures forall i :: 0 <= i < |v| ==> v[i] == if i == id then users[i].(cls := None, role := Student) else users[i]
  {
    if id < |users| then users[id := users[id].(cls := None, role := Student)] else users
  }

  /** `removeStudentFromClass`: 404 without the class, 400 for someone who is
      not a student of it; otherwise they leave the student list and every
      position they held, and become a student without a class. */
  method RemoveStudent(studentId: UserId, doc: ClassDoc?, dir: Directory) returns (s: Status)
    requires dir.Valid() && (doc != null ==> doc.Valid())
    modifies doc, dir
    ensures dir.Valid() && (doc != null ==> doc.Valid())
    ensures doc == null ==> s == Failed(NotFound)
    ensures doc != null && studentId !in old(doc.students) ==> s == Failed(BadRequest)
    ensures s.Done? <==> doc != null && studentId in old(doc.students)
    ensures s.Failed? ==> unchanged(dir) && (doc != null ==> unchanged(doc))
    ensures s.Done? ==>
      (forall x :: x in doc.students <==> x in old(doc.students) && x != studentId)
      && (forall p :: p in doc.structure <==> p in old(doc.structure) && p.user != Some(studentId))
      && doc.students == Filter(old(doc.students), (x: UserId) => x != studentId)
      && dir.users == Detached(old(dir.users), studentId)
  {
    if doc == null {
      return Failed(NotFound);
    }
    if studentId !in doc.students {
      return Failed(BadRequest);
    }
    doc.students := Filter(doc.students, (x: UserId) => x != studentId);
    doc.structure := Filter(doc.structure, (p: Position) => p.user != Some(studentId));
    var us := Detached(dir.users, studentId);
    SameEmailsKeepUnique(dir.users, us);
    dir.users := us;
    s := Done;
  }

  // ---- Class structure ----

  /** One entry of the requested structure; a title may be missing. */
  datatype PositionRequest = PositionRequest(position: Option<string>, user: Option<UserId>, description: Option<string>)

  /** The role resets of the first loop: every holder of a current position
      becomes a student. */
  function ResetUpdates(ps: seq<Position>): (r: seq<(UserId, Role)>)
    ensures forall k :: 0 <= k < |r| ==> r[k].1 == Student
    ensures forall id: UserId :: LastRole(r, id).Some? <==> exists p :: p in ps && p.user == Some(id)
  {
    if ps == [] then []
    else
      var rest := ResetUpdates(ps[..|ps| - 1]);
      var p := ps[|ps| - 1];
      assert forall q :: q in ps <==> q in ps[..|ps| - 1] || q == p by {
        assert ps == ps[..|ps| - 1] + [p];
      }
      if p.user.Some? then rest + [(p.user.value, Student)] else rest
  }

  /** The role changes of the second loop, for entries that have a holder
      and a title. */
  function AssignUpdates(req: seq<PositionRequest>): seq<(UserId, Role)>
  {
    if req == [] then []
    else
      var rest := AssignUpdates(req[..|req| - 1]);
      var e := req[|req| - 1];
      if e.user.Some? && e.position.Some? then rest + [(e.user.value, PositionRole(e.position.value))] else rest
  }

  /** Where the second loop throws: the first entry with a holder but no
      title. */
  function FirstUntitled(req: seq<PositionRequest>): (r: Option<nat>)
    ensures r.Some? ==> r.value < |req| && req[r.value].user.Some? && req[r.value].position.None?
    ensures r.Some? ==> forall k :: 0 <= k < r.value ==> !(req[k].user.Some? && req[k].position.None?)
    ensures r.None? <==> forall k :: 0 <= k < |req| ==> !(req[k].user.Some? && req[k].position.None?)
  {
    if req == [] then None
    else if req[0].user.Some? && req[0].position.None? then Some(0)
    else match FirstUntitled(req[1..])
      case None => None
      case Some(k) => Some(k + 1)
  }

  /** What saving the new structure checks: every entry titled, and no title
      blank once trimmed. */
  predicate Saveable(req: seq<PositionRequest>)
  {
    forall k :: 0 <= k < |req| ==> req[k].position.Some? && Trim(req[k].position.value) != ""
  }

  function StoredStructure(req: seq<PositionRequest>): (r: seq<Position>)
    requires Saveable(req)
    ensures |r| == |req|
    ensures forall k :: 0 <= k < |r| ==> r[k] == StoredPosition(Position(req[k].position.value, req[k].user, req[k].description))
  {
    seq(|req|, k requires 0 <= k < |req| => StoredPosition(Position(req[k].position.value, req[k].user, req[k].description)))
  }

  /** The two loops of `updateClassStructure` on the account collection:
      reset every current holder, then set the role of each titled holder in
      the request, stopping at the first untitled holder. */
  method ApplyStructureRoles(users0: seq<User>, current: seq<Position>, req: seq<PositionRequest>)
    returns (us: seq<User>, stopped: bool)
    ensures stopped <==> FirstUntitled(req).Some?
    ensures us == SetRoles(users0, ResetUpdates(current)
                                   + AssignUpdates(req[..if stopped then FirstUntitled(req).value else |req|]))
  {
    var mid := ResetHolders(users0, current);
    us, stopped := AssignHolders(mid, req);
    SetRolesAppend(users0, ResetUpdates(current), AssignUpdates(req[..if stopped then FirstUntitled(req).value else |req|]));
  }

  /** The first loop: every current holder becomes a student. */
  method ResetHolders(users0: seq<User>, current: seq<Position>) returns (us: seq<User>)
    ensures us == SetRoles(users0, ResetUpdates(current))
  {
    us := users0;
    var i := 0;
    while i < |current|
      invariant 0 <= i <= |current|
      invariant us == SetRoles(users0, ResetUpdates(current[..i]))
    {
      ResetStep(users0, current, i);
      if current[i].user.Some? {
        us := WithRole(us, current[i].user.value, Student);
      }
      i := i + 1;
    }
    assert current[..i] == current;
  }

  /** The second loop: each titled holder gets the role of the title; the
      first holder without a title stops it. */
  method AssignHolders(users0: seq<User>, req: seq<PositionRequest>) returns (us: seq<User>, stopped: bool)
    ensures stopped <==> FirstUntitled(req).Some?
    ensures us == SetRoles(users0, AssignUpdates(req[..if stopped then FirstUntitled(req).value else |req|]))
  {
    us := users0;
    var j := 0;
    stopped := false;
    while j < |req|
      invariant 0 <= j <= |req|
      invariant forall k :: 0 <= k < j ==> !(req[k].user.Some? && req[k].position.None?)
      invariant us == SetRoles(users0, AssignUpdates(req[..j]))
    {
      var e := req[j];
      if e.user.Some? && e.position.None? {
        stopped := true;
        assert FirstUntitled(req) == Some(j);
        return;
      }
      AssignStep(users0, req, j);
      if e.user.Some? {
        us := WithRole(us, e.user.value, PositionRole(e.position.value));
      }
      j := j + 1;
    }
    assert req[..j] == req;
  }

  /** One step of the reset loop, on the accounts. */
  lemma ResetStep(users: seq<User>, current: seq<Position>, i: nat)
    requires i < |current|
    ensures current[i].user.None? ==>
      SetRoles(users, ResetUpdates(current[..i + 1])) == SetRoles(users, ResetUpdates(current[..i]))
    ensures current[i].user.Some? ==>
      SetRoles(users, ResetUpdates(current[..i + 1]))
        == WithRole(SetRoles(users, ResetUpdates(current[..i])), current[i].user.value, Student)
  {
    assert current[..i + 1][..i] == current[..i];
    if current[i].user.Some? {
      SetRolesSnoc(users, ResetUpdates(current[..i]), (current[i].user.value, Student));
    }
  }

  /** One step of the assignment loop, on the accounts. */
  lemma AssignStep(users: seq<User>, req: seq<PositionRequest>, j: nat)
    requires j < |req| && !(req[j].user.Some? && req[j].position.None?)
    ensures req[j].user.None? ==>
      SetRoles(users, AssignUpdates(req[..j + 1])) == SetRoles(users, AssignUpdates(req[..j]))
    ensures req[j].user.Some? ==>
      SetRoles(users, AssignUpdates(req[..j + 1]))
        == WithRole(SetRoles(users, AssignUpdates(req[..j])), req[j].user.value, PositionRole(req[j].position.value))
  {
    assert req[..j + 1][..j] == req[..j];
    if req[j].user.Some? {
      SetRolesSnoc(users, AssignUpdates(req[..j]), (req[j].user.value, PositionRole(req[j].position.value)));
    }
  }

  /** Applying two lists of updates one after the other is applying their
      concatenation. */
  lemma {:induction false} SetRolesAppend(users: seq<User>, a: seq<(UserId, Role)>, b: seq<(UserId, Role)>)
    ensures SetRoles(users, a + b) == SetRoles(SetRoles(users, a), b)
    decreases |b|
  {
    if b != [] {
      var b', u := b[..|b| - 1], b[|b| - 1];
      SetRolesAppend(users, a, b');
      assert b == b' + [u];
      assert a + b == (a + b') + [u];
      SetRolesSnoc(users, a + b', u);
      SetRolesSnoc(SetRoles(users, a), b', u);
    } else {
      assert a + b == a;
    }
  }

  lemma SetRolesSnoc(users: seq<User>, updates: seq<(UserId, Role)>, u: (UserId, Role))
    ensures SetRoles(users, updates + [u]) == WithRole(SetRoles(users, updates), u.0, u.1)
  {
    assert (updates + [u])[..|updates|] == updates;
  }

  /** `updateClassStructure`: 404 without the class; otherwise the current
      officers are reset to students and the holders of the new positions get
      the role their titles name. A holder without a title stops the handler
      with 500 after the roles set so far; a missing or blank title fails the
      save with 500 after all role changes. Only a successful save replaces
      the structure. */
  method UpdateStructure(req: seq<PositionRequest>, doc: ClassDoc?, dir: Directory) returns (s: Status)
    requires dir.Valid() && (doc != null ==> doc.Valid())
    modifies doc, dir
    ensures dir.Valid() && (doc != null ==> doc.Valid())
    ensures doc == null ==> s == Failed(NotFound) && unchanged(dir)
    ensures s.Done? <==> doc != null && FirstUntitled(req).None? && Saveable(req)
    ensures doc != null ==>
      var upto := if FirstUntitled(req).Some? then FirstUntitled(req).value else |req|;
      dir.users == SetRoles(old(dir.users), ResetUpdates(old(doc.structure)) + AssignUpdates(req[..upto]))
    ensures doc != null && s.Failed? ==> unchanged(doc)
    ensures s.Done? ==> doc.structure == StoredStructure(req) && doc.students == old(doc.students)
  {
    if doc == null {
      return Failed(NotFound);
    }
    var us, stopped := ApplyStructureRoles(dir.users, doc.structure, req);
    SetRolesKeepsUnique(dir.users, ResetUpdates(doc.structure)
                                   + AssignUpdates(req[..if stopped then FirstUntitled(req).value else |req|]));
    dir.users := us;
    if stopped || !Saveable(req) {
      return Failed(ServerError);
    }
    var stored := StoredStructure(req);
    forall p | p in stored
      ensures p.position != ""
    {
      var k :| 0 <= k < |stored| && stored[k] == p;
      TrimIdempotent(req[k].position.value);
    }
    doc.structure := stored;
    s := Done;
  }

  /** After a complete structure update, a holder named in the request has
      the role of the last position naming them, a former officer not named
      has become a student, and everyone else keeps their role. */
  lemma StructureRoles(users: seq<User>, current: seq<Position>, req: seq<PositionRequest>, id: UserId)
    requires id < |users|
    ensures var after := SetRoles(users, ResetUpdates(current) + AssignUpdates(req));
      after[id].role == (if LastRole(AssignUpdates(req), id).Some? then LastRole(AssignUpdates(req), id).value
                         else if exists p :: p in current && p.user == Some(id) then Student
                         else users[id].role)
  {
    var ups := ResetUpdates(current) + AssignUpdates(req);
    SetRolesEffect(users, ups);
    LastRoleAppend(ResetUpdates(current), AssignUpdates(req), id);
    if LastRole(AssignUpdates(req), id).None? && LastRole(ResetUpdates(current), id).Some? {
      var v := LastRole(ResetUpdates(current), id).value;
      LastRoleIsSome(ResetUpdates(current), id);
    }
  }

  /** The role the last update names is one of the roles updated to. */
  lemma {:induction false} LastRoleIsSome(updates: seq<(UserId, Role)>, id: UserId)
    requires LastRole(updates, id).Some?
    ensures exists k :: 0 <= k < |updates| && updates[k] == (id, LastRole(updates, id).value)
  {
    if updates[|updates| - 1].0 != id {
      LastRoleIsSome(updates[..|updates| - 1], id);
      var k :| 0 <= k < |updates| - 1 && updates[..|updates| - 1][k] == (id, LastRole(updates, id).value);
      assert updates[k] == updates[..|updates| - 1][k];
    }
  }

  // ---- Details and the class teacher ----

  /** The account changes of a class-teacher change: the previous class
      teacher, if any, becomes a plain teacher (keeping their class), and the
      new one becomes class teacher of this class. */
  function TeacherSwap(users: seq<User>, previous: Option<UserId>, next: UserId, c: ClassId): (v: seq<User>)
    requires previous != Some(next)
    ensures |v| == |users|
    ensures next < |users| ==> v[next] == users[next].(role := ClassTeacher, cls := Some(c))
    ensures previous.Some? && previous.value < |users| ==> v[previous.value] == users[previous.value].(role := Teacher)
    ensures forall i :: 0 <= i < |users| && i != next && Some(i) != previous ==> v[i] == users[i]
  {
    var w := if previous.Some? then WithRole(users, previous.value, Teacher) else users;
    if next < |w| then w[next := w[next].(role := ClassTeacher, cls := Some(c))] else w
  }

  /** A truthy text field replaces the stored one, trimmed. */
  function Replaced(given: Option<string>, stored: string): (r: string)
    ensures Truthy(given) ==> r == Trim(given.value)
    ensures !Truthy(given) ==> r == stored
  {
    if Truthy(given) then Trim(given.value) else stored
  }

  /** The two `findByIdAndUpdate` calls of a class-teacher change. */
  method SwapTeacher(previous: Option<UserId>, next: UserId, c: ClassId, dir: Directory)
    requires dir.Valid() && previous != Some(next)
    modifies dir
    ensures dir.Valid() && dir.users == TeacherSwap(old(dir.users), previous, next, c)
  {
    var us := TeacherSwap(dir.users, previous, next, c);
    SameEmailsKeepUnique(dir.users, us);
    dir.users := us;
  }

  /** The fields `updateClass` may edit, as one value. */
  datatype Details = Details(name: string, grade: string, academicYear: string, description: Option<string>,
                             classImage: string, classTeacher: Option<UserId>)

  function DetailsOf(doc: ClassDoc): Details
    reads doc
  {
    Details(doc.name, doc.grade, doc.academicYear, doc.description, doc.classImage, doc.classTeacher)
  }

  /** The details after `updateClass` edits them: truthy text fields replace
      the stored ones, trimmed; a given class teacher replaces the stored
      one. */
  function Edited(d: Details, name: Option<string>, grade: Option<string>, academicYear: Option<string>,
                  description: Option<string>, teacher: Option<UserId>, classImage: Option<string>): (r: Details)
    ensures r.name == Replaced(name, d.name) && r.grade == Replaced(grade, d.grade)
    ensures r.academicYear == Replaced(academicYear, d.academicYear)
    ensures r.description == (if Truthy(description) then TrimOpt(description) else d.description)
    ensures r.classImage == (if Truthy(classImage) then classImage.value else d.classImage)
    ensures r.classTeacher == (if teacher.Some? then teacher else d.classTeacher)
  {
    Details(Replaced(name, d.name), Replaced(grade, d.grade), Replaced(academicYear, d.academicYear),
            if Truthy(description) then TrimOpt(description) else d.description,
            if Truthy(classImage) then classImage.value else d.classImage,
            if teacher.Some? then teacher else d.classTeacher)
  }

  /** What the class schema's validators demand of the details. */
  predicate DetailsOk(d: Details)
  {
    d.name != "" && |d.name| <= MaxNameLength && d.grade != "" && d.academicYear != ""
  }

  /** The `save` of `updateClass`: the validators of the class schema decide
      whether the edited details are stored. */
  method SaveDetails(name: Option<string>, grade: Option<string>, academicYear: Option<string>,
                     description: Option<string>, teacher: Option<UserId>, classImage: Option<string>,
                     doc: ClassDoc)
    returns (s: Status)
    requires doc.Valid()
    modifies doc`name, doc`grade, doc`academicYear, doc`description, doc`classImage, doc`classTeacher
    ensures doc.Valid()
    ensures s.Done? <==> DetailsOk(Edited(old(DetailsOf(doc)), name, grade, academicYear, description, teacher, classImage))
    ensures s.Failed? ==> s == Failed(ServerError) && unchanged(doc)
    ensures s.Done? ==> DetailsOf(doc) == Edited(old(DetailsOf(doc)), name, grade, academicYear, description, teacher, classImage)
  {
    var e := Edited(DetailsOf(doc), name, grade, academicYear, description, teacher, classImage);
    if !DetailsOk(e) {
      return Failed(ServerError);
    }
    doc.name, doc.grade, doc.academicYear, doc.description, doc.classImage, doc.classTeacher
      := e.name, e.grade, e.academicYear, e.description, e.classImage, e.classTeacher;
    assert DetailsOf(doc) == e;
    s := Done;
  }

  /** `updateClass`: 404 without the class; truthy fields replace the stored
      ones; a class teacher id different from the current one swaps the
      class teacher, updating both accounts before the save. A name longer
      than 100 characters or a blank required field fails the save with 500,
      and the class keeps its old values (the account changes stay). */
  method UpdateClass(name: Option<string>, grade: Option<string>, academicYear: Option<string>,
                     description: Option<string>, teacher: Option<UserId>, classImage: Option<string>,
                     doc: ClassDoc?, dir: Directory)
    returns (s: Status)
    requires dir.Valid() && (doc != null ==> doc.Valid())
    modifies doc, dir
    ensures dir.Valid() && (doc != null ==> doc.Valid())
    ensures doc == null ==> s == Failed(NotFound) && unchanged(dir)
    ensures doc != null ==>
      var swap := teacher.Some? && teacher != old(doc.classTeacher);
      dir.users == (if swap then TeacherSwap(old(dir.users), old(doc.classTeacher), teacher.value, doc.id) else old(dir.users))
    ensures s.Done? <==>
      doc != null && DetailsOk(Edited(old(DetailsOf(doc)), name, grade, academicYear, description, teacher, classImage))
    ensures doc != null && s.Failed? ==> unchanged(doc)
    ensures s.Done? ==>
      DetailsOf(doc) == Edited(old(DetailsOf(doc)), name, grade, academicYear, description, teacher, classImage)
      && doc.students == old(doc.students) && doc.structure == old(doc.structure) && doc.privacy == old(doc.privacy)
  {
    if doc == null {
      return Failed(NotFound);
    }
    if teacher.Some? && teacher != doc.classTeacher {
      SwapTeacher(doc.classTeacher, teacher.value, doc.id, dir);
    }
    s := SaveDetails(name, grade, academicYear, description, teacher, classImage, doc);
  }

  // ---- Privacy ----

  /** A truthy setting replaces the stored one when it names a visibility. */
  function Setting(given: Option<string>, stored: Visibility): (r: Option<Visibility>)
    ensures !Truthy(given) ==> r == Some(stored)
    ensures Truthy(given) ==> r == ParseVisibility(given.value)
  {
    if Truthy(given) then ParseVisibility(given.value) else Some(stored)
  }

  /** `updatePrivacySettings`: 404 without the class; each truthy setting
      replaces the stored one; a value outside `class_only`, `school` and
      `public` fails the save with 500 and nothing changes. */
  method UpdatePrivacy(finance: Option<string>, gallery: Option<string>, schedule: Option<string>, doc: ClassDoc?)
    returns (s: Status)
    requires doc != null ==> doc.Valid()
    modifies doc
    ensures doc != null ==> doc.Valid()
    ensures doc == null ==> s == Failed(NotFound)
    ensures s.Done? <==> (doc != null && Setting(finance, old(doc.privacy.finance)).Some?
      && Setting(gallery, old(doc.privacy.gallery)).Some? && Setting(schedule, old(doc.privacy.schedule)).Some?)
    ensures doc != null && s.Failed? ==> unchanged(doc)
    ensures s.Done? ==>
      doc.privacy == Privacy(Setting(finance, old(doc.privacy.finance)).value,
                             Setting(gallery, old(doc.privacy.gallery)).value,
                             Setting(schedule, old(doc.privacy.schedule)).value)
      && doc.name == old(doc.name) && doc.students == old(doc.students) && doc.structure == old(doc.structure)
  {
    if doc == null {
      return Failed(NotFound);
    }
    var f := Setting(finance, doc.privacy.finance);
    var g := Setting(gallery, doc.privacy.gallery);
    var c := Setting(schedule, doc.privacy.schedule);
    if f.None? || g.None? || c.None? {
      return Failed(ServerError);
    }
    doc.privacy := Privacy(f.value, g.value, c.value);
    s := Done;
  }

  /** A request that sets nothing keeps the settings, and one that sets only
      the gallery leaves the other two as they were. */
  lemma PrivacyOnlyGivenFields(p: Privacy, v: Visibility)
    ensures Setting(None, p.finance) == Some(p.finance)
    ensures Setting(Some(VisibilityName(v)), p.gallery) == Some(v)
  {
    VisibilityRoundTrip(v);
  }
}
