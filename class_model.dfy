/** The `Class` schema: a class's details, its student list, its structure
    of named positions, and the privacy settings of its finances, gallery
    and schedule; plus the virtuals that find the holder of each officer
    position. */
module ClassModel {
  import opened Common
  import opened Strings
  import opened Roles

  /** The longest class name the schema accepts. */
  const MaxNameLength: nat := 100

  /** One position of the class structure; `user` is the holder, if any. */
  datatype Position = Position(position: string, user: Option<UserId>, description: Option<string>)

  datatype Privacy = Privacy(finance: Visibility, gallery: Visibility, schedule: Visibility)

  /** Each setting defaults to `class_only`. */
  const DefaultPrivacy: Privacy := Privacy(ClassOnly, ClassOnly, ClassOnly)

  /** The schema's default `classImage`. */
  const DefaultClassImage: string := "https://res.cloudinary.com/demo/image/upload/v1580125392/samples/landscapes/default-class.jpg"

  /** `structure.find(p => titles include p.position.toLowerCase())`, then
      `.user`: the holder of the first position with one of the titles. */
  function HolderOf(structure: seq<Position>, titles: set<string>): (r: Option<UserId>)
    ensures r.Some? ==> exists i :: 0 <= i < |structure| && ToLower(structure[i].position) in titles
                                    && structure[i].user == r
    ensures (forall i :: 0 <= i < |structure| ==> ToLower(structure[i].position) !in titles) ==> r.None?
  {
    if structure == [] then None
    else if ToLower(structure[0].position) in titles then structure[0].user
    else
      var r := HolderOf(structure[1..], titles);
      assert r.Some? ==> exists i :: 0 <= i < |structure| && ToLower(structure[i].position) in titles
                                     && structure[i].user == r by {
        if r.Some? {
          var i :| 0 <= i < |structure[1..]| && ToLower(structure[1..][i].position) in titles && structure[1..][i].user == r;
          assert structure[i + 1] == structure[1..][i];
        }
      }
      r
  }

  /** The first matching position decides, even when it has no holder. */
  lemma {:induction false} HolderOfFirst(structure: seq<Position>, titles: set<string>, k: nat)
    requires k < |structure| && ToLower(structure[k].position) in titles
    requires forall j :: 0 <= j < k ==> ToLower(structure[j].position) !in titles
    ensures HolderOf(structure, titles) == structure[k].user
  {
    if k > 0 {
      HolderOfFirst(structure[1..], titles, k - 1);
    }
  }

  const PresidentTitles: set<string> := {"class president", "president"}
  const VicePresidentTitles: set<string> := {"vice president", "vice-president"}
  const TreasurerTitles: set<string> := {"treasurer"}
  const SecretaryTitles: set<string> := {"secretary"}

  /** The `classPresident` virtual. */
  function PresidentOf(structure: seq<Position>): Option<UserId>
  {
    HolderOf(structure, PresidentTitles)
  }

  /** The `vicePresident` virtual. */
  function VicePresidentOf(structure: seq<Position>): Option<UserId>
  {
    HolderOf(structure, VicePresidentTitles)
  }

  /** The `treasurer` virtual. */
  function TreasurerOf(structure: seq<Position>): Option<UserId>
  {
    HolderOf(structure, TreasurerTitles)
  }

  /** The `secretary` virtual. */
  function SecretaryOf(structure: seq<Position>): Option<UserId>
  {
    HolderOf(structure, SecretaryTitles)
  }

  /** The titles match without regard to case, but exactly otherwise: a
      "Class Treasurer" position is no treasurer for the virtual. */
  lemma VirtualsMatchWholeTitles(u: UserId)
    ensures PresidentOf([Position("Class President", Some(u), None)]) == Some(u)
    ensures VicePresidentOf([Position("Vice-President", Some(u), None)]) == Some(u)
    ensures TreasurerOf([Position("Class Treasurer", Some(u), None)]).None?
    ensures SecretaryOf([Position("secretary ", Some(u), None)]).None?
  {
    assert ToLower("Class President") == "class president";
    assert ToLower("Vice-President") == "vice-president";
    assert ToLower("Class Treasurer") == "class treasurer";
  }

  /** The role `updateClassStructure` gives the holder of a position: it looks
      for key words anywhere in the lower-cased title. */
  function PositionRole(title: string): (r: Role)
    ensures r in {ClassPresident, VicePresident, Treasurer, Secretary, Student}
    ensures r == ClassPresident <==> Contains(ToLower(title), "president") && !Contains(ToLower(title), "vice")
  {
    var l := ToLower(title);
    if Contains(l, "president") && !Contains(l, "vice") then ClassPresident
    else if Contains(l, "vice president") || Contains(l, "vice-president") then VicePresident
    else if Contains(l, "treasurer") then Treasurer
    else if Contains(l, "secretary") then Secretary
    else Student
  }

  /** The president titles the virtual recognises make a class president. */
  lemma PresidentTitlesGiveRole()
    ensures PositionRole("class president") == ClassPresident && PositionRole("president") == ClassPresident
  {
    ClassPresidentTitleRole();
    PresidentTitleRole();
  }

  lemma ClassPresidentTitleRole()
    ensures PositionRole("class president") == ClassPresident
  {
    assert ToLower("class president") == "class president";
    assert OccursAt("class president", "president", 6);
    ContainsNeedsChar("class president", "vice", 'v');
  }

  lemma PresidentTitleRole()
    ensures PositionRole("president") == ClassPresident
  {
    assert ToLower("president") == "president";
    ContainsSelf("president");
    ContainsNeedsChar("president", "vice", 'v');
  }

  /** The vice-president titles make a vice president, although they also
      contain "president". */
  lemma VicePresidentTitlesGiveRole()
    ensures PositionRole("vice president") == VicePresident && PositionRole("vice-president") == VicePresident
  {
    VicePresidentTitleRole("vice president");
    VicePresidentTitleRole("vice-president");
  }

  lemma VicePresidentTitleRole(t: string)
    requires t == "vice president" || t == "vice-president"
    ensures PositionRole(t) == VicePresident
  {
    assert ToLower(t) == t;
    assert OccursAt(t, "vice", 0);
    ContainsSelf(t);
  }

  /** "treasurer" and "secretary" make a treasurer and a secretary. */
  lemma OfficerTitlesGiveRole()
    ensures PositionRole("treasurer") == Treasurer && PositionRole("secretary") == Secretary
  {
    TreasurerTitleRole();
    SecretaryTitleRole();
  }

  lemma TreasurerTitleRole()
    ensures PositionRole("treasurer") == Treasurer
  {
    assert ToLower("treasurer") == "treasurer";
    NoPresidentWords("treasurer");
    ContainsSelf("treasurer");
  }

  lemma SecretaryTitleRole()
    ensures PositionRole("secretary") == Secretary
  {
    assert ToLower("secretary") == "secretary";
    NoPresidentWords("secretary");
    ContainsNeedsChar("secretary", "treasurer", 'u');
    ContainsSelf("secretary");
  }

  lemma ClassTreasurerLower()
    ensures ToLower("Class Treasurer") == "class treasurer"
  {
  }

  lemma ClassTreasurerHasTreasurer()
    ensures Contains("class treasurer", "treasurer")
  {
    assert OccursAt("class treasurer", "treasurer", 6);
  }

  /** A title without a 'p' or a 'v' names no president of either kind. */
  lemma NoPresidentWords(l: string)
    requires 'p' !in l && 'v' !in l
    ensures !Contains(l, "president") && !Contains(l, "vice president") && !Contains(l, "vice-president")
  {
    ContainsNeedsChar(l, "president", 'p');
    ContainsNeedsChar(l, "vice president", 'v');
    ContainsNeedsChar(l, "vice-president", 'v');
  }

  /** The role mapping accepts titles the virtuals do not: a "Class
      Treasurer" is made treasurer, yet `treasurer` does not find them. */
  lemma RoleWithoutVirtual(u: UserId)
    ensures PositionRole("Class Treasurer") == Treasurer
    ensures TreasurerOf([Position("Class Treasurer", Some(u), None)]).None?
  {
    VirtualsMatchWholeTitles(u);
    ClassTreasurerLower();
    ClassTreasurerHasTreasurer();
    NoPresidentWords("class treasurer");
  }

  /** The stored form of a position: title and description trimmed. */
  function StoredPosition(p: Position): (r: Position)
    ensures r.position == Trim(p.position) && r.user == p.user && r.description == TrimOpt(p.description)
  {
    Position(Trim(p.position), p.user, TrimOpt(p.description))
  }

  /** A class document, whose handlers update fields in place. */
  class ClassDoc {
    const id: ClassId
    var name: string
    var grade: string
    var academicYear: string
    var description: Option<string>
    var classTeacher: Option<UserId>
    var students: seq<UserId>
    var structure: seq<Position>
    var classImage: string
    var privacy: Privacy

    /** What the last successful save checked, on the stored (trimmed)
        values: name, grade and academic year present, the name at most 100
        characters, every position titled. */
    ghost predicate Valid()
      reads this
    {
      name != "" && |name| <= MaxNameLength && grade != "" && academicYear != ""
      && forall p :: p in structure ==> p.position != ""
    }

    constructor(id: ClassId, name: string, grade: string, academicYear: string)
      requires name != "" && |name| <= MaxNameLength && grade != "" && academicYear != ""
      ensures Valid() && this.id == id && this.name == name && this.grade == grade && this.academicYear == academicYear
      ensures students == [] && structure == [] && classTeacher.None? && privacy == DefaultPrivacy
      ensures classImage == DefaultClassImage
    {
      this.id := id;
      this.name := name;
      this.grade := grade;
      this.academicYear := academicYear;
      description := None;
      classTeacher := None;
      students := [];
      structure := [];
      classImage := DefaultClassImage;
      privacy := DefaultPrivacy;
    }
  }
}
