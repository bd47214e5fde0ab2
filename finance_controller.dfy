/** The HTTP handlers over class ledgers: who may view, record and settle
    transactions, how a new transaction is validated and whether it starts
    approved, how categories are added, and the summary report. The ledger of
    the class (`Finance.findOne({ class })`) and the existence of the class
    are parameters; a handler that creates a ledger returns it. */
module FinanceController {
  import opened Common
  import opened Strings
  import opened Seqs
  import opened Roles
  import opened Users
  import opened Permissions
  import opened FinanceModel

  /** `getClassFinance`: administrators and every class teacher, the
      treasurer of the class, members when visibility is `class_only`, and
      everyone when it is `school` or `public`. */
  predicate MayViewFinances(a: Actor, classId: ClassId, v: Visibility)
  {
    var member := BelongsToClass(a.cls, classId);
    a.role in {SuperAdmin, Admin, ClassTeacher}
    || (a.role == Treasurer && member)
    || (member && v == ClassOnly)
    || v == School
    || v == Public
  }

  /** The handler's view rule admits everyone the shared `canViewFinances`
      helper admits, and also the class teacher of another class. */
  lemma ViewRuleWidensHelper(a: Actor, classId: ClassId, v: Visibility)
    ensures CanViewFinances(a.role, a.cls, classId, v) ==> MayViewFinances(a, classId, v)
    ensures var other := Actor(a.id, ClassTeacher, Some(classId + 1));
      MayViewFinances(other, classId, ClassOnly) && !CanViewFinances(other.role, other.cls, classId, ClassOnly)
  {
  }

  /** Who may add transactions and categories: the treasurer or class teacher
      of the class, or an administrator. */
  predicate MayRecord(a: Actor, classId: ClassId)
  {
    var member := BelongsToClass(a.cls, classId);
    (a.role == Treasurer && member) || (a.role == ClassTeacher && member) || a.role in {SuperAdmin, Admin}
  }

  /** Who may approve or reject: the class teacher of the class, or an
      administrator. */
  predicate MaySettle(a: Actor, classId: ClassId)
  {
    (a.role == ClassTeacher && BelongsToClass(a.cls, classId)) || a.role in {SuperAdmin, Admin}
  }

  /** Entries made by someone who may settle start out approved. */
  predicate AutoApproved(a: Actor, classId: ClassId)
  {
    MaySettle(a, classId)
  }

  /** The recording rule is the shared `canManageFinances` helper; settling is
      the recording rule without the treasurer. */
  lemma RecordAndSettleRules(a: Actor, classId: ClassId)
    ensures MayRecord(a, classId) <==> CanManageFinances(a.role, a.cls, classId)
    ensures MaySettle(a, classId) <==> MayRecord(a, classId) && a.role != Treasurer
    ensures MayRecord(a, classId) ==> MayViewFinances(a, classId, ClassOnly)
  {
  }

  /** The transaction `addTransaction` builds from the request. */
  function Entry(a: Actor, classId: ClassId, kind: TxKind, amount: int, description: string, category: string,
                 date: Option<Time>, attachments: Option<seq<string>>, notes: Option<string>, now: Time): (d: TransactionData)
    ensures d.kind == kind && d.amount == amount && d.recordedBy == a.id
    ensures d.status == Approved <==> AutoApproved(a, classId)
    ensures d.status == Pending <==> !AutoApproved(a, classId)
    ensures d.approvedBy.Some? <==> AutoApproved(a, classId)
    ensures d.approvedBy.Some? ==> (d.approvedBy.value == a.id && d.approvedAt == Some(now))
  {
    var auto := AutoApproved(a, classId);
    TransactionData(kind, amount, description, category, date, a.id,
                    if attachments.Some? then attachments.value else [],
                    if auto then Some(a.id) else None, if auto then Some(now) else None,
                    if auto then Approved else Pending, notes)
  }

  /** The request checks made before any lookup: a known type and a truthy,
      positive amount. */
  predicate WellFormedEntry(kind: string, amount: Option<int>)
  {
    ParseTxKind(kind).Some? && amount.Some? && amount.value > 0
  }

  /** `getClassFinance`: 404 for an unknown class, 403 without view access;
      otherwise the ledger, created empty when the class has none. */
  method GetClassFinance(a: Actor, classId: ClassId, classVisibility: Option<Visibility>, ledger: Finance?)
    returns (s: Status, created: Finance?)
    ensures classVisibility.None? ==> s == Failed(NotFound)
    ensures classVisibility.Some? && !MayViewFinances(a, classId, classVisibility.value) ==> s == Failed(Forbidden)
    ensures s.Done? <==> classVisibility.Some? && MayViewFinances(a, classId, classVisibility.value)
    ensures created != null <==> s.Done? && ledger == null
    ensures created != null ==> (fresh(created) && created.Valid() && created.cls == classId
                                 && created.createdBy == a.id && created.transactions == [] && created.balance == 0)
  {
    created := null;
    if classVisibility.None? {
      return Failed(NotFound), null;
    }
    if !MayViewFinances(a, classId, classVisibility.value) {
      return Failed(Forbidden), null;
    }
    if ledger == null {
      created := new Finance(classId, a.id);
    }
    s := Done;
  }

  /** `addTransaction`: 400 for a bad type or amount, 404 for an unknown
      class, 403 without recording access; then `Finance.AddTransaction` on
      the class's ledger, or on a new one, with the entry approved when its
      author may settle. A save the schema refuses answers 500. */
  method AddTransaction(a: Actor, classId: ClassId, kind: string, amount: Option<int>, description: string, category: string,
                        date: Option<Time>, attachments: Option<seq<string>>, notes: Option<string>,
                        classExists: bool, ledger: Finance?, now: Time)
    returns (s: Status, created: Finance?)
    requires ledger != null ==> ledger.Valid()
    modifies ledger
    ensures !WellFormedEntry(kind, amount) ==> s == Failed(BadRequest)
    ensures WellFormedEntry(kind, amount) && !classExists ==> s == Failed(NotFound)
    ensures WellFormedEntry(kind, amount) && classExists && !MayRecord(a, classId) ==> s == Failed(Forbidden)
    ensures s.Done? <==> (WellFormedEntry(kind, amount) && classExists && MayRecord(a, classId)
                          && Storable(Entry(a, classId, ParseTxKind(kind).value, amount.value, description, category, date, attachments, notes, now)))
    ensures ledger != null ==> ledger.Valid()
    ensures ledger != null && s.Failed? ==> unchanged(ledger)
    ensures ledger != null && s.Done? ==>
      var d := Entry(a, classId, ParseTxKind(kind).value, amount.value, description, category, date, attachments, notes, now);
      ledger.transactions == old(ledger.transactions) + [Stored(|old(ledger.transactions)|, d, now)]
      && ledger.balance == old(ledger.balance) + (if d.status == Approved then Signed(Stored(|old(ledger.transactions)|, d, now)) else 0)
    ensures created != null <==> s.Done? && ledger == null
    ensures created != null ==>
      var d := Entry(a, classId, ParseTxKind(kind).value, amount.value, description, category, date, attachments, notes, now);
      fresh(created) && created.Valid() && created.cls == classId && created.createdBy == a.id
      && created.transactions == [Stored(0, d, now)]
      && created.balance == (if d.status == Approved then Signed(Stored(0, d, now)) else 0)
  {
    created := null;
    var k := ParseTxKind(kind);
    if k.None? || amount.None? || amount.value <= 0 {
      return Failed(BadRequest), null;
    }
    if !classExists {
      return Failed(NotFound), null;
    }
    if !MayRecord(a, classId) {
      return Failed(Forbidden), null;
    }
    var d := Entry(a, classId, k.value, amount.value, description, category, date, attachments, notes, now);
    if ledger == null {
      var book := new Finance(classId, a.id);
      s := book.AddTransaction(d, now);
      if s.Done? {
        created := book;
      }
    } else {
      s := ledger.AddTransaction(d, now);
    }
  }

  /** `approveTransaction` / `rejectTransaction`: 404 for an unknown class,
      403 without settling access, 404 when the class has no ledger; then
      `Finance.Decide`, whose refusal of an unknown or already settled
      transaction answers 500. On success only that transaction changes: it
      takes the new status, the approver and the time; approval alone moves
      the balance, and the approver becomes the last updater. */
  method SettleTransaction(a: Actor, classId: ClassId, txId: ItemId, approve: bool, classExists: bool, ledger: Finance?, now: Time)
    returns (s: Status)
    requires ledger != null ==> ledger.Valid()
    modifies ledger
    ensures !classExists ==> s == Failed(NotFound)
    ensures classExists && !MaySettle(a, classId) ==> s == Failed(Forbidden)
    ensures classExists && MaySettle(a, classId) && ledger == null ==> s == Failed(NotFound)
    ensures ledger != null ==> ledger.Valid()
    ensures ledger != null && s.Failed? ==> unchanged(ledger)
    ensures s.Done? ==> (classExists && MaySettle(a, classId) && ledger != null
                         && var k := TxIndex(old(ledger.transactions), txId);
                            k.Some? && old(ledger.transactions)[k.value].status == Pending)
    ensures classExists && MaySettle(a, classId) && ledger != null ==>
      (s.Done? <==> TxIndex(old(ledger.transactions), txId).Some? && old(ledger.transactions)[TxIndex(old(ledger.transactions), txId).value].status == Pending)
    ensures classExists && MaySettle(a, classId) && ledger != null && s.Failed? ==> s == Failed(ServerError)
    ensures ledger != null && s.Done? ==>
      var k := TxIndex(old(ledger.transactions), txId).value;
      var t := old(ledger.transactions)[k];
      ledger.transactions == old(ledger.transactions)[k := t.(status := if approve then Approved else Rejected,
                                                              approvedBy := Some(a.id), approvedAt := Some(now))]
      && ledger.balance == old(ledger.balance) + (if approve then Signed(t) else 0)
      && ledger.lastUpdatedBy == Some(a.id)
      && ledger.categories == old(ledger.categories) && ledger.cls == old(ledger.cls)
  {
    if !classExists {
      return Failed(NotFound);
    }
    if !MaySettle(a, classId) {
      return Failed(Forbidden);
    }
    if ledger == null {
      return Failed(NotFound);
    }
    s := ledger.Decide(txId, approve, a.id, now);
  }

  /** The duplicate test of `addTransactionCategory` as written: the stored
      (trimmed) names against the incoming name as sent. */
  predicate CategoryExistsAsWritten(cs: seq<Category>, name: string)
  {
    exists i :: 0 <= i < |cs| && ToLower(cs[i].name) == ToLower(name)
  }

  /** The duplicate test against the name as it will be stored. */
  predicate CategoryExists(cs: seq<Category>, name: string)
  {
    exists i :: 0 <= i < |cs| && ToLower(cs[i].name) == ToLower(Trim(name))
  }

  /** The category list after the push: the schema trims the name and the
      description. */
  function WithCategory(cs: seq<Category>, name: string, kind: CategoryKind, description: Option<string>): (r: seq<Category>)
    ensures |r| == |cs| + 1 && r[..|cs|] == cs
    ensures r[|cs|].name == Trim(name) && r[|cs|].kind == kind
  {
    cs + [Category(Trim(name), kind, if description.Some? then Some(Trim(description.value)) else None)]
  }

  /** A name that passes the corrected test keeps the names unique. */
  lemma CategoryExistsKeepsUnique(cs: seq<Category>, name: string, kind: CategoryKind, description: Option<string>)
    requires CategoriesUnique(cs) && !CategoryExists(cs, name)
    ensures CategoriesUnique(WithCategory(cs, name, kind, description))
  {
    var r := WithCategory(cs, name, kind, description);
    forall i, j | 0 <= i < j < |r|
      ensures ToLower(r[i].name) != ToLower(r[j].name)
    {
      if j < |cs| {
        assert r[i] == cs[i] && r[j] == cs[j];
      } else {
        assert r[i] == cs[i];
      }
    }
  }

  /** The test as written lets ` Food` through next to a stored `food`, and
      the push then stores `Food`: two names equal ignoring case. */
  lemma CategoryExistsAsWrittenAdmitsDuplicate()
    ensures var cs := [Category("food", ForBoth, None)];
      CategoriesUnique(cs)
      && !CategoryExistsAsWritten(cs, " Food")
      && CategoryExists(cs, " Food")
      && !CategoriesUnique(WithCategory(cs, " Food", ForBoth, None))
  {
    var cs := [Category("food", ForBoth, None)];
    PaddedFoodTrims();
    PaddedFoodLowers();
    var r := WithCategory(cs, " Food", ForBoth, None);
    assert r[0].name == "food" && r[1].name == "Food";
  }

  lemma PaddedFoodTrims()
    ensures Trim(" Food") == "Food"
  {
    assert SkipSpace(" Food", 1) == 1;
    assert SkipSpace(" Food", 0) == 1;
    assert SkipSpaceBack(" Food", 1, 5) == 5;
    assert " Food"[1..5] == "Food";
  }

  lemma PaddedFoodLowers()
    ensures ToLower("Food") == "food" && ToLower(" Food") != "food"
  {
    assert ToLower("Food") == "food";
    assert ToLower(" Food")[0] == ' ';
  }

  /** A category `type` given and not one of the three names. */
  predicate BadCategoryKind(kind: Option<string>)
  {
    kind.Some? && kind.value != "" && ParseCategoryKind(kind.value).None?
  }

  /** `type || 'both'`. */
  function CategoryKindOf(kind: Option<string>): (k: CategoryKind)
    requires !BadCategoryKind(kind)
    ensures kind.None? || kind.value == "" ==> k == ForBoth
    ensures kind.Some? && kind.value != "" ==> Some(k) == ParseCategoryKind(kind.value)
  {
    if kind.None? || kind.value == "" then ForBoth else ParseCategoryKind(kind.value).value
  }

  /** `addTransactionCategory`: 400 for an unknown type, 404 for an unknown
      class, 403 without recording access, 400 for a name already present
      ignoring case (the stored names against the name as sent, untrimmed,
      as written); a missing or blank name
      fails the save with 500. Otherwise the category is appended to the
      class's ledger, or to a new one, and its author recorded. */
  method AddTransactionCategory(a: Actor, classId: ClassId, name: Option<string>, kind: Option<string>, description: Option<string>,
                                classExists: bool, ledger: Finance?)
    returns (s: Status, created: Finance?)
    requires ledger != null ==> ledger.Valid()
    modifies ledger
    ensures BadCategoryKind(kind) ==> s == Failed(BadRequest)
    ensures !BadCategoryKind(kind) && !classExists ==> s == Failed(NotFound)
    ensures !BadCategoryKind(kind) && classExists && !MayRecord(a, classId) ==> s == Failed(Forbidden)
    ensures s.Done? <==> (!BadCategoryKind(kind) && classExists && MayRecord(a, classId) && name.Some? && Trim(name.value) != ""
                          && (ledger != null ==> !CategoryExistsAsWritten(old(ledger.categories), name.value)))
    ensures ledger != null ==> ledger.Valid()
    ensures ledger != null && s.Failed? ==> unchanged(ledger)
    ensures ledger != null && s.Done? ==>
      ledger.categories == WithCategory(old(ledger.categories), name.value, CategoryKindOf(kind), description)
      && ledger.transactions == old(ledger.transactions) && ledger.balance == old(ledger.balance)
      && ledger.lastUpdatedBy == Some(a.id)
    ensures created != null <==> s.Done? && ledger == null
    ensures created != null ==> (fresh(created) && created.Valid() && created.cls == classId
                                 && created.categories == WithCategory([], name.value, CategoryKindOf(kind), description))
  {
    created := null;
    if BadCategoryKind(kind) {
      return Failed(BadRequest), null;
    }
    if !classExists {
      return Failed(NotFound), null;
    }
    if !MayRecord(a, classId) {
      return Failed(Forbidden), null;
    }
    var target := ledger;
    if target == null {
      target := new Finance(classId, a.id);
    }
    if name.None? {
      return Failed(ServerError), null;
    }
    if CategoryExistsAsWritten(target.categories, name.value) {
      return Failed(BadRequest), null;
    }
    if Trim(name.value) == "" {
      return Failed(ServerError), null;
    }
    target.categories := WithCategory(target.categories, name.value, CategoryKindOf(kind), description);
    target.lastUpdatedBy := Some(a.id);
    if ledger == null {
      created := target;
    }
    s := Done;
  }

  /** One row of `categorySummary`. */
  datatype CategoryTotals = CategoryTotals(income: int, expense: int)

  /** One step of the `forEach` over approved transactions: a category seen
      for the first time starts at zero, then the transaction's amount is
      added to the column of its type. */
  function Bump(m: map<string, CategoryTotals>, t: Transaction): (r: map<string, CategoryTotals>)
    ensures r.Keys == m.Keys + {t.category}
    ensures forall c :: c in m && c != t.category ==> r[c] == m[c]
  {
    var cur := if t.category in m then m[t.category] else CategoryTotals(0, 0);
    m[t.category := if t.kind == Income then CategoryTotals(cur.income + t.amount, cur.expense)
                    else CategoryTotals(cur.income, cur.expense + t.amount)]
  }

  /** `categorySummary` after the `forEach` over `ts`, in order. */
  function Tally(ts: seq<Transaction>): map<string, CategoryTotals>
  {
    if ts == [] then map[] else Bump(Tally(ts[..|ts| - 1]), ts[|ts| - 1])
  }

  /** `categorySummary` has a row exactly for each category that occurs. */
  lemma {:induction false} TallyKeys(ts: seq<Transaction>)
    ensures forall c :: c in Tally(ts) <==> exists i :: 0 <= i < |ts| && ts[i].category == c
  {
    if ts != [] {
      var init := ts[..|ts| - 1];
      TallyKeys(init);
      assert forall i :: 0 <= i < |init| ==> init[i] == ts[i];
    }
  }

  /** The `forEach` that builds `categorySummary`. */
  method TallyCategories(approved: seq<Transaction>) returns (m: map<string, CategoryTotals>)
    ensures m == Tally(approved)
  {
    m := map[];
    var i := 0;
    while i < |approved|
      invariant 0 <= i <= |approved|
      invariant m == Tally(approved[..i])
    {
      var t := approved[i];
      ghost var before := m;
      TallyStep(approved, i);
      if t.category !in m {
        m := m[t.category := CategoryTotals(0, 0)];
      }
      BumpInTwoSteps(before, m, t);
      if t.kind == Income {
        m := m[t.category := CategoryTotals(m[t.category].income + t.amount, m[t.category].expense)];
      } else {
        m := m[t.category := CategoryTotals(m[t.category].income, m[t.category].expense + t.amount)];
      }
      i := i + 1;
    }
    assert approved[..i] == approved;
  }

  /** `Bump` as the loop body writes it: first the zero entry, then the sum. */
  lemma BumpInTwoSteps(m: map<string, CategoryTotals>, z: map<string, CategoryTotals>, t: Transaction)
    requires z == if t.category !in m then m[t.category := CategoryTotals(0, 0)] else m
    ensures t.category in z
    ensures t.kind == Income ==>
      Bump(m, t) == z[t.category := CategoryTotals(z[t.category].income + t.amount, z[t.category].expense)]
    ensures t.kind != Income ==>
      Bump(m, t) == z[t.category := CategoryTotals(z[t.category].income, z[t.category].expense + t.amount)]
  {
  }

  lemma TallyStep(approved: seq<Transaction>, i: nat)
    requires i < |approved|
    ensures Tally(approved[..i + 1]) == Bump(Tally(approved[..i]), approved[i])
  {
    assert approved[..i + 1][..i] == approved[..i];
  }

  /** The sum of one column of `categorySummary` over all its categories. */
  ghost function ColumnSum(m: map<string, CategoryTotals>, income: bool): int
    decreases |m.Keys|
  {
    if m == map[] then 0
    else
      var c :| c in m;
      assert |(m - {c}).Keys| < |m.Keys| by {
        assert (m - {c}).Keys == m.Keys - {c};
      }
      (if income then m[c].income else m[c].expense) + ColumnSum(m - {c}, income)
  }

  /** `ColumnSum` may take the categories in any order. */
  lemma {:induction false} ColumnSumRemove(m: map<string, CategoryTotals>, c: string, income: bool)
    requires c in m
    ensures ColumnSum(m, income) == (if income then m[c].income else m[c].expense) + ColumnSum(m - {c}, income)
    decreases |m.Keys|
  {
    var d :| d in m && ColumnSum(m, income) == (if income then m[d].income else m[d].expense) + ColumnSum(m - {d}, income);
    if d != c {
      assert (m - {d}).Keys == m.Keys - {d};
      assert (m - {c}).Keys == m.Keys - {c};
      ColumnSumRemove(m - {d}, c, income);
      ColumnSumRemove(m - {c}, d, income);
      assert m - {d} - {c} == m - {c} - {d};
    }
  }

  /** One `Bump` adds the transaction's amount to exactly one column. */
  lemma BumpColumnSum(m: map<string, CategoryTotals>, t: Transaction, income: bool)
    ensures ColumnSum(Bump(m, t), income) == ColumnSum(m, income) + (if (t.kind == Income) == income then t.amount else 0)
  {
    var r := Bump(m, t);
    var c := t.category;
    ColumnSumRemove(r, c, income);
    assert r - {c} == m - {c};
    if c in m {
      ColumnSumRemove(m, c, income);
    } else {
      assert m - {c} == m;
    }
  }

  /** Over transactions that are all approved, the category rows add up to the
      approved totals of each type. */
  lemma {:induction false} TallyAddsUp(ts: seq<Transaction>)
    requires forall i :: 0 <= i < |ts| ==> ts[i].status == Approved
    ensures ColumnSum(Tally(ts), true) == Total(ts, Income, Approved)
    ensures ColumnSum(Tally(ts), false) == Total(ts, Expense, Approved)
  {
    if ts != [] {
      var init, t := ts[..|ts| - 1], ts[|ts| - 1];
      assert ts == init + [t];
      TallyAddsUp(init);
      BumpColumnSum(Tally(init), t, true);
      BumpColumnSum(Tally(init), t, false);
      TotalPush(init, t, Income, Approved);
      TotalPush(init, t, Expense, Approved);
    }
  }

  /** Keeping only the transactions of one status does not change the totals
      for that status. */
  lemma {:induction false} TotalOfStatus(ts: seq<Transaction>, kind: TxKind, status: TxStatus)
    ensures Total(Filter(ts, (t: Transaction) => t.status == status), kind, status) == Total(ts, kind, status)
  {
    if ts != [] {
      TotalOfStatus(ts[1..], kind, status);
      var f := Filter(ts[1..], (t: Transaction) => t.status == status);
      if ts[0].status == status {
        assert ([ts[0]] + f)[1..] == f;
      }
    }
  }

  datatype Summary = Summary(
    balance: int,
    totalIncome: int,
    totalExpenses: int,
    pendingIncome: int,
    pendingExpenses: int,
    netBalance: int,
    pendingBalance: int,
    approvedCount: nat,
    pendingCount: nat,
    rejectedCount: nat,
    totalCount: nat,
    categorySummary: map<string, CategoryTotals>)

  predicate Dated(t: Transaction, startDate: Option<Time>, endDate: Option<Time>, now: Time)
  {
    (startDate.None? && endDate.None?)
    || ((if startDate.Some? then startDate.value else 0) <= t.date <= (if endDate.Some? then endDate.value else now))
  }

  /** The date window of the summary: with a start or an end given, only
      transactions dated within [start, end], the start defaulting to the
      epoch and the end to now. */
  function InWindow(ts: seq<Transaction>, startDate: Option<Time>, endDate: Option<Time>, now: Time): (r: seq<Transaction>)
    ensures startDate.None? && endDate.None? ==> r == ts
    ensures forall t :: t in r <==> (t in ts && Dated(t, startDate, endDate, now))
  {
    if startDate.None? && endDate.None? then ts
    else
      var start := if startDate.Some? then startDate.value else 0;
      var end := if endDate.Some? then endDate.value else now;
      Filter(ts, (t: Transaction) => start <= t.date <= end)
  }

  function ByStatus(ts: seq<Transaction>, status: TxStatus): seq<Transaction>
  {
    Filter(ts, (t: Transaction) => t.status == status)
  }

  /** The report `getFinanceSummary` answers with. */
  function Summarize(balance: int, all: seq<Transaction>, startDate: Option<Time>, endDate: Option<Time>, now: Time,
                     categories: map<string, CategoryTotals>): (r: Summary)
  {
    var ts := InWindow(all, startDate, endDate, now);
    var income := Total(ts, Income, Approved);
    var expenses := Total(ts, Expense, Approved);
    var pIncome := Total(ts, Income, Pending);
    var pExpenses := Total(ts, Expense, Pending);
    Summary(balance, income, expenses, pIncome, pExpenses, income - expenses, pIncome - pExpenses,
            |ByStatus(ts, Approved)|, |ByStatus(ts, Pending)|, |ByStatus(ts, Rejected)|, |ts|, categories)
  }

  /** `getFinanceSummary`: 404 when the class has no ledger; otherwise the
      report over the date window, its categories tallied from the approved
      transactions of the window. */
  method GetFinanceSummary(ledger: Finance?, startDate: Option<Time>, endDate: Option<Time>, now: Time) returns (r: Result<Summary>)
    ensures ledger == null <==> r == Err(NotFound)
    ensures r.Ok? ==> r.value == Summarize(ledger.balance, ledger.transactions, startDate, endDate, now,
                                           Tally(ByStatus(InWindow(ledger.transactions, startDate, endDate, now), Approved)))
  {
    if ledger == null {
      return Err(NotFound);
    }
    var ts := InWindow(ledger.transactions, startDate, endDate, now);
    var categories := TallyCategories(ByStatus(ts, Approved));
    r := Ok(Summarize(ledger.balance, ledger.transactions, startDate, endDate, now, categories));
  }

  /** In every report, the three status counts make up the total, the category
      rows add up to the approved totals, and without a date window the net
      balance is the ledger's balance. */
  lemma SummaryConsistent(balance: int, all: seq<Transaction>, startDate: Option<Time>, endDate: Option<Time>, now: Time)
    requires LedgerOk(balance, all)
    ensures var ts := InWindow(all, startDate, endDate, now);
      var s := Summarize(balance, all, startDate, endDate, now, Tally(ByStatus(ts, Approved)));
      s.approvedCount + s.pendingCount + s.rejectedCount == s.totalCount
      && ColumnSum(s.categorySummary, true) == s.totalIncome
      && ColumnSum(s.categorySummary, false) == s.totalExpenses
      && (startDate.None? && endDate.None? ==> s.netBalance == s.balance)
  {
    var ts := InWindow(all, startDate, endDate, now);
    StatusCountsPartition(ts);
    var approved := ByStatus(ts, Approved);
    TallyAddsUp(approved);
    TotalOfStatus(ts, Income, Approved);
    TotalOfStatus(ts, Expense, Approved);
  }
}
