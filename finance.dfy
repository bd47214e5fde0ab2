/** A class's ledger: transactions that move from `pending` to `approved` or
    `rejected`, a running balance kept equal to approved income minus approved
    expenses, and a list of named categories. */
module FinanceModel {
  import opened Common
  import opened Strings
  import opened Seqs

  datatype TxKind = Income | Expense
  datatype TxStatus = Pending | Approved | Rejected

  /** The `type` enum of a transaction. */
  function ParseTxKind(s: string): (r: Option<TxKind>)
    ensures r == Some(Income) <==> s == "income"
    ensures r == Some(Expense) <==> s == "expense"
    ensures r.None? <==> s != "income" && s != "expense"
  {
    if s == "income" then Some(Income) else if s == "expense" then Some(Expense) else None
  }

  datatype Transaction = Transaction(
    id: ItemId,
    kind: TxKind,
    amount: int,
    description: string,
    category: string,
    date: Time,
    recordedBy: UserId,
    attachments: seq<string>,
    approvedBy: Option<UserId>,
    approvedAt: Option<Time>,
    status: TxStatus,
    notes: Option<string>)

  /** What a caller hands to `addTransaction`, before the schema's setters and
      defaults apply. */
  datatype TransactionData = TransactionData(
    kind: TxKind,
    amount: int,
    description: string,
    category: string,
    date: Option<Time>,
    recordedBy: UserId,
    attachments: seq<string>,
    approvedBy: Option<UserId>,
    approvedAt: Option<Time>,
    status: TxStatus,
    notes: Option<string>)

  datatype CategoryKind = ForIncome | ForExpense | ForBoth

  /** The `type` enum of a category. */
  function ParseCategoryKind(s: string): (r: Option<CategoryKind>)
    ensures r.None? <==> s != "income" && s != "expense" && s != "both"
    ensures r == Some(ForBoth) <==> s == "both"
  {
    if s == "income" then Some(ForIncome)
    else if s == "expense" then Some(ForExpense)
    else if s == "both" then Some(ForBoth)
    else None
  }

  datatype Category = Category(name: string, kind: CategoryKind, description: Option<string>)

  /** `reduce((sum, t) => sum + t.amount, 0)`. */
  function Sum(ts: seq<Transaction>): int
  {
    if ts == [] then 0 else ts[0].amount + Sum(ts[1..])
  }

  lemma {:induction false} SumAppend(a: seq<Transaction>, b: seq<Transaction>)
    ensures Sum(a + b) == Sum(a) + Sum(b)
  {
    if a == [] {
      assert a + b == b;
    } else {
      assert (a + b)[1..] == a[1..] + b;
      SumAppend(a[1..], b);
    }
  }

  predicate Matches(t: Transaction, kind: TxKind, status: TxStatus)
  {
    t.kind == kind && t.status == status
  }

  /** The transactions of one kind and one status. */
  function Select(ts: seq<Transaction>, kind: TxKind, status: TxStatus): (r: seq<Transaction>)
    ensures forall i :: 0 <= i < |r| ==> r[i].kind == kind && r[i].status == status
    ensures forall t :: t in r <==> t in ts && Matches(t, kind, status)
  {
    Filter(ts, t => Matches(t, kind, status))
  }

  /** What one transaction adds to `Total`. */
  function Share(t: Transaction, kind: TxKind, status: TxStatus): int
  {
    if Matches(t, kind, status) then t.amount else 0
  }

  /** The sum of the amounts of the transactions of one kind and one status. */
  function Total(ts: seq<Transaction>, kind: TxKind, status: TxStatus): int
  {
    if ts == [] then 0 else Share(ts[0], kind, status) + Total(ts[1..], kind, status)
  }

  /** `Total` is the source's filter-then-reduce. */
  lemma {:induction false} TotalIsSumOfSelect(ts: seq<Transaction>, kind: TxKind, status: TxStatus)
    ensures Total(ts, kind, status) == Sum(Select(ts, kind, status))
  {
    if ts != [] {
      TotalIsSumOfSelect(ts[1..], kind, status);
      if Matches(ts[0], kind, status) {
        assert Select(ts, kind, status) == [ts[0]] + Select(ts[1..], kind, status);
        assert ([ts[0]] + Select(ts[1..], kind, status))[1..] == Select(ts[1..], kind, status);
      }
    }
  }

  /** Totals add up over concatenation. */
  lemma {:induction false} TotalAppend(a: seq<Transaction>, b: seq<Transaction>, kind: TxKind, status: TxStatus)
    ensures Total(a + b, kind, status) == Total(a, kind, status) + Total(b, kind, status)
  {
    if a == [] {
      assert a + b == b;
    } else {
      assert (a + b)[1..] == a[1..] + b;
      TotalAppend(a[1..], b, kind, status);
    }
  }

  lemma TotalPush(ts: seq<Transaction>, t: Transaction, kind: TxKind, status: TxStatus)
    ensures Total(ts + [t], kind, status) == Total(ts, kind, status) + Share(t, kind, status)
  {
    TotalAppend(ts, [t], kind, status);
    assert [t][1..] == [];
  }

  /** Replacing one transaction changes a total by the difference of the two
      transactions' shares. */
  lemma TotalReplace(ts: seq<Transaction>, k: nat, t: Transaction, kind: TxKind, status: TxStatus)
    requires k < |ts|
    ensures Total(ts[k := t], kind, status) == Total(ts, kind, status) - Share(ts[k], kind, status) + Share(t, kind, status)
  {
    var pre, post := ts[..k], ts[k + 1..];
    assert ts == pre + [ts[k]] + post;
    assert ts[k := t] == pre + [t] + post;
    TotalAppend(pre + [ts[k]], post, kind, status);
    TotalAppend(pre + [t], post, kind, status);
    TotalPush(pre, ts[k], kind, status);
    TotalPush(pre, t, kind, status);
  }

  /** `getTotalIncome`: approved income only. */
  function TotalIncome(ts: seq<Transaction>): int
  {
    Total(ts, Income, Approved)
  }

  /** `getTotalExpenses`: approved expenses only. */
  function TotalExpenses(ts: seq<Transaction>): int
  {
    Total(ts, Expense, Approved)
  }

  /** Pending and rejected transactions, and every transaction of the other
      kind, leave the income total where it is. */
  lemma TotalsCountOnlyApproved(ts: seq<Transaction>, t: Transaction)
    ensures t.status != Approved ==> TotalIncome(ts + [t]) == TotalIncome(ts) && TotalExpenses(ts + [t]) == TotalExpenses(ts)
    ensures t.status == Approved && t.kind == Income ==>
      TotalIncome(ts + [t]) == TotalIncome(ts) + t.amount && TotalExpenses(ts + [t]) == TotalExpenses(ts)
    ensures t.status == Approved && t.kind == Expense ==>
      TotalIncome(ts + [t]) == TotalIncome(ts) && TotalExpenses(ts + [t]) == TotalExpenses(ts) + t.amount
  {
    TotalPush(ts, t, Income, Approved);
    TotalPush(ts, t, Expense, Approved);
  }

  /** The balance a ledger should show. */
  function NetApproved(ts: seq<Transaction>): int
  {
    TotalIncome(ts) - TotalExpenses(ts)
  }

  /** How an approved transaction moves the balance. */
  function Signed(t: Transaction): (n: int)
    ensures t.kind == Income ==> n == t.amount
    ensures t.kind == Expense ==> n == -t.amount
  {
    if t.kind == Income then t.amount else -t.amount
  }

  /** `transactions.id(id)`: the position of the first transaction with that
      id. */
  function TxIndex(ts: seq<Transaction>, id: ItemId): (r: Option<nat>)
    ensures r.Some? ==> r.value < |ts| && ts[r.value].id == id
    ensures r.Some? ==> forall j :: 0 <= j < r.value ==> ts[j].id != id
    ensures r.None? <==> forall j :: 0 <= j < |ts| ==> ts[j].id != id
  {
    if ts == [] then None
    else if ts[0].id == id then Some(0)
    else match TxIndex(ts[1..], id)
      case None =>
        assert forall j :: 1 <= j < |ts| ==> ts[j] == ts[1..][j - 1];
        None
      case Some(i) => Some(i + 1)
  }

  /** The transaction the schema stores: text fields trimmed, the date
      defaulted to now. */
  function Stored(id: ItemId, d: TransactionData, now: Time): (t: Transaction)
    ensures t.id == id && t.kind == d.kind && t.amount == d.amount && t.status == d.status
    ensures t.description == Trim(d.description) && t.category == Trim(d.category)
    ensures t.date == (if d.date.Some? then d.date.value else now)
    ensures |t.attachments| == |d.attachments|
  {
    Transaction(id, d.kind, d.amount, Trim(d.description), Trim(d.category),
                if d.date.Some? then d.date.value else now, d.recordedBy,
                seq(|d.attachments|, i requires 0 <= i < |d.attachments| => Trim(d.attachments[i])),
                d.approvedBy, d.approvedAt, d.status,
                if d.notes.Some? then Some(Trim(d.notes.value)) else None)
  }

  /** The schema's validators: a non-negative amount, and a description and a
      category that are not blank once trimmed. */
  predicate Storable(d: TransactionData)
  {
    d.amount >= 0 && Trim(d.description) != "" && Trim(d.category) != ""
  }

  /** No two category names are equal ignoring case. */
  ghost predicate CategoriesUnique(cs: seq<Category>)
  {
    forall i, j :: 0 <= i < j < |cs| ==> ToLower(cs[i].name) != ToLower(cs[j].name)
  }

  /** The ledger invariant: the stored balance is approved income less
      approved expenses. Category names are not part of it, since the
      duplicate test of `addTransactionCategory` does not keep them unique. */
  ghost predicate LedgerOk(balance: int, ts: seq<Transaction>)
  {
    balance == NetApproved(ts)
  }

  /** Appending a transaction, with the balance moved when it is approved,
      keeps the ledger invariant. */
  lemma PushKeepsLedger(balance: int, ts: seq<Transaction>, t: Transaction)
    requires LedgerOk(balance, ts)
    ensures LedgerOk(balance + (if t.status == Approved then Signed(t) else 0), ts + [t])
  {
    TotalsCountOnlyApproved(ts, t);
  }

  /** Settling a pending transaction, with the balance moved only on
      approval, keeps the ledger invariant. */
  lemma SettleKeepsLedger(balance: int, ts: seq<Transaction>, k: nat, t': Transaction)
    requires LedgerOk(balance, ts) && k < |ts| && ts[k].status == Pending
    requires t'.kind == ts[k].kind && t'.amount == ts[k].amount
    ensures LedgerOk(balance + (if t'.status == Approved then Signed(t') else 0), ts[k := t'])
  {
    TotalReplace(ts, k, t', Income, Approved);
    TotalReplace(ts, k, t', Expense, Approved);
  }

  class Finance {
    var cls: ClassId
    var balance: int
    var transactions: seq<Transaction>
    var categories: seq<Category>
    var createdBy: UserId
    var lastUpdatedBy: Option<UserId>

    ghost predicate Valid()
      reads this
    {
      LedgerOk(balance, transactions)
    }

    /** `new Finance({ class, createdBy })`: balance 0, nothing recorded. */
    constructor(cls: ClassId, createdBy: UserId)
      ensures Valid()
      ensures this.cls == cls && this.createdBy == createdBy
      ensures balance == 0 && transactions == [] && categories == [] && lastUpdatedBy == None
    {
      this.cls := cls;
      this.createdBy := createdBy;
      balance := 0;
      transactions := [];
      categories := [];
      lastUpdatedBy := None;
    }

    /** `addTransaction`: an approved transaction moves the balance; the
        transaction is appended and its recorder becomes the last updater. A
        transaction the schema refuses fails the save and nothing changes. */
    method AddTransaction(d: TransactionData, now: Time) returns (s: Status)
      requires Valid()
      modifies this
      ensures Valid()
      ensures cls == old(cls) && createdBy == old(createdBy) && categories == old(categories)
      ensures s.Done? <==> Storable(d)
      ensures s.Failed? ==> s.error == ServerError && unchanged(this)
      ensures s.Done? ==> (transactions == old(transactions) + [Stored(|old(transactions)|, d, now)]
                           && balance == old(balance) + (if d.status == Approved then Signed(Stored(|old(transactions)|, d, now)) else 0)
                           && lastUpdatedBy == Some(d.recordedBy))
    {
      if !Storable(d) {
        return Failed(ServerError);
      }
      var t := Stored(|transactions|, d, now);
      PushKeepsLedger(balance, transactions, t);
      balance := balance + (if t.status == Approved then Signed(t) else 0);
      transactions := transactions + [t];
      lastUpdatedBy := Some(d.recordedBy);
      s := Done;
    }

    /** `approveTransaction` and `rejectTransaction`: a missing or already
        processed transaction throws and nothing changes; otherwise the
        transaction takes the new status with its approver and time, and only
        approval moves the balance. */
    method Decide(id: ItemId, approve: bool, approver: UserId, now: Time) returns (s: Status)
      requires Valid()
      modifies this
      ensures Valid()
      ensures cls == old(cls) && createdBy == old(createdBy) && categories == old(categories)
      ensures var k := TxIndex(old(transactions), id);
        s.Done? <==> k.Some? && old(transactions)[k.value].status == Pending
      ensures s.Failed? ==> s.error == ServerError && unchanged(this)
      ensures s.Done? ==>
        var k := TxIndex(old(transactions), id).value;
        var t := old(transactions)[k];
        transactions == old(transactions)[k := t.(status := if approve then Approved else Rejected,
                                                  approvedBy := Some(approver), approvedAt := Some(now))]
        && balance == old(balance) + (if approve then Signed(t) else 0)
        && lastUpdatedBy == Some(approver)
    {
      var k := TxIndex(transactions, id);
      if k.None? || transactions[k.value].status != Pending {
        return Failed(ServerError);
      }
      var t := transactions[k.value];
      var t' := t.(status := if approve then Approved else Rejected, approvedBy := Some(approver), approvedAt := Some(now));
      SettleKeepsLedger(balance, transactions, k.value, t');
      balance := balance + (if approve then Signed(t) else 0);
      transactions := transactions[k.value := t'];
      lastUpdatedBy := Some(approver);
      s := Done;
    }

    /** `getTotalIncome` on this ledger. */
    function GetTotalIncome(): (n: int)
      reads this
      requires Valid()
      ensures n - GetTotalExpenses() == balance
    {
      TotalIncome(transactions)
    }

    /** `getTotalExpenses` on this ledger. */
    function GetTotalExpenses(): (n: int)
      reads this
    {
      TotalExpenses(transactions)
    }
  }

  /** A rejected transaction never reaches either approved total, whatever else
      is recorded. */
  lemma RejectionNeutral(ts: seq<Transaction>, k: nat, approver: UserId, now: Time)
    requires k < |ts| && ts[k].status == Pending
    ensures var ts' := ts[k := ts[k].(status := Rejected, approvedBy := Some(approver), approvedAt := Some(now))];
      TotalIncome(ts') == TotalIncome(ts) && TotalExpenses(ts') == TotalExpenses(ts)
  {
    var t' := ts[k].(status := Rejected, approvedBy := Some(approver), approvedAt := Some(now));
    TotalReplace(ts, k, t', Income, Approved);
    TotalReplace(ts, k, t', Expense, Approved);
  }

  /** Of a ledger's transactions, each is pending, approved or rejected: the
      three counts make up the whole. */
  lemma {:induction false} StatusCountsPartition(ts: seq<Transaction>)
    ensures |Filter(ts, (t: Transaction) => t.status == Approved)| + |Filter(ts, (t: Transaction) => t.status == Pending)|
          + |Filter(ts, (t: Transaction) => t.status == Rejected)| == |ts|
  {
    if ts != [] {
      StatusCountsPartition(ts[1..]);
    }
  }
}
