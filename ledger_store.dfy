/** The Ledger Store: the page's `transactions` array and `currentFilter`,
    the three operations that change the array (add, delete by id, clear
    all), and its persistence to the browser's key-value store. */
module LedgerStore {
  import opened JsArray
  import opened JsString
  import opened Transactions
  import opened ViewProjector

  datatype Option<T> = None | Some(value: T)

  /** The two notices `addTransaction` can raise instead of adding:
      "Please fill in all fields!" and "Amount must be greater than 0!". */
  datatype AddError = MissingField | NonPositiveAmount

  datatype AddResult = Added(record: Transaction) | Rejected(error: AddError)

  /** The answer `clearAllTransactions` gives: "No transactions to clear!",
      the user declined the confirmation, or the ledger was emptied. */
  datatype ClearOutcome = NothingToClear | Cancelled | Cleared

  /** The validation and record construction of `addTransaction`. The
      description is trimmed; a missing description, a NaN or zero amount or
      a missing category is a missing field; a negative amount is refused
      next. The new record is positive for type "income" and negated for any
      other type. A record that is built is never blank and obeys the sign
      convention. */
  function NewTransaction(description: string, amount: ParsedAmount, category: string,
                          kind: string, id: int, date: string): (r: AddResult)
    ensures r.Added? ==> SignConsistent(r.record)
    ensures r.Added? ==> r.record.description != [] && r.record.category != []
  {
    var trimmed := Trim(description);
    if trimmed == [] || amount.NotANumber? || amount.cents == 0 || category == [] then
      Rejected(MissingField)
    else if amount.cents <= 0 then
      Rejected(NonPositiveAmount)
    else
      Added(Transaction(id, trimmed, if kind == Income then amount.cents else -amount.cents,
                        category, kind, date))
  }

  /** Add refuses exactly the bad inputs: a description of only whitespace,
      a NaN or non-positive amount, or an empty category; and it says which
      notice applies. */
  lemma NewTransactionRejects(description: string, amount: ParsedAmount, category: string,
                              kind: string, id: int, date: string)
    ensures var r := NewTransaction(description, amount, category, kind, id, date);
      r.Rejected? <==>
        (forall i :: 0 <= i < |description| ==> IsWhitespace(description[i])) ||
        amount.NotANumber? || amount.cents <= 0 || category == []
    ensures var r := NewTransaction(description, amount, category, kind, id, date);
      r == Rejected(NonPositiveAmount) <==>
        (exists i :: 0 <= i < |description| && !IsWhitespace(description[i])) &&
        amount.Number? && amount.cents < 0 && category != []
  {
    TrimEmptyIff(description);
  }

  /** A valid add builds the record from its inputs: the given id, category,
      type and date, the trimmed description, and the amount's magnitude
      with the sign its type selects. */
  lemma NewTransactionBuilds(description: string, amount: ParsedAmount, category: string,
                             kind: string, id: int, date: string)
    requires NewTransaction(description, amount, category, kind, id, date).Added?
    ensures var t := NewTransaction(description, amount, category, kind, id, date).record;
      t.id == id && t.category == category && t.kind == kind && t.date == date &&
      t.description == Trim(description) &&
      amount.Number? && amount.cents > 0 &&
      t.amount == (if kind == Income then amount.cents else -amount.cents) &&
      Abs(t.amount) == amount.cents
  {
  }

  /** `transactions.filter(t => t.id !== id)`. */
  function IdDiffers(id: int): Transaction -> bool
  {
    (t: Transaction) => t.id != id
  }

  /** The ledger after deleting `id`. */
  function WithoutId(s: seq<Transaction>, id: int): (r: seq<Transaction>)
    ensures |r| <= |s|
    ensures forall i :: 0 <= i < |r| ==> r[i].id != id
  {
    Filter(s, IdDiffers(id))
  }

  /** Deleting keeps exactly the records whose id differs, as often as they
      occurred, and drops only records with that id. */
  lemma WithoutIdKeeps(s: seq<Transaction>, id: int, t: Transaction)
    ensures t in WithoutId(s, id) <==> t in s && t.id != id
    ensures multiset(WithoutId(s, id))[t] == if t.id != id then multiset(s)[t] else 0
  {
    FilterMembership(s, IdDiffers(id), t);
    FilterCount(s, IdDiffers(id), t);
  }

  /** Deleting keeps the sign convention: every survivor was a record of
      the ledger. */
  lemma WithoutIdKeepsSigns(s: seq<Transaction>, id: int)
    ensures AllSignConsistent(s) ==> AllSignConsistent(WithoutId(s, id))
  {
    var r := WithoutId(s, id);
    if AllSignConsistent(s) {
      forall i | 0 <= i < |r|
        ensures SignConsistent(r[i])
      {
        WithoutIdKeeps(s, id, r[i]);
      }
    }
  }

  /** Deleting keeps the survivors in their original relative order:
      deleting from a concatenation deletes from each part. */
  lemma WithoutIdAppend(a: seq<Transaction>, b: seq<Transaction>, id: int)
    ensures WithoutId(a + b, id) == WithoutId(a, id) + WithoutId(b, id)
  {
    FilterAppend(a, b, IdDiffers(id));
  }

  /** Deleting an id that no record has changes nothing. */
  lemma WithoutAbsentId(s: seq<Transaction>, id: int)
    requires forall i :: 0 <= i < |s| ==> s[i].id != id
    ensures WithoutId(s, id) == s
  {
    FilterAllPass(s, IdDiffers(id));
  }

  /** After a delete the summary counts exactly the records that do not
      have the deleted id. */
  lemma SummaryAfterDelete(s: seq<Transaction>, id: int)
    ensures UpdateSummary(WithoutId(s, id)).count == |s| - |Filter(s, HasId(id))|
  {
    FilterPartition(s, IdDiffers(id), HasId(id));
  }

  /** Adding a valid record grows the balance by its signed amount, and the
      income total by the amount for an income, the expense magnitude by
      it otherwise. */
  lemma SummaryAfterAdd(s: seq<Transaction>, description: string, amount: ParsedAmount,
                        category: string, kind: string, id: int, date: string)
    requires NewTransaction(description, amount, category, kind, id, date).Added?
    ensures var t := NewTransaction(description, amount, category, kind, id, date).record;
      var before := UpdateSummary(s);
      var after := UpdateSummary(s + [t]);
      after.count == before.count + 1 &&
      after.balance == before.balance + t.amount &&
      (kind == Income ==> after.income == before.income + amount.cents && after.expense == before.expense) &&
      (kind != Income ==> after.income == before.income && after.expense == before.expense + amount.cents)
  {
    var t := NewTransaction(description, amount, category, kind, id, date).record;
    NewTransactionBuilds(description, amount, category, kind, id, date);
    TotalsAppend(s, t);
  }

  /** The record store of the page. `stored` stands for the value under the
      'transactions' key of localStorage, already decoded from JSON; None
      when the key is absent. */
  class Ledger {
    var transactions: seq<Transaction>
    var currentFilter: string
    var stored: Option<seq<Transaction>>

    /** The durable copy equals the ledger in memory. */
    predicate Persisted()
      reads this
    {
      stored == Some(transactions)
    }

    /** The page's initial state, over whatever the store already holds. */
    constructor (storage: Option<seq<Transaction>>)
      ensures transactions == [] && currentFilter == "all" && stored == storage
    {
      transactions := [];
      currentFilter := "all";
      stored := storage;
    }

    /** `loadTransactions`: the stored records, or none when the key is absent. */
    method LoadTransactions()
      modifies this
      ensures transactions == (if old(stored).Some? then old(stored).value else [])
      ensures stored == old(stored) && currentFilter == old(currentFilter)
    {
      transactions := if stored.Some? then stored.value else [];
    }

    /** `saveTransactions`: the whole ledger overwrites the stored value. */
    method SaveTransactions()
      modifies this
      ensures Persisted()
      ensures transactions == old(transactions) && currentFilter == old(currentFilter)
    {
      stored := Some(transactions);
    }

    /** `addTransaction`: on valid input appends exactly one record and
      persists; on invalid input changes nothing. */
    method AddTransaction(description: string, amount: ParsedAmount, category: string,
                          kind: string, id: int, date: string) returns (r: AddResult)
      modifies this
      ensures r == NewTransaction(description, amount, category, kind, id, date)
      ensures r.Added? ==> transactions == old(transactions) + [r.record] && Persisted()
      ensures r.Added? ==> |transactions| == |old(transactions)| + 1 && SignConsistent(r.record)
      ensures r.Rejected? ==> transactions == old(transactions) && stored == old(stored)
      ensures AllSignConsistent(old(transactions)) ==> AllSignConsistent(transactions)
      ensures currentFilter == old(currentFilter)
    {
      r := NewTransaction(description, amount, category, kind, id, date);
      if r.Added? {
        transactions := transactions + [r.record];
        SaveTransactions();
      }
    }

    /** `deleteTransaction`: once confirmed, keeps the records whose id
      differs and persists; unconfirmed, changes nothing. */
    method DeleteTransaction(id: int, confirmed: bool)
      modifies this
      ensures transactions == if confirmed then WithoutId(old(transactions), id) else old(transactions)
      ensures confirmed ==> Persisted()
      ensures !confirmed ==> stored == old(stored)
      ensures AllSignConsistent(old(transactions)) ==> AllSignConsistent(transactions)
      ensures currentFilter == old(currentFilter)
    {
      if confirmed {
        WithoutIdKeepsSigns(transactions, id);
        transactions := WithoutId(transactions, id);
        SaveTransactions();
      }
    }

    /** `clearAllTransactions`: nothing to do on an empty ledger (and no
      confirmation is asked); otherwise, once confirmed, empties the ledger
      and persists. */
    method ClearAllTransactions(confirmed: bool) returns (outcome: ClearOutcome)
      modifies this
      ensures outcome == NothingToClear <==> old(transactions) == []
      ensures outcome == Cleared <==> old(transactions) != [] && confirmed
      ensures outcome == Cleared ==> transactions == [] && Persisted()
      ensures outcome != Cleared ==> transactions == old(transactions) && stored == old(stored)
      ensures AllSignConsistent(old(transactions)) ==> AllSignConsistent(transactions)
      ensures currentFilter == old(currentFilter)
    {
      if |transactions| == 0 {
        return NothingToClear;
      }
      if confirmed {
        transactions := [];
        SaveTransactions();
        outcome := Cleared;
      } else {
        outcome := Cancelled;
      }
    }

    /** A filter button sets the type filter the list is rendered with. */
    method SetFilter(typeFilter: string)
      modifies this
      ensures currentFilter == typeFilter
      ensures transactions == old(transactions) && stored == old(stored)
    {
      currentFilter := typeFilter;
    }

    /** The list `renderTransactions` displays for the search box text. */
    method RenderTransactions(searchBoxValue: string) returns (shown: seq<Transaction>)
      ensures shown == RenderList(transactions, currentFilter, searchBoxValue)
      ensures SortedByIdDesc(shown)
      ensures forall t :: t in shown <==>
        t in transactions && Passes(t, currentFilter, ToLowerCase(searchBoxValue))
    {
      shown := SortByIdDesc(Filter(transactions, PassesFilter(currentFilter, ToLowerCase(searchBoxValue))));
      RenderListSpec(transactions, currentFilter, searchBoxValue);
    }

    /** The figures `updateSummary` shows for the whole ledger. */
    method Summarize() returns (summary: Summary)
      ensures summary == UpdateSummary(transactions)
      ensures summary.count == |transactions|
    {
      summary := UpdateSummary(transactions);
    }
  }

  /** Saving and then loading gives back the same ledger, in the same order. */
  method SaveThenLoad(ledger: Ledger)
    modifies ledger
    ensures ledger.transactions == old(ledger.transactions)
    ensures ledger.Persisted()
  {
    ledger.SaveTransactions();
    ledger.LoadTransactions();
  }

  /** The salary-and-groceries scenario run through the store: two adds,
      then the summary. */
  method SalaryThenGroceries() returns (summary: Summary)
    ensures summary == Summary(80000, 100000, 20000, 2, 1, 1, 20, BalanceGreen)
  {
    TrimOfTrimmed("Salary");
    TrimOfTrimmed("Groceries");
    var ledger := new Ledger(None);
    var r1 := ledger.AddTransaction("Salary", Number(100000), "salary", Income, 1, "");
    assert ledger.transactions == [Transaction(1, "Salary", 100000, "salary", Income, "")];
    var r2 := ledger.AddTransaction("Groceries", Number(20000), "groceries", Expense, 2, "");
    assert ledger.transactions == [
      Transaction(1, "Salary", 100000, "salary", Income, ""),
      Transaction(2, "Groceries", -20000, "groceries", Expense, "")];
    SalaryAndGroceries();
    summary := ledger.Summarize();
  }
}
