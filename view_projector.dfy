/** The View Projector: pure functions from the record sequence to what the
    page shows. The statistics (`calculateTotals` and the figures of
    `updateSummary`) are computed over the whole ledger; the list (the filter
    and sort of `renderTransactions`) over the records that pass the current
    type filter and search term; `getCategoryIcon` picks each row's icon. */
module ViewProjector {
  import opened JsArray
  import opened JsString
  import opened Transactions

  // ---------------------------------------------------------------------
  // Totals: calculateTotals
  // ---------------------------------------------------------------------

  function AmountOf(t: Transaction): int
  {
    t.amount
  }

  predicate IsPositive(x: int)
  {
    x > 0
  }

  predicate IsNegative(x: int)
  {
    x < 0
  }

  /** The three figures `calculateTotals` returns. */
  datatype Totals = Totals(total: int, income: int, expense: int)

  /** Every amount is either counted as income, counted as expense, or is 0. */
  lemma {:induction false} SumSplits(xs: seq<int>)
    ensures Sum(xs) == Sum(Filter(xs, IsPositive)) + Sum(Filter(xs, IsNegative))
  {
    if xs != [] {
      SumSplits(xs[1..]);
      assert xs == [xs[0]] + xs[1..];
      SumAppend([xs[0]], xs[1..]);
      assert Sum([xs[0]]) == xs[0] by { assert [xs[0]][..0] == []; }
      var p := if IsPositive(xs[0]) then [xs[0]] else [];
      var n := if IsNegative(xs[0]) then [xs[0]] else [];
      assert Filter(xs, IsPositive) == p + Filter(xs[1..], IsPositive);
      assert Filter(xs, IsNegative) == n + Filter(xs[1..], IsNegative);
      SumAppend(p, Filter(xs[1..], IsPositive));
      SumAppend(n, Filter(xs[1..], IsNegative));
      assert Sum(p) + Sum(n) == xs[0] by {
        assert [xs[0]][..0] == [];
      }
    }
  }

  /** `calculateTotals`: the sum of all amounts, of the positive ones and
      of the negative ones. The balance is income plus expense, income is
      never negative and expense is never positive. */
  function CalculateTotals(s: seq<Transaction>): (r: Totals)
    ensures r.total == r.income + r.expense
    ensures r.income >= 0 && r.expense <= 0
  {
    var amounts := Map(s, AmountOf);
    SumSplits(amounts);
    SumOfPositives(Filter(amounts, IsPositive));
    SumOfNegatives(Filter(amounts, IsNegative));
    Totals(Sum(amounts), Sum(Filter(amounts, IsPositive)), Sum(Filter(amounts, IsNegative)))
  }

  /** An empty ledger has all three totals 0. */
  lemma TotalsOfEmpty()
    ensures CalculateTotals([]) == Totals(0, 0, 0)
  {
  }

  /** Appending one record moves the balance by its amount, and moves the
      income or the expense total by it, whichever its sign selects. */
  lemma TotalsAppend(s: seq<Transaction>, t: Transaction)
    ensures CalculateTotals(s + [t]).total == CalculateTotals(s).total + t.amount
    ensures CalculateTotals(s + [t]).income ==
      CalculateTotals(s).income + (if t.amount > 0 then t.amount else 0)
    ensures CalculateTotals(s + [t]).expense ==
      CalculateTotals(s).expense + (if t.amount < 0 then t.amount else 0)
  {
    var a := Map(s, AmountOf);
    MapAppend(s, [t], AmountOf);
    assert Map(s + [t], AmountOf) == a + [t.amount];
    SumAppend(a, [t.amount]);
    FilterAppend(a, [t.amount], IsPositive);
    FilterAppend(a, [t.amount], IsNegative);
    SumAppend(Filter(a, IsPositive), Filter([t.amount], IsPositive));
    SumAppend(Filter(a, IsNegative), Filter([t.amount], IsNegative));
  }

  /** The income total is 0 exactly when no record has a positive amount:
      this is when the expense ratio falls back to 0. */
  lemma IncomeZeroIff(s: seq<Transaction>)
    ensures CalculateTotals(s).income == 0 <==> forall i :: 0 <= i < |s| ==> s[i].amount <= 0
  {
    var a := Map(s, AmountOf);
    var pos := Filter(a, IsPositive);
    if i :| 0 <= i < |s| && s[i].amount > 0 {
      FilterMembership(a, IsPositive, a[i]);
      SumOfPositives(pos);
    } else {
      FilterNonePass(a, IsPositive);
    }
  }

  // ---------------------------------------------------------------------
  // Statistics: updateSummary
  // ---------------------------------------------------------------------

  function KindIs(kind: string): Transaction -> bool
  {
    (t: Transaction) => t.kind == kind
  }

  /** `transactions.filter(t => t.type === kind).length`. */
  function CountOfKind(s: seq<Transaction>, kind: string): (n: nat)
    ensures n <= |s|
  {
    |Filter(s, KindIs(kind))|
  }

  /** When every record is income or expense, the two counts add up to the
      number of records. */
  lemma CountsPartition(s: seq<Transaction>)
    ensures KindsAreKnown(s) ==> CountOfKind(s, Income) + CountOfKind(s, Expense) == |s|
  {
    if KindsAreKnown(s) {
      FilterPartition(s, KindIs(Income), KindIs(Expense));
    }
  }

  function Abs(x: int): int
  {
    if x < 0 then -x else x
  }

  /** `income > 0 ? Math.round(Math.abs(expense) / income * 100) : 0`, in
      exact arithmetic. With a positive income the result r is the integer
      that `Math.round` picks, the one with r - 1/2 <= 100 * |expense| / income
      < r + 1/2 (halves round up); otherwise it is 0. */
  function ExpensePercentage(income: int, expense: int): (r: int)
    ensures income <= 0 ==> r == 0
    ensures income > 0 ==>
      2 * income * r - income <= 200 * Abs(expense) < 2 * income * r + income
    ensures income > 0 ==> r >= 0
  {
    if income > 0 then (200 * Abs(expense) + income) / (2 * income) else 0
  }

  const BalanceGreen: string := "#10b981"
  const BalanceRed: string := "#ef4444"

  /** The balance colour: green for a balance of 0 or more, red below. */
  function BalanceColor(total: int): (c: string)
    ensures c == BalanceGreen <==> total >= 0
    ensures c == BalanceGreen || c == BalanceRed
  {
    if total >= 0 then BalanceGreen else BalanceRed
  }

  /** The figures `updateSummary` writes to the page: the balance, the income
      total, the expense total as a magnitude, the three counts, the expense
      ratio in percent and the balance colour. */
  datatype Summary = Summary(
    balance: int,
    income: int,
    expense: nat,
    count: nat,
    incomeCount: nat,
    expenseCount: nat,
    expenseRatio: int,
    balanceColor: string)

  /** `updateSummary`, over the full ledger. */
  function UpdateSummary(s: seq<Transaction>): (r: Summary)
    ensures r.balance == r.income - r.expense
    ensures r.income >= 0 && r.expenseRatio >= 0
    ensures r.count == |s|
    ensures r.expenseRatio == ExpensePercentage(r.income, -(r.expense as int))
    ensures KindsAreKnown(s) ==> r.incomeCount + r.expenseCount == r.count
    ensures r.income == 0 ==> r.expenseRatio == 0
    ensures r.balanceColor == BalanceGreen <==> r.balance >= 0
  {
    var totals := CalculateTotals(s);
    CountsPartition(s);
    Summary(
      totals.total,
      totals.income,
      -totals.expense,
      |s|,
      CountOfKind(s, Income),
      CountOfKind(s, Expense),
      ExpensePercentage(totals.income, totals.expense),
      BalanceColor(totals.total))
  }

  /** An empty ledger shows zeros everywhere and a green balance. */
  lemma SummaryOfEmpty()
    ensures UpdateSummary([]) == Summary(0, 0, 0, 0, 0, 0, 0, BalanceGreen)
  {
    TotalsOfEmpty();
  }

  /** A salary of 1000.00 and groceries of 200.00 give a balance of 800.00,
      two records, one of each kind, and an expense ratio of 20 percent. */
  lemma SalaryAndGroceries()
    ensures var s := [
        Transaction(1, "Salary", 100000, "salary", Income, ""),
        Transaction(2, "Groceries", -20000, "groceries", Expense, "")];
      UpdateSummary(s) == Summary(80000, 100000, 20000, 2, 1, 1, 20, BalanceGreen)
  {
    var t1 := Transaction(1, "Salary", 100000, "salary", Income, "");
    var t2 := Transaction(2, "Groceries", -20000, "groceries", Expense, "");
    TotalsOfEmpty();
    TotalsAppend([], t1);
    assert [] + [t1] == [t1];
    TotalsAppend([t1], t2);
    assert CalculateTotals([t1, t2]) == Totals(80000, 100000, -20000);
    assert [t1, t2][1..] == [t2];
    assert Filter([t1, t2], KindIs(Income)) == [t1] + Filter([t2], KindIs(Income));
    assert Filter([t1, t2], KindIs(Expense)) == Filter([t2], KindIs(Expense));
    assert ExpensePercentage(100000, -20000) == 20;
  }

  // ---------------------------------------------------------------------
  // The displayed list: the filter and sort of renderTransactions
  // ---------------------------------------------------------------------

  /** The filter condition of `renderTransactions`. `searchTerm` is the
      search box text already lowered: a record passes when the type filter
      is "all" or equals its type, and the term is empty or occurs in its
      lowered description. */
  predicate Passes(t: Transaction, typeFilter: string, searchTerm: string)
    ensures Passes(t, typeFilter, searchTerm) ==> typeFilter == "all" || t.kind == typeFilter
    ensures Passes(t, typeFilter, searchTerm) && searchTerm != [] ==> |searchTerm| <= |t.description|
    ensures typeFilter == "all" && searchTerm == [] ==> Passes(t, typeFilter, searchTerm)
  {
    (typeFilter == "all" || t.kind == typeFilter) &&
    (searchTerm == [] || Includes(ToLowerCase(t.description), searchTerm))
  }

  function PassesFilter(typeFilter: string, searchTerm: string): Transaction -> bool
  {
    (t: Transaction) => Passes(t, typeFilter, searchTerm)
  }

  /** Ordered by id, highest first. */
  predicate SortedByIdDesc(s: seq<Transaction>)
  {
    forall i, j :: 0 <= i < j < |s| ==> s[i].id >= s[j].id
  }

  /** Puts `t` in front of the first record whose id is not larger, so that
      it stays ahead of the records with its own id that came after it. */
  function InsertById(t: Transaction, s: seq<Transaction>): (r: seq<Transaction>)
    ensures multiset(r) == multiset(s) + multiset{t}
    ensures r[0] == t || (s != [] && r[0] == s[0])
  {
    if s == [] || s[0].id <= t.id then [t] + s
    else
      assert s == [s[0]] + s[1..];
      [s[0]] + InsertById(t, s[1..])
  }

  /** Inserting into an ordered list keeps it ordered. */
  lemma {:induction false} InsertKeepsSorted(t: Transaction, s: seq<Transaction>)
    requires SortedByIdDesc(s)
    ensures SortedByIdDesc(InsertById(t, s))
  {
    if s != [] && s[0].id > t.id {
      var rest := InsertById(t, s[1..]);
      InsertKeepsSorted(t, s[1..]);
      assert rest[0].id <= s[0].id;
      var r := [s[0]] + rest;
      forall i, j | 0 <= i < j < |r|
        ensures r[i].id >= r[j].id
      {
        if i == 0 && j > 1 {
          assert r[1].id >= r[j].id;
        }
      }
    }
  }

  /** `records.sort((a, b) => b.id - a.id)`: a stable sort by id, highest
      first (the behaviour `Array.prototype.sort` has had since ES2019). */
  function SortByIdDesc(s: seq<Transaction>): (r: seq<Transaction>)
    ensures SortedByIdDesc(r)
    ensures multiset(r) == multiset(s)
  {
    if s == [] then []
    else
      assert s == [s[0]] + s[1..];
      InsertKeepsSorted(s[0], SortByIdDesc(s[1..]));
      InsertById(s[0], SortByIdDesc(s[1..]))
  }

  function HasId(id: int): Transaction -> bool
  {
    (t: Transaction) => t.id == id
  }

  lemma {:induction false} InsertKeepsOrderOfEqualIds(t: Transaction, s: seq<Transaction>, id: int)
    ensures Filter(InsertById(t, s), HasId(id)) ==
      (if t.id == id then [t] else []) + Filter(s, HasId(id))
  {
    if s == [] || s[0].id <= t.id {
      assert InsertById(t, s) == [t] + s;
    } else {
      InsertKeepsOrderOfEqualIds(t, s[1..], id);
      assert InsertById(t, s) == [s[0]] + InsertById(t, s[1..]);
    }
  }

  /** The sort is stable: the records that share an id keep their relative
      order. */
  lemma {:induction false} SortKeepsOrderOfEqualIds(s: seq<Transaction>, id: int)
    ensures Filter(SortByIdDesc(s), HasId(id)) == Filter(s, HasId(id))
  {
    if s != [] {
      SortKeepsOrderOfEqualIds(s[1..], id);
      InsertKeepsOrderOfEqualIds(s[0], SortByIdDesc(s[1..]), id);
    }
  }

  /** Sorting a list that is already in order changes nothing. */
  lemma {:induction false} SortOfSorted(s: seq<Transaction>)
    requires SortedByIdDesc(s)
    ensures SortByIdDesc(s) == s
  {
    if s != [] {
      SortOfSorted(s[1..]);
      assert s == [s[0]] + s[1..];
    }
  }

  /** The list `renderTransactions` displays for the given type filter and
      search box text. */
  function RenderList(s: seq<Transaction>, typeFilter: string, searchBoxValue: string): (r: seq<Transaction>)
    ensures SortedByIdDesc(r)
    ensures |r| <= |s|
    ensures forall i :: 0 <= i < |r| ==> Passes(r[i], typeFilter, ToLowerCase(searchBoxValue))
  {
    var p := PassesFilter(typeFilter, ToLowerCase(searchBoxValue));
    var kept := Filter(s, p);
    var r := SortByIdDesc(kept);
    PermutationKeepsFilter(kept, r, p);
    r
  }

  /** A rearrangement of a list whose every element passes a test has the
      same length, and every element of it still passes. */
  lemma PermutationKeepsFilter(a: seq<Transaction>, b: seq<Transaction>, p: Transaction -> bool)
    requires multiset(b) == multiset(a)
    requires forall i :: 0 <= i < |a| ==> p(a[i])
    ensures |b| == |a|
    ensures forall i :: 0 <= i < |b| ==> p(b[i])
  {
    assert |b| == |multiset(b)| == |multiset(a)| == |a|;
    forall i | 0 <= i < |b|
      ensures p(b[i])
    {
      assert b[i] in multiset(a);
      assert b[i] in a;
    }
  }

  /** The displayed list holds exactly the passing records, each as often as
      it occurs in the ledger and nothing else, ordered by id highest first,
      with the records that share an id in ledger order. */
  lemma RenderListSpec(s: seq<Transaction>, typeFilter: string, searchBoxValue: string)
    ensures var r := RenderList(s, typeFilter, searchBoxValue);
      SortedByIdDesc(r) &&
      (forall t :: multiset(r)[t] ==
        if Passes(t, typeFilter, ToLowerCase(searchBoxValue)) then multiset(s)[t] else 0) &&
      (forall t :: t in r <==> t in s && Passes(t, typeFilter, ToLowerCase(searchBoxValue)))
  {
    var p := PassesFilter(typeFilter, ToLowerCase(searchBoxValue));
    var r := RenderList(s, typeFilter, searchBoxValue);
    forall t
      ensures multiset(r)[t] == if p(t) then multiset(s)[t] else 0
      ensures t in r <==> t in s && p(t)
    {
      FilterCount(s, p, t);
      FilterMembership(s, p, t);
      assert t in r <==> t in multiset(r);
      assert t in Filter(s, p) <==> t in multiset(Filter(s, p));
    }
  }

  /** The records that share an id are listed in ledger order. */
  lemma RenderListStable(s: seq<Transaction>, typeFilter: string, searchBoxValue: string, id: int)
    ensures Filter(RenderList(s, typeFilter, searchBoxValue), HasId(id)) ==
      Filter(Filter(s, PassesFilter(typeFilter, ToLowerCase(searchBoxValue))), HasId(id))
  {
    SortKeepsOrderOfEqualIds(Filter(s, PassesFilter(typeFilter, ToLowerCase(searchBoxValue))), id);
  }

  /** Filtering and sorting the displayed list again displays it unchanged. */
  lemma RenderListIdempotent(s: seq<Transaction>, typeFilter: string, searchBoxValue: string)
    ensures RenderList(RenderList(s, typeFilter, searchBoxValue), typeFilter, searchBoxValue) ==
      RenderList(s, typeFilter, searchBoxValue)
  {
    var p := PassesFilter(typeFilter, ToLowerCase(searchBoxValue));
    var r := RenderList(s, typeFilter, searchBoxValue);
    forall i | 0 <= i < |r|
      ensures p(r[i])
    {
      assert r[i] in multiset(Filter(s, p));
      assert r[i] in Filter(s, p);
    }
    FilterAllPass(r, p);
    SortOfSorted(r);
  }

  /** Two matching records are listed newest first. */
  lemma TwoMatchesNewestFirst(a: Transaction, b: Transaction, typeFilter: string, searchBoxValue: string)
    requires a.id < b.id
    requires Passes(a, typeFilter, ToLowerCase(searchBoxValue))
    requires Passes(b, typeFilter, ToLowerCase(searchBoxValue))
    ensures RenderList([a, b], typeFilter, searchBoxValue) == [b, a]
  {
    var p := PassesFilter(typeFilter, ToLowerCase(searchBoxValue));
    assert p(a) && p(b);
    FilterAllPass([a, b], p);
    assert [a, b][1..] == [b];
    assert SortByIdDesc([b]) == [b];
    assert InsertById(a, [b]) == [b] + InsertById(a, []);
  }

  /** Searching "coffee" among "Coffee" (id 1) and "Coffee machine" (id 2)
      lists both, the later one first. */
  lemma CoffeeSearch()
    ensures var a := Transaction(1, "Coffee", -450, "dining", Expense, "");
      var b := Transaction(2, "Coffee machine", -8999, "shopping", Expense, "");
      RenderList([a, b], "all", "coffee") == [b, a]
  {
    var a := Transaction(1, "Coffee", -450, "dining", Expense, "");
    var b := Transaction(2, "Coffee machine", -8999, "shopping", Expense, "");
    var term := ToLowerCase("coffee");
    assert term == "coffee";
    assert StartsWith(ToLowerCase(a.description), term);
    assert ToLowerCase(b.description)[..6] == "coffee";
    assert StartsWith(ToLowerCase(b.description), term);
    TwoMatchesNewestFirst(a, b, "all", "coffee");
  }

  // ---------------------------------------------------------------------
  // Row icons: getCategoryIcon
  // ---------------------------------------------------------------------

  const DefaultIcon: string := "fa-circle"

  /** The icon table: five income categories, then ten expense categories. */
  const CategoryIcons: map<string, string> := map[
    "salary" := "fa-briefcase",
    "freelance" := "fa-laptop",
    "investment" := "fa-chart-line",
    "bonus" := "fa-gift",
    "other-income" := "fa-plus-circle",
    "groceries" := "fa-shopping-cart",
    "utilities" := "fa-lightbulb",
    "rent" := "fa-home",
    "entertainment" := "fa-film",
    "transportation" := "fa-car",
    "healthcare" := "fa-hospital",
    "dining" := "fa-utensils",
    "shopping" := "fa-shopping-bag",
    "education" := "fa-book",
    "other-expense" := "fa-minus-circle"
  ]

  /** `getCategoryIcon` as evidently intended: the table's own entry for a
      listed category, `fa-circle` for every other string. No listed entry
      is `fa-circle`, so the default tells an unlisted category apart. */
  function GetCategoryIcon(category: string): (icon: string)
    ensures category in CategoryIcons ==> icon == CategoryIcons[category]
    ensures icon == DefaultIcon <==> category !in CategoryIcons
  {
    if category in CategoryIcons then CategoryIcons[category] else DefaultIcon
  }

  /** The table has exactly the fifteen categories of the form. */
  lemma CategoryIconsListed()
    ensures CategoryIcons.Keys == {
      "salary", "freelance", "investment", "bonus", "other-income",
      "groceries", "utilities", "rent", "entertainment", "transportation",
      "healthcare", "dining", "shopping", "education", "other-expense"}
  {
  }

  /** The properties every JavaScript object literal inherits from
      Object.prototype; reading one of them from `icons` finds a function
      (or, for `__proto__`, the prototype object), never `undefined`. */
  const ObjectPrototypeMembers: set<string> := {
    "constructor", "hasOwnProperty", "isPrototypeOf", "propertyIsEnumerable",
    "toLocaleString", "toString", "valueOf", "__proto__",
    "__defineGetter__", "__defineSetter__", "__lookupGetter__", "__lookupSetter__"}

  /** What `icons[category] || 'fa-circle'` yields: an icon name, or the
      inherited member that the property read found. */
  datatype IconValue = IconName(name: string) | PrototypeMember(member: string)

  /** `getCategoryIcon` as written: `icons[category]` consults the prototype
      chain, and an inherited member is truthy, so `||` keeps it. It agrees
      with GetCategoryIcon on every category that is not such a member. */
  function GetCategoryIconAsWritten(category: string): (r: IconValue)
    ensures category !in ObjectPrototypeMembers ==> r == IconName(GetCategoryIcon(category))
    ensures category in ObjectPrototypeMembers ==> r != IconName(GetCategoryIcon(category))
  {
    if category in CategoryIcons then IconName(CategoryIcons[category])
    else if category in ObjectPrototypeMembers then PrototypeMember(category)
    else IconName(DefaultIcon)
  }

  /** The category "toString" is not in the table, yet the lookup as written
      returns the inherited `toString` function instead of `fa-circle`. */
  lemma InheritedMemberDefeatsDefault()
    ensures "toString" !in CategoryIcons
    ensures GetCategoryIconAsWritten("toString") == PrototypeMember("toString")
    ensures GetCategoryIcon("toString") == DefaultIcon
  {
  }
}
