/** The transaction handlers: list, create and delete the caller's transactions. */
module TransactionHandlers {
  import opened Outcomes
  import opened Dates
  import opened Schema
  import opened Store
  import opened Tables
  import opened Query
  import opened Ranking
  import MonthlySummaryHandler

  function TransactionKey(t: Transaction): int {
    t.id
  }

  lemma TransactionKeysUnique(ts: seq<Transaction>)
    ensures TransactionIdsUnique(ts) <==> KeysUnique(ts, TransactionKey)
  {
  }

  /** The order of the listing: by transaction date. */
  function DayOf(t: Transaction): int {
    DayKey(t.date)
  }

  /** The listing's `WHERE`: owned by `owner`, dated in `w`. */
  function Listed(owner: UserId, w: Window): Transaction -> bool {
    (t: Transaction) => t.owner == owner && InWindow(w, t.date)
  }

  /** The window of the optional filter: both days included; no filter, no date
      condition.  A filter day fails as `BindDays` says. */
  function ListingWindow(filter: Option<DateRangeFilter>): (r: Result<Window>)
    ensures filter.None? ==> r == Success(Everything)
    ensures filter.Some? ==> (r.Success? <==> BindDays(filter.value.startDate, filter.value.endDate).Success?)
    ensures filter.Some? && (ParseDate(filter.value.startDate).None? || ParseDate(filter.value.endDate).None?) ==>
            r == Failure(InvalidTimeValue)
    ensures filter.Some? && ParseDate(filter.value.startDate).Some? && ParseDate(filter.value.endDate).Some? && r.Failure? ==>
            r == Failure(DateOutOfRange)
    ensures r.Success? && filter.Some? ==>
            && StorableDay(ParseDate(filter.value.startDate).value) && StorableDay(ParseDate(filter.value.endDate).value)
            && r.value == Closed(ParseDate(filter.value.startDate).value, ParseDate(filter.value.endDate).value)
  {
    match filter
    case None => Success(Everything)
    case Some(f) =>
      var (lo, hi) :- BindDays(f.startDate, f.endDate);
      Success(Closed(lo, hi))
  }

  /** `getTransactions`: the caller's transactions, optionally only those dated within
      the filter's days, newest day first. */
  function GetTransactions(l: Ledger, owner: UserId, filter: Option<DateRangeFilter>): (r: Result<seq<Transaction>>)
    ensures r.Failure? <==> ListingWindow(filter).Failure?
    ensures r.Failure? ==> r.error == ListingWindow(filter).error
    ensures r.Success? ==>
      forall t :: t in r.value <==> t in l.transactions && t.owner == owner && InWindow(ListingWindow(filter).value, t.date)
    ensures r.Success? ==> multiset(r.value) == multiset(Filter(l.transactions, Listed(owner, ListingWindow(filter).value)))
    ensures r.Success? ==> SortedDesc(r.value, DayOf)
  {
    var w :- ListingWindow(filter);
    var kept := Filter(l.transactions, Listed(owner, w));
    var sorted := SortDesc(kept, DayOf);
    SubMultisetMembers(sorted, kept);
    SubMultisetMembers(kept, sorted);
    Success(sorted)
  }

  /** Over real calendar days the listing runs from the latest day to the earliest. */
  lemma TransactionsNewestFirst(l: Ledger, owner: UserId, filter: Option<DateRangeFilter>)
    requires DatesValid(l.transactions)
    requires GetTransactions(l, owner, filter).Success?
    ensures var ts := GetTransactions(l, owner, filter).value;
            forall i, j :: 0 <= i < j < |ts| ==> NotAfter(ts[j].date, ts[i].date)
  {
    var ts := GetTransactions(l, owner, filter).value;
    forall i, j | 0 <= i < j < |ts|
      ensures NotAfter(ts[j].date, ts[i].date)
    {
      assert ts[i] in ts && ts[j] in ts;
      DayKeyOrder(ts[j].date, ts[i].date);
    }
  }

  /** Without a filter every transaction of the caller is listed, once each. */
  lemma UnfilteredListsAll(l: Ledger, owner: UserId)
    ensures GetTransactions(l, owner, None).Success?
    ensures forall t :: t in GetTransactions(l, owner, None).value <==> t in l.transactions && t.owner == owner
  {
  }

  /** `createTransaction`: the category must be the caller's, then the day must read
      as `YYYY-MM-DD`.  The insert then fails when the database cannot hold the day,
      which it finds while binding the parameters, before the row is formed.  It
      fails next when the amount overflows its `numeric(15,2)` column, which the
      database checks before the foreign key to the user.  The row gets the next id
      and the current time. */
  function CreateTransaction(l: Ledger, owner: UserId, input: CreateTransactionInput, now: Timestamp): (r: Result<(Ledger, Transaction)>)
    requires ValidCreateTransactionInput(input)
    ensures OwnedCategory(l.categories, owner, input.categoryId).None? ==> r == Failure(CategoryNotOwned)
    ensures OwnedCategory(l.categories, owner, input.categoryId).Some? && ParseDate(input.transactionDate).None? ==>
            r == Failure(InvalidTransactionDate)
    ensures (OwnedCategory(l.categories, owner, input.categoryId).Some? && ParseDate(input.transactionDate).Some?
             && !StorableDay(ParseDate(input.transactionDate).value)) ==> r == Failure(DateOutOfRange)
    ensures (OwnedCategory(l.categories, owner, input.categoryId).Some? && ParseDate(input.transactionDate).Some?
             && StorableDay(ParseDate(input.transactionDate).value) && input.amount >= AmountLimit) ==>
            r == Failure(NumericFieldOverflow)
    ensures r.Success? <==>
            OwnedCategory(l.categories, owner, input.categoryId).Some? && ParseDate(input.transactionDate).Some?
            && StorableDay(ParseDate(input.transactionDate).value) && input.amount < AmountLimit && owner in l.users
    ensures r.Success? ==>
      var (l', t) := r.value;
      && t.id == l.nextTransactionId && t.owner == owner && t.categoryId == input.categoryId
      && t.amount == input.amount && t.description == NullIfEmpty(input.description)
      && ValidDate(t.date) && StorableDay(t.date) && FourDigitYear(t.date.year) && FormatDate(t.date) == input.transactionDate
      && t.createdAt == now && t.updatedAt == now
      && l'.transactions == l.transactions + [t]
      && l'.nextTransactionId == l.nextTransactionId + 1
      && l'.users == l.users && l'.categories == l.categories && l'.nextCategoryId == l.nextCategoryId
  {
    if OwnedCategory(l.categories, owner, input.categoryId).None? then Failure(CategoryNotOwned)
    else
      match ParseDate(input.transactionDate)
      case None => Failure(InvalidTransactionDate)
      case Some(day) =>
        if !StorableDay(day) then Failure(DateOutOfRange)
        else if input.amount >= AmountLimit then Failure(NumericFieldOverflow)
        else if owner !in l.users then Failure(UserForeignKeyViolation)
        else
          FormatParseRoundTrip(input.transactionDate);
          var t := Transaction(l.nextTransactionId, owner, input.categoryId, input.amount,
                               NullIfEmpty(input.description), day, now, now);
          Success((l.(transactions := l.transactions + [t], nextTransactionId := l.nextTransactionId + 1), t))
  }

  /** A created transaction keeps the store valid. */
  lemma CreateTransactionPreservesValid(l: Ledger, owner: UserId, input: CreateTransactionInput, now: Timestamp)
    requires Valid(l) && ValidCreateTransactionInput(input)
    requires CreateTransaction(l, owner, input, now).Success?
    ensures Valid(CreateTransaction(l, owner, input, now).value.0)
  {
  }

  /** The store after `createTransaction`, whatever its outcome.  The checks before
      the insert, and a day the database refuses to bind, leave it as it was.  Once
      the row is being formed, the insert draws an id from the database sequence,
      and the sequence does not give it back when the database then rejects the row. */
  function StoreAfterCreateTransaction(l: Ledger, owner: UserId, input: CreateTransactionInput, now: Timestamp): (l': Ledger)
    requires ValidCreateTransactionInput(input)
    ensures l'.users == l.users && l'.categories == l.categories && l'.nextCategoryId == l.nextCategoryId
    ensures l'.nextTransactionId == l.nextTransactionId +
            (if && OwnedCategory(l.categories, owner, input.categoryId).Some?
                && ParseDate(input.transactionDate).Some? && StorableDay(ParseDate(input.transactionDate).value)
             then 1 else 0)
    ensures l'.transactions == l.transactions <==> CreateTransaction(l, owner, input, now).Failure?
  {
    match CreateTransaction(l, owner, input, now)
    case Success((stored, _)) => stored
    case Failure(e) =>
      if e == NumericFieldOverflow || e == UserForeignKeyViolation then l.(nextTransactionId := l.nextTransactionId + 1)
      else l
  }

  /** The store stays valid whatever `createTransaction` does. */
  lemma StoreAfterCreateTransactionValid(l: Ledger, owner: UserId, input: CreateTransactionInput, now: Timestamp)
    requires Valid(l) && ValidCreateTransactionInput(input)
    ensures Valid(StoreAfterCreateTransaction(l, owner, input, now))
  {
    if CreateTransaction(l, owner, input, now).Success? {
      CreateTransactionPreservesValid(l, owner, input, now);
    }
  }

  lemma KindTotalSnoc(rows: seq<Row>, r: Row, k: Kind)
    ensures KindTotal(rows + [r], k) == KindTotal(rows, k) + Contribution(r, k)
  {
    assert (rows + [r])[..|rows|] == rows;
  }

  /** A new transaction shows up in the summary of every filter that reads its month,
      adding its amount to the total of its category's kind, and changes no other
      summary.  A filter reads the month `SummaryMonth(f)`, never one of the years 0
      to 99, so a transaction dated in those years changes no summary at all. */
  lemma CreatedTransactionCountsInItsMonth(l: Ledger, owner: UserId, input: CreateTransactionInput, now: Timestamp, f: MonthlyFilter)
    requires Valid(l) && ValidCreateTransactionInput(input) && ValidMonthlyFilter(f)
    requires CreateTransaction(l, owner, input, now).Success?
    ensures var r := CreateTransaction(l, owner, input, now).value;
            var kind := OwnedCategory(l.categories, owner, input.categoryId).value.kind;
            var before := MonthlySummaryHandler.GetMonthlySummary(l, owner, f);
            var after := MonthlySummaryHandler.GetMonthlySummary(r.0, owner, f);
            && (if MonthOf(r.1.date) == MonthlySummaryHandler.SummaryMonth(f) then
                  && after.totalIncome == before.totalIncome + (if kind == Income then r.1.amount else 0)
                  && after.totalExpense == before.totalExpense + (if kind == Expense then r.1.amount else 0)
                else after == before)
            && (0 <= r.1.date.year <= 99 ==> after == before)
  {
    var r := CreateTransaction(l, owner, input, now).value;
    var t := r.1;
    var c := OwnedCategory(l.categories, owner, input.categoryId).value;
    var ym := MonthlySummaryHandler.SummaryMonth(f);
    var w := MonthlySummaryHandler.MonthWindow(f);
    var rows := Rows(l, owner, w);
    CategoryByIdUnique(l.categories, c);
    SelectSnoc(l.transactions, t, l.categories, owner, w);
    HalfOpenMonthWindow(t.date, ym);
    assert MonthlySummaryHandler.GetMonthlySummary(l, owner, f) == Summarize(YearMonth(f.year, f.month), rows);
    if MonthOf(t.date) == ym {
      assert Rows(r.0, owner, w) == rows + [Row(t, c)];
      KindTotalSnoc(rows, Row(t, c), Income);
      KindTotalSnoc(rows, Row(t, c), Expense);
      assert MonthlySummaryHandler.GetMonthlySummary(r.0, owner, f) == Summarize(YearMonth(f.year, f.month), rows + [Row(t, c)]);
    } else {
      assert Rows(r.0, owner, w) == rows;
    }
  }

  /** The condition `id = id AND user_id = owner` of the delete. */
  function Targeted(owner: UserId, id: TransactionId): Transaction -> bool {
    (t: Transaction) => t.id == id && t.owner == owner
  }

  function Untargeted(owner: UserId, id: TransactionId): Transaction -> bool {
    (t: Transaction) => !(t.id == id && t.owner == owner)
  }

  /** `deleteTransaction`: removes the caller's transaction with that id and reports
      whether a row was removed; another user's transaction is left alone. */
  function DeleteTransaction(l: Ledger, owner: UserId, id: TransactionId): (r: (Ledger, bool))
    ensures r.1 <==> exists t :: t in l.transactions && t.id == id && t.owner == owner
    ensures forall t :: t in r.0.transactions <==> t in l.transactions && !(t.id == id && t.owner == owner)
    ensures !r.1 ==> r.0 == l
    ensures r.0.users == l.users && r.0.categories == l.categories
    ensures r.0.nextCategoryId == l.nextCategoryId && r.0.nextTransactionId == l.nextTransactionId
  {
    var removed := Filter(l.transactions, Targeted(owner, id));
    var kept := Filter(l.transactions, Untargeted(owner, id));
    if |removed| == 0 then
      FilterAll(l.transactions, Untargeted(owner, id));
      (l.(transactions := kept), false)
    else
      assert removed[0] in removed;
      (l.(transactions := kept), true)
  }

  /** Keeping some of the transactions, without repeating an id, keeps the store valid. */
  lemma FewerTransactionsStayValid(l: Ledger, ts: seq<Transaction>)
    requires Valid(l) && TransactionIdsUnique(ts)
    requires forall t :: t in ts ==> t in l.transactions
    ensures Valid(l.(transactions := ts))
  {
  }

  /** A deletion keeps the store valid. */
  lemma DeleteTransactionPreservesValid(l: Ledger, owner: UserId, id: TransactionId)
    requires Valid(l)
    ensures Valid(DeleteTransaction(l, owner, id).0)
  {
    var kept := Filter(l.transactions, Untargeted(owner, id));
    TransactionKeysUnique(l.transactions);
    FilterKeysUnique(l.transactions, Untargeted(owner, id), TransactionKey);
    TransactionKeysUnique(kept);
    FewerTransactionsStayValid(l, kept);
    assert DeleteTransaction(l, owner, id).0 == l.(transactions := kept);
  }

  /** A successful deletion removes exactly the one row with that id. */
  lemma DeleteTransactionRemovesOne(l: Ledger, owner: UserId, id: TransactionId, gone: Transaction)
    requires TransactionIdsUnique(l.transactions)
    requires gone in l.transactions && gone.id == id && gone.owner == owner
    ensures multiset(DeleteTransaction(l, owner, id).0.transactions) == multiset(l.transactions) - multiset{gone}
    ensures |DeleteTransaction(l, owner, id).0.transactions| == |l.transactions| - 1
  {
    TransactionKeysUnique(l.transactions);
    FilterRemovesOne(l.transactions, gone, Untargeted(owner, id), TransactionKey);
    assert |multiset(l.transactions) - multiset{gone}| == |multiset(l.transactions)| - 1;
  }

  /** `0000-01-15` reads as a day, but the database has no year 0: creating a
      transaction dated so in a category the caller owns fails, and leaves both the
      table and its id sequence as they were. */
  lemma YearZeroDayIsRefused(l: Ledger, owner: UserId, input: CreateTransactionInput, now: Timestamp)
    requires ValidCreateTransactionInput(input) && OwnedCategory(l.categories, owner, input.categoryId).Some?
    requires input.transactionDate == "0000-01-15"
    ensures ParseDate(input.transactionDate) == Some(Date(0, 1, 15))
    ensures CreateTransaction(l, owner, input, now) == Failure(DateOutOfRange)
    ensures StoreAfterCreateTransaction(l, owner, input, now) == l
  {
    YearZeroDayReads();
  }

  /** Deleting the same transaction again removes nothing and reports failure. */
  lemma DeleteTransactionTwice(l: Ledger, owner: UserId, id: TransactionId)
    ensures var l' := DeleteTransaction(l, owner, id).0;
            DeleteTransaction(l', owner, id) == (l', false)
  {
  }
}
