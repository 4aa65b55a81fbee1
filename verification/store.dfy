/** The ledger: the users, categories and transactions tables, with the id
    sequences the database hands out. */
module Store {
  import opened Outcomes
  import opened Dates
  import opened Schema

  datatype Ledger = Ledger(
    users: set<UserId>,
    categories: seq<Category>,
    transactions: seq<Transaction>,
    nextCategoryId: CategoryId,
    nextTransactionId: TransactionId)

  predicate CategoryIdsUnique(cs: seq<Category>) {
    forall i, j :: 0 <= i < j < |cs| ==> cs[i].id != cs[j].id
  }

  predicate TransactionIdsUnique(ts: seq<Transaction>) {
    forall i, j :: 0 <= i < j < |ts| ==> ts[i].id != ts[j].id
  }

  predicate HasCategory(cs: seq<Category>, id: CategoryId) {
    exists c :: c in cs && c.id == id
  }

  /** Every stored amount is strictly positive: the sign lives in the category's kind. */
  predicate AmountsPositive(ts: seq<Transaction>) {
    forall t :: t in ts ==> t.amount > 0
  }

  /** Every stored amount fits the `numeric(15,2)` column. */
  predicate AmountsFit(ts: seq<Transaction>) {
    forall t :: t in ts ==> t.amount < AmountLimit
  }

  /** Every stored day is a real calendar day that the `date` column can hold. */
  predicate DatesValid(ts: seq<Transaction>) {
    forall t :: t in ts ==> ValidDate(t.date) && StorableDay(t.date)
  }

  /** The store's integrity constraints: primary keys, the id sequences, the
      foreign keys to users and categories, positive amounts that fit their column,
      and real calendar days. */
  predicate Valid(l: Ledger) {
    && CategoryIdsUnique(l.categories)
    && TransactionIdsUnique(l.transactions)
    && (forall c :: c in l.categories ==> c.id < l.nextCategoryId && c.owner in l.users)
    && (forall t :: t in l.transactions ==> t.id < l.nextTransactionId && t.owner in l.users)
    && (forall t :: t in l.transactions ==> HasCategory(l.categories, t.categoryId))
    && AmountsPositive(l.transactions)
    && AmountsFit(l.transactions)
    && DatesValid(l.transactions)
  }

  /** How an optional text is stored: `value || null`, so an empty text becomes null. */
  function NullIfEmpty(s: Option<string>): (r: Option<string>)
    ensures r.Some? <==> s.Some? && s.value != ""
    ensures r.Some? ==> r == s
  {
    match s
    case Some(v) => if v == "" then None else s
    case None => None
  }

  /** The row the join `transactions.category_id = categories.id` finds. */
  function CategoryById(cs: seq<Category>, id: CategoryId): (r: Option<Category>)
    ensures r.Some? <==> HasCategory(cs, id)
    ensures r.Some? ==> r.value in cs && r.value.id == id
  {
    if |cs| == 0 then None
    else if cs[0].id == id then Some(cs[0])
    else CategoryById(cs[1..], id)
  }

  /** The category with `id` if `owner` owns it: the `id = ? AND user_id = ?` lookup. */
  function OwnedCategory(cs: seq<Category>, owner: UserId, id: CategoryId): (r: Option<Category>)
    ensures r.Some? <==> exists c :: c in cs && c.id == id && c.owner == owner
    ensures r.Some? ==> r.value in cs && r.value.id == id && r.value.owner == owner
  {
    if |cs| == 0 then None
    else if cs[0].id == id && cs[0].owner == owner then Some(cs[0])
    else OwnedCategory(cs[1..], owner, id)
  }

  /** With unique ids the join finds the one category carrying that id. */
  lemma CategoryByIdUnique(cs: seq<Category>, c: Category)
    requires CategoryIdsUnique(cs) && c in cs
    ensures CategoryById(cs, c.id) == Some(c)
  {
    if cs[0] != c {
      assert c in cs[1..];
      CategoryByIdUnique(cs[1..], c);
    }
  }
}
