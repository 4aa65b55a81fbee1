/** The category handlers: list, create, update and delete the caller's categories. */
module CategoryHandlers {
  import opened Outcomes
  import opened Schema
  import opened Store
  import opened Tables

  function CategoryKey(c: Category): int {
    c.id
  }

  lemma CategoryKeysUnique(cs: seq<Category>)
    ensures CategoryIdsUnique(cs) <==> KeysUnique(cs, CategoryKey)
  {
  }

  /** The condition `user_id = owner`. */
  function OwnedBy(owner: UserId): Category -> bool {
    (c: Category) => c.owner == owner
  }

  /** The rows a `DELETE ... WHERE id = id AND user_id = owner` leaves in place. */
  function Survives(owner: UserId, id: CategoryId): Category -> bool {
    (c: Category) => !(c.id == id && c.owner == owner)
  }

  /** `getCategories`: the caller's categories, in table order. */
  function GetCategories(l: Ledger, owner: UserId): (r: seq<Category>)
    ensures forall c :: c in r <==> c in l.categories && c.owner == owner
    ensures multiset(r) <= multiset(l.categories)
  {
    Filter(l.categories, OwnedBy(owner))
  }

  /** `createCategory`: inserts a row with the next id; the database rejects an
      owner that is not a user. */
  function CreateCategory(l: Ledger, owner: UserId, input: CreateCategoryInput, now: Timestamp): (r: Result<(Ledger, Category)>)
    requires ValidCreateCategoryInput(input)
    ensures r.Failure? <==> owner !in l.users
    ensures r.Failure? ==> r.error == UserForeignKeyViolation
    ensures r.Success? ==>
      var (l', c) := r.value;
      && c.id == l.nextCategoryId && c.owner == owner && c.name == input.name && c.kind == input.kind
      && c.color == NullIfEmpty(input.color) && c.createdAt == now
      && l'.categories == l.categories + [c]
      && l'.nextCategoryId == l.nextCategoryId + 1
      && l'.users == l.users && l'.transactions == l.transactions && l'.nextTransactionId == l.nextTransactionId
  {
    if owner !in l.users then Failure(UserForeignKeyViolation)
    else
      var c := Category(l.nextCategoryId, owner, input.name, input.kind, NullIfEmpty(input.color), now);
      Success((l.(categories := l.categories + [c], nextCategoryId := l.nextCategoryId + 1), c))
  }

  /** A created category has an id no stored category has, and the store stays valid. */
  lemma CreateCategoryPreservesValid(l: Ledger, owner: UserId, input: CreateCategoryInput, now: Timestamp)
    requires Valid(l) && ValidCreateCategoryInput(input)
    requires CreateCategory(l, owner, input, now).Success?
    ensures var (l', c) := CreateCategory(l, owner, input, now).value;
            Valid(l') && !HasCategory(l.categories, c.id)
  {
    var (l', c) := CreateCategory(l, owner, input, now).value;
    forall t | t in l'.transactions
      ensures HasCategory(l'.categories, t.categoryId)
    {
      var e :| e in l.categories && e.id == t.categoryId;
      assert e in l'.categories;
    }
  }

  /** The store after `createCategory`, whatever its outcome.  The id comes from a
      database sequence, and a rejected insert does not give its id back: every call
      uses up `l.nextCategoryId`, and the categories change exactly when it succeeds. */
  function StoreAfterCreateCategory(l: Ledger, owner: UserId, input: CreateCategoryInput, now: Timestamp): (l': Ledger)
    requires ValidCreateCategoryInput(input)
    ensures l'.nextCategoryId == l.nextCategoryId + 1
    ensures l'.users == l.users && l'.transactions == l.transactions && l'.nextTransactionId == l.nextTransactionId
    ensures l'.categories == l.categories <==> CreateCategory(l, owner, input, now).Failure?
  {
    match CreateCategory(l, owner, input, now)
    case Success((stored, _)) => stored
    case Failure(_) => l.(nextCategoryId := l.nextCategoryId + 1)
  }

  /** The store stays valid whatever `createCategory` does. */
  lemma StoreAfterCreateCategoryValid(l: Ledger, owner: UserId, input: CreateCategoryInput, now: Timestamp)
    requires Valid(l) && ValidCreateCategoryInput(input)
    ensures Valid(StoreAfterCreateCategory(l, owner, input, now))
  {
    if CreateCategory(l, owner, input, now).Success? {
      CreateCategoryPreservesValid(l, owner, input, now);
    }
  }

  /** After a rejected create, the next successful one skips the id the rejected
      insert used up. */
  lemma FailedCreateSkipsAnId(l: Ledger, owner: UserId, input: CreateCategoryInput, now: Timestamp,
                              other: UserId, next: CreateCategoryInput, later: Timestamp)
    requires ValidCreateCategoryInput(input) && ValidCreateCategoryInput(next)
    requires CreateCategory(l, owner, input, now).Failure? && other in l.users
    ensures var r := CreateCategory(StoreAfterCreateCategory(l, owner, input, now), other, next, later);
            r.Success? && r.value.1.id == l.nextCategoryId + 1
  {
  }

  /** The new category is listed for its owner, and every other user's list is as before. */
  lemma CreatedCategoryIsListed(l: Ledger, owner: UserId, input: CreateCategoryInput, now: Timestamp, other: UserId)
    requires ValidCreateCategoryInput(input)
    requires CreateCategory(l, owner, input, now).Success?
    ensures var (l', c) := CreateCategory(l, owner, input, now).value;
            GetCategories(l', owner) == GetCategories(l, owner) + [c]
            && (other != owner ==> GetCategories(l', other) == GetCategories(l, other))
  {
    var (l', c) := CreateCategory(l, owner, input, now).value;
    FilterSnoc(l.categories, c, OwnedBy(owner));
    FilterSnoc(l.categories, c, OwnedBy(other));
  }

  /** A category with the update's patch applied: name and color change when given,
      id, owner, kind and creation time never do. */
  function Patched(c: Category, input: UpdateCategoryInput): (r: Category)
    ensures r.id == c.id && r.owner == c.owner && r.kind == c.kind && r.createdAt == c.createdAt
    ensures r.name == (if input.name.Set? then input.name.value else c.name)
    ensures r.color == (if input.color.Set? then input.color.value else c.color)
  {
    var named := match input.name
      case Set(n) => c.(name := n)
      case Keep => c;
    match input.color
    case Set(col) => named.(color := col)
    case Keep => named
  }

  /** Whether `c` is the row `id = input.id AND user_id = owner` picks. */
  predicate Targets(c: Category, owner: UserId, input: UpdateCategoryInput) {
    c.id == input.id && c.owner == owner
  }

  /** `updateCategory`: patches the caller's category with that id; with no such
      category it fails and nothing changes. */
  function UpdateCategory(l: Ledger, owner: UserId, input: UpdateCategoryInput): (r: Result<(Ledger, Category)>)
    requires ValidUpdateCategoryInput(input)
    ensures r.Failure? <==> !exists c :: c in l.categories && Targets(c, owner, input)
    ensures r.Failure? ==> r.error == CategoryNotFoundOrAccessDenied
    ensures r.Success? ==>
      var (l', c) := r.value;
      && c in l'.categories && Targets(c, owner, input)
      && |l'.categories| == |l.categories|
      && (forall i :: 0 <= i < |l.categories| && !Targets(l.categories[i], owner, input) ==>
            l'.categories[i] == l.categories[i])
      && (forall i :: 0 <= i < |l.categories| && Targets(l.categories[i], owner, input) ==>
            l'.categories[i] == Patched(l.categories[i], input))
      && l'.users == l.users && l'.transactions == l.transactions
      && l'.nextCategoryId == l.nextCategoryId && l'.nextTransactionId == l.nextTransactionId
  {
    match OwnedCategory(l.categories, owner, input.id)
    case None => Failure(CategoryNotFoundOrAccessDenied)
    case Some(found) =>
      var cs := seq(|l.categories|, i requires 0 <= i < |l.categories| =>
        if Targets(l.categories[i], owner, input) then Patched(l.categories[i], input) else l.categories[i]);
      var k :| 0 <= k < |l.categories| && l.categories[k] == found;
      assert cs[k] == Patched(found, input);
      Success((l.(categories := cs), Patched(found, input)))
  }

  /** An update keeps the store valid: ids, owners and kinds are untouched. */
  lemma UpdateCategoryPreservesValid(l: Ledger, owner: UserId, input: UpdateCategoryInput)
    requires Valid(l) && ValidUpdateCategoryInput(input)
    requires UpdateCategory(l, owner, input).Success?
    ensures Valid(UpdateCategory(l, owner, input).value.0)
  {
    var l' := UpdateCategory(l, owner, input).value.0;
    forall c | c in l'.categories
      ensures c.id < l'.nextCategoryId && c.owner in l'.users
    {
      var i :| 0 <= i < |l'.categories| && l'.categories[i] == c;
      assert l.categories[i] in l.categories;
    }
    forall t | t in l'.transactions
      ensures HasCategory(l'.categories, t.categoryId)
    {
      var e :| e in l.categories && e.id == t.categoryId;
      var i :| 0 <= i < |l.categories| && l.categories[i] == e;
      assert l'.categories[i] in l'.categories;
    }
  }

  lemma PatchedIdempotent(c: Category, input: UpdateCategoryInput)
    ensures Patched(Patched(c, input), input) == Patched(c, input)
  {
  }

  /** Patching the targeted rows of an already patched table changes nothing. */
  lemma PatchTableTwice(cs: seq<Category>, cs': seq<Category>, cs'': seq<Category>, owner: UserId, input: UpdateCategoryInput)
    requires |cs'| == |cs| && |cs''| == |cs|
    requires forall i :: 0 <= i < |cs| ==> cs'[i] == (if Targets(cs[i], owner, input) then Patched(cs[i], input) else cs[i])
    requires forall i :: 0 <= i < |cs| ==> cs''[i] == (if Targets(cs'[i], owner, input) then Patched(cs'[i], input) else cs'[i])
    ensures cs'' == cs'
  {
    forall i | 0 <= i < |cs|
      ensures cs''[i] == cs'[i]
    {
      if Targets(cs[i], owner, input) {
        PatchedIdempotent(cs[i], input);
      }
    }
  }

  /** Sending the same update twice leaves the store as the first one left it and
      returns the same category. */
  lemma UpdateCategoryIdempotent(l: Ledger, owner: UserId, input: UpdateCategoryInput)
    requires CategoryIdsUnique(l.categories) && ValidUpdateCategoryInput(input)
    requires UpdateCategory(l, owner, input).Success?
    ensures var (l', c) := UpdateCategory(l, owner, input).value;
            UpdateCategory(l', owner, input) == Success((l', c))
  {
    var (l', c) := UpdateCategory(l, owner, input).value;
    var cs, cs' := l.categories, l'.categories;
    var found := OwnedCategory(cs, owner, input.id).value;
    var j :| 0 <= j < |cs| && cs[j] == found;
    var o2 := OwnedCategory(cs', owner, input.id).value;
    var k :| 0 <= k < |cs'| && cs'[k] == o2;
    assert Targets(cs[k], owner, input);
    assert k == j;
    PatchedIdempotent(found, input);
    var cs'' := UpdateCategory(l', owner, input).value.0.categories;
    PatchTableTwice(cs, cs', cs'', owner, input);
  }

  /** Whether some transaction still points at the category `id`; the check looks at
      `category_id` alone, whoever owns the transaction. */
  predicate Referenced(ts: seq<Transaction>, id: CategoryId) {
    exists t :: t in ts && t.categoryId == id
  }

  /** `deleteCategory`: the caller's category with that id goes, provided no
      transaction refers to it.  A missing category is reported before a referenced one. */
  function DeleteCategory(l: Ledger, owner: UserId, id: CategoryId): (r: Result<Ledger>)
    ensures r.Success? <==> OwnedCategory(l.categories, owner, id).Some? && !Referenced(l.transactions, id)
    ensures OwnedCategory(l.categories, owner, id).None? ==> r == Failure(CategoryNotFoundOrAccessDenied)
    ensures OwnedCategory(l.categories, owner, id).Some? && Referenced(l.transactions, id) ==>
            r == Failure(CategoryHasTransactions)
    ensures r.Success? ==>
      && (forall c :: c in r.value.categories <==> c in l.categories && !(c.id == id && c.owner == owner))
      && r.value.users == l.users && r.value.transactions == l.transactions
      && r.value.nextCategoryId == l.nextCategoryId && r.value.nextTransactionId == l.nextTransactionId
  {
    if OwnedCategory(l.categories, owner, id).None? then Failure(CategoryNotFoundOrAccessDenied)
    else if Referenced(l.transactions, id) then Failure(CategoryHasTransactions)
    else Success(l.(categories := Filter(l.categories, Survives(owner, id))))
  }

  /** A deletion keeps the store valid: no transaction is left without its category,
      and exactly one category row is gone. */
  lemma DeleteCategoryPreservesValid(l: Ledger, owner: UserId, id: CategoryId)
    requires Valid(l)
    requires DeleteCategory(l, owner, id).Success?
    ensures Valid(DeleteCategory(l, owner, id).value)
    ensures var gone := OwnedCategory(l.categories, owner, id).value;
            multiset(DeleteCategory(l, owner, id).value.categories) == multiset(l.categories) - multiset{gone}
  {
    var l' := DeleteCategory(l, owner, id).value;
    var keep := Survives(owner, id);
    var gone := OwnedCategory(l.categories, owner, id).value;
    CategoryKeysUnique(l.categories);
    FilterKeysUnique(l.categories, keep, CategoryKey);
    CategoryKeysUnique(l'.categories);
    forall t | t in l'.transactions
      ensures HasCategory(l'.categories, t.categoryId)
    {
      var e :| e in l.categories && e.id == t.categoryId;
      assert e in l'.categories;
    }
    FilterRemovesOne(l.categories, gone, keep, CategoryKey);
  }

  /** Deleting the same category again reports it as not found. */
  lemma DeleteCategoryTwice(l: Ledger, owner: UserId, id: CategoryId)
    requires DeleteCategory(l, owner, id).Success?
    ensures DeleteCategory(DeleteCategory(l, owner, id).value, owner, id) == Failure(CategoryNotFoundOrAccessDenied)
  {
  }

  /** A category with a transaction pointing at it cannot be deleted by anyone. */
  lemma ReferencedCategoryStays(l: Ledger, owner: UserId, t: Transaction)
    requires t in l.transactions
    ensures DeleteCategory(l, owner, t.categoryId).Failure?
  {
  }
}
