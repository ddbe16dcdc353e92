/**
 * The recipe API's view sets (app/recipe/views.py). Tags and ingredients
 * share one owner-scoped view set: it lists the caller's rows ordered by
 * name, descending, and stamps the caller as owner of every row it
 * creates. The recipe view set scopes listing and retrieval to the
 * caller's recipes and picks the detail serializer for `retrieve` only.
 * The caller is always the authenticated user, passed explicitly.
 */
module RecipeViews {
  import opened Wrappers
  import opened Names

  /** The primary key of a user. */
  type UserId = nat

  /** A tag or an ingredient row: a name and the user owning it. */
  datatype Item = Item(id: nat, name: string, owner: UserId)

  /** A recipe row; `cost` is in hundredths (two decimal places), `tags` and `ingredients` hold row ids. */
  datatype Recipe = Recipe(
    id: nat,
    title: string,
    timeMinutes: int,
    cost: int,
    link: string,
    owner: UserId,
    tags: set<nat>,
    ingredients: set<nat>,
    image: Option<string>)

  /** The fields a client posts to create a recipe; the owner is never among them. */
  datatype RecipeDraft = RecipeDraft(
    title: string,
    timeMinutes: int,
    cost: int,
    link: string,
    tags: set<nat>,
    ingredients: set<nat>)

  /** Why a tag or ingredient was not created: blank name, or longer than the column allows. */
  datatype ItemError = NameBlank | NameTooLong

  /** The `max_length` of the name column of tags and ingredients. */
  const MaxNameLength: nat := 255

  function ItemOwner(x: Item): UserId { x.owner }

  function RecipeOwner(r: Recipe): UserId { r.owner }

  /**
   * `filter(user=caller)`: the rows owned by `caller`, in their stored
   * order, each as often as it is stored.
   */
  function OwnedBy<T(==,!new)>(rows: seq<T>, ownerOf: T -> UserId, caller: UserId): (r: seq<T>)
    ensures forall x :: x in r <==> x in rows && ownerOf(x) == caller
  {
    if rows == [] then []
    else
      var rest := OwnedBy(rows[1..], ownerOf, caller);
      assert rows == [rows[0]] + rows[1..];
      if ownerOf(rows[0]) == caller then [rows[0]] + rest else rest
  }

  /** The filter keeps every copy of a caller-owned row and drops every other row. */
  lemma {:induction false} OwnedByMultiplicity<T(!new)>(rows: seq<T>, ownerOf: T -> UserId, caller: UserId, x: T)
    ensures multiset(OwnedBy(rows, ownerOf, caller))[x] == if ownerOf(x) == caller then multiset(rows)[x] else 0
    decreases |rows|
  {
    if rows != [] {
      assert rows == [rows[0]] + rows[1..];
      OwnedByMultiplicity(rows[1..], ownerOf, caller, x);
    }
  }

  /** Filtering distributes over concatenation of stored rows. */
  lemma {:induction false} OwnedByConcat<T(!new)>(a: seq<T>, b: seq<T>, ownerOf: T -> UserId, caller: UserId)
    ensures OwnedBy(a + b, ownerOf, caller) == OwnedBy(a, ownerOf, caller) + OwnedBy(b, ownerOf, caller)
    decreases |a|
  {
    if a != [] {
      var head := if ownerOf(a[0]) == caller then [a[0]] else [];
      assert (a + b)[0] == a[0];
      assert (a + b)[1..] == a[1..] + b;
      assert OwnedBy(a + b, ownerOf, caller) == head + OwnedBy(a[1..] + b, ownerOf, caller);
      assert OwnedBy(a, ownerOf, caller) == head + OwnedBy(a[1..], ownerOf, caller);
      OwnedByConcat(a[1..], b, ownerOf, caller);
    } else {
      assert a + b == b;
    }
  }

  /** Rows that all belong to other users filter away entirely. */
  lemma {:induction false} OwnedByNone<T(!new)>(rows: seq<T>, ownerOf: T -> UserId, caller: UserId)
    requires forall i :: 0 <= i < |rows| ==> ownerOf(rows[i]) != caller
    ensures OwnedBy(rows, ownerOf, caller) == []
    decreases |rows|
  {
    if rows != [] { OwnedByNone(rows[1..], ownerOf, caller); }
  }

  /** `order_by('-name')` holds: every name is at or before its predecessor. */
  predicate SortedByNameDesc(s: seq<Item>)
  {
    forall i :: 0 < i < |s| ==> NameLe(s[i].name, s[i - 1].name)
  }

  /** Sorting descending by name is also pairwise, not just between neighbours. */
  lemma {:induction false} SortedByNameDescPairwise(s: seq<Item>, i: nat, j: nat)
    requires SortedByNameDesc(s)
    requires i <= j < |s|
    ensures NameLe(s[j].name, s[i].name)
    decreases j - i
  {
    if i == j {
      NameLeReflexive(s[i].name);
    } else {
      SortedByNameDescPairwise(s, i, j - 1);
      NameLeTransitive(s[j].name, s[j - 1].name, s[i].name);
    }
  }

  /** Places `x` into a descending list in front of the first name not above its own. */
  function InsertByNameDesc(x: Item, s: seq<Item>): (r: seq<Item>)
    requires SortedByNameDesc(s)
    ensures SortedByNameDesc(r)
    ensures multiset(r) == multiset(s) + multiset{x}
    ensures |r| == |s| + 1 && (r[0] == x || (|s| > 0 && r[0] == s[0]))
  {
    if s == [] then [x]
    else if NameLe(s[0].name, x.name) then [x] + s
    else
      NameLeTotal(s[0].name, x.name);
      var rest := InsertByNameDesc(x, s[1..]);
      assert s == [s[0]] + s[1..];
      [s[0]] + rest
  }

  /** The rows of `s` rearranged by name, descending. */
  function SortByNameDesc(s: seq<Item>): (r: seq<Item>)
    ensures SortedByNameDesc(r)
    ensures multiset(r) == multiset(s)
  {
    if s == [] then []
    else
      assert s == [s[0]] + s[1..];
      InsertByNameDesc(s[0], SortByNameDesc(s[1..]))
  }

  /**
   * `get_queryset` of the tag and ingredient view sets: the caller's rows
   * and nothing else, all of them, by name descending.
   */
  function ItemQueryset(items: seq<Item>, caller: UserId): (r: seq<Item>)
    ensures forall x :: x in r <==> x in items && x.owner == caller
    ensures multiset(r) == multiset(OwnedBy(items, ItemOwner, caller))
    ensures SortedByNameDesc(r)
  {
    var owned := OwnedBy(items, ItemOwner, caller);
    var r := SortByNameDesc(owned);
    SameMultisetSameMembers(r, owned);
    r
  }

  /** Sequences with the same multiset of elements have the same members. */
  lemma SameMultisetSameMembers<T>(a: seq<T>, b: seq<T>)
    requires multiset(a) == multiset(b)
    ensures forall x :: x in a <==> x in b
  {
    forall x ensures x in a <==> x in b {
      assert x in a <==> x in multiset(a);
      assert x in b <==> x in multiset(b);
    }
  }

  /** The listing holds each caller-owned row as often as it is stored, and no other row. */
  lemma ItemQuerysetMultiplicity(items: seq<Item>, caller: UserId, x: Item)
    ensures multiset(ItemQueryset(items, caller))[x] == if x.owner == caller then multiset(items)[x] else 0
  {
    OwnedByMultiplicity(items, ItemOwner, caller, x);
  }

  /**
   * Rows of other users, however they are named and wherever they are
   * stored, do not change what the caller sees.
   */
  lemma ItemQuerysetIgnoresOthers(pre: seq<Item>, others: seq<Item>, post: seq<Item>, caller: UserId)
    requires forall i :: 0 <= i < |others| ==> others[i].owner != caller
    ensures ItemQueryset(pre + others + post, caller) == ItemQueryset(pre + post, caller)
  {
    OwnedByConcat(pre + others, post, ItemOwner, caller);
    OwnedByConcat(pre, others, ItemOwner, caller);
    OwnedByConcat(pre, post, ItemOwner, caller);
    OwnedByNone(others, ItemOwner, caller);
    assert OwnedBy(pre, ItemOwner, caller) + [] == OwnedBy(pre, ItemOwner, caller);
  }

  /**
   * The tests' case: another user's row stored first, then the caller's
   * own; the caller sees only the own row.
   */
  lemma ItemQuerysetLimitedToUser(theirs: Item, mine: Item)
    requires theirs.owner != mine.owner
    ensures ItemQueryset([theirs, mine], mine.owner) == [mine]
  {
    ItemQuerysetIgnoresOthers([], [theirs], [mine], mine.owner);
    assert [] + [theirs] + [mine] == [theirs, mine];
    assert OwnedBy([mine], ItemOwner, mine.owner) == [mine];
    assert SortByNameDesc([mine]) == InsertByNameDesc(mine, []);
  }

  /** A row added for the caller appears in the caller's listing exactly once more. */
  lemma ItemQuerysetAfterAppend(items: seq<Item>, x: Item)
    ensures multiset(ItemQueryset(items + [x], x.owner)) == multiset(ItemQueryset(items, x.owner)) + multiset{x}
  {
    OwnedByConcat(items, [x], ItemOwner, x.owner);
    assert OwnedBy([x], ItemOwner, x.owner) == [x];
  }

  /** Ids increase along the stored rows and stay below the next one to hand out. */
  ghost predicate IdsIncreasing(ids: seq<nat>, nextId: nat)
  {
    (forall i :: 0 <= i < |ids| ==> ids[i] < nextId) &&
    (forall i, j :: 0 <= i < j < |ids| ==> ids[i] < ids[j])
  }

  function ItemIds(items: seq<Item>): seq<nat>
  {
    seq(|items|, i requires 0 <= i < |items| => items[i].id)
  }

  /** The validation a tag or ingredient name gets before anything is saved. */
  function ValidateName(name: string): (r: Option<ItemError>)
    ensures r == Some(NameBlank) <==> name == ""
    ensures r == Some(NameTooLong) <==> |name| > MaxNameLength
    ensures r == None <==> 0 < |name| <= MaxNameLength
  {
    if name == "" then Some(NameBlank)
    else if |name| > MaxNameLength then Some(NameTooLong)
    else None
  }

  /** The table behind one owner-scoped view set (all tags, or all ingredients). */
  class OwnedItemStore {
    var items: seq<Item>
    var nextId: nat

    ghost predicate Valid()
      reads this
    {
      IdsIncreasing(ItemIds(items), nextId)
    }

    constructor ()
      ensures Valid() && items == [] && nextId == 0
    {
      items := [];
      nextId := 0;
    }

    /** The `list` action: the caller's rows as `get_queryset` gives them. */
    method List(caller: UserId) returns (r: seq<Item>)
      ensures r == ItemQueryset(items, caller)
    {
      r := ItemQueryset(items, caller);
    }

    /**
     * The `create` action: a blank or over-long name is refused and nothing
     * is saved; otherwise one row with that name and owner `caller` is appended.
     */
    method Create(caller: UserId, name: string) returns (r: Result<Item, ItemError>)
      requires Valid()
      modifies this
      ensures Valid()
      ensures ValidateName(name).Some? ==> r == Failure(ValidateName(name).value)
      ensures ValidateName(name).None? ==> r == Success(Item(old(nextId), name, caller))
      ensures r.Failure? ==> items == old(items) && nextId == old(nextId)
      ensures r.Success? ==> items == old(items) + [r.value] && nextId == old(nextId) + 1
    {
      var invalid := ValidateName(name);
      if invalid.Some? {
        return Failure(invalid.value);
      }
      var item := Item(nextId, name, caller);
      assert ItemIds(items + [item]) == ItemIds(items) + [nextId];
      items := items + [item];
      nextId := nextId + 1;
      r := Success(item);
    }
  }

  /** `get_queryset` of the recipe view set: the caller's recipes, in stored order. */
  function RecipeQueryset(recipes: seq<Recipe>, caller: UserId): (r: seq<Recipe>)
    ensures forall x :: x in r <==> x in recipes && x.owner == caller
    ensures multiset(r) == multiset(OwnedBy(recipes, RecipeOwner, caller))
  {
    OwnedBy(recipes, RecipeOwner, caller)
  }

  /** A recipe created for one user joins that user's list, at its end, and no one else's. */
  lemma RecipeQuerysetAfterCreate(recipes: seq<Recipe>, r: Recipe, caller: UserId)
    ensures RecipeQueryset(recipes + [r], caller) ==
      RecipeQueryset(recipes, caller) + (if r.owner == caller then [r] else [])
  {
    OwnedByConcat(recipes, [r], RecipeOwner, caller);
    assert OwnedBy([r], RecipeOwner, caller) == if r.owner == caller then [r] else [];
  }

  /** The first recipe of `rs` with primary key `id`. */
  function FindById(rs: seq<Recipe>, id: nat): (r: Option<Recipe>)
    ensures r.Some? ==> r.value in rs && r.value.id == id
    ensures r.None? <==> forall x :: x in rs ==> x.id != id
  {
    if rs == [] then None
    else if rs[0].id == id then Some(rs[0])
    else
      assert rs == [rs[0]] + rs[1..];
      FindById(rs[1..], id)
  }

  /**
   * The `retrieve` action: the recipe is looked up in the caller's
   * queryset only, so a recipe of another user is not found.
   */
  function RetrieveRecipe(recipes: seq<Recipe>, caller: UserId, id: nat): (r: Option<Recipe>)
    ensures r.Some? ==> r.value in recipes && r.value.id == id && r.value.owner == caller
    ensures r.None? <==> !exists x :: x in recipes && x.id == id && x.owner == caller
  {
    FindById(RecipeQueryset(recipes, caller), id)
  }

  /** Recipe ids are unique. */
  ghost predicate UniqueRecipeIds(recipes: seq<Recipe>)
  {
    forall i, j :: 0 <= i < |recipes| && 0 <= j < |recipes| && recipes[i].id == recipes[j].id ==> i == j
  }

  /**
   * Asking for another user's recipe answers exactly as asking for an id
   * that does not exist: not found.
   */
  lemma RetrieveOthersRecipeNotFound(recipes: seq<Recipe>, caller: UserId, i: nat)
    requires UniqueRecipeIds(recipes)
    requires i < |recipes| && recipes[i].owner != caller
    ensures RetrieveRecipe(recipes, caller, recipes[i].id) == None
  {
    forall x | x in recipes && x.id == recipes[i].id ensures x.owner != caller {
      var j :| 0 <= j < |recipes| && recipes[j] == x;
      assert j == i;
    }
  }

  /** A freshly created recipe reads back in full, tags and ingredients included, for its owner. */
  lemma RetrieveCreatedRecipe(recipes: seq<Recipe>, r: Recipe)
    requires forall x :: x in recipes ==> x.id != r.id
    ensures RetrieveRecipe(recipes + [r], r.owner, r.id) == Some(r)
  {
    var found := RetrieveRecipe(recipes + [r], r.owner, r.id);
    assert r in recipes + [r];
    assert found.Some?;
    assert found.value in recipes + [r] && found.value.id == r.id;
    assert found.value !in recipes;
  }

  /** The serializer classes the recipe view set chooses from. */
  datatype SerializerClass = RecipeSerializer | RecipeDetailSerializer

  /** `get_serializer_class`: the detail serializer for `retrieve`, the plain one for every other action. */
  function GetSerializerClass(action: string): (s: SerializerClass)
    ensures s == RecipeDetailSerializer <==> action == "retrieve"
    ensures s == RecipeSerializer <==> action != "retrieve"
  {
    if action == "retrieve" then RecipeDetailSerializer else RecipeSerializer
  }

  function RecipeIds(recipes: seq<Recipe>): seq<nat>
  {
    seq(|recipes|, i requires 0 <= i < |recipes| => recipes[i].id)
  }

  /** The recipes table behind the recipe view set. */
  class RecipeStore {
    var recipes: seq<Recipe>
    var nextId: nat

    ghost predicate Valid()
      reads this
    {
      IdsIncreasing(RecipeIds(recipes), nextId)
    }

    constructor ()
      ensures Valid() && recipes == [] && nextId == 0
    {
      recipes := [];
      nextId := 0;
    }

    /** Increasing ids are unique ids. */
    lemma ValidIdsUnique()
      requires Valid()
      ensures UniqueRecipeIds(recipes)
    {
      forall i, j | 0 <= i < |recipes| && 0 <= j < |recipes| && recipes[i].id == recipes[j].id
        ensures i == j
      {
        assert RecipeIds(recipes)[i] == recipes[i].id && RecipeIds(recipes)[j] == recipes[j].id;
      }
    }

    /** The `list` action. */
    method List(caller: UserId) returns (r: seq<Recipe>)
      ensures r == RecipeQueryset(recipes, caller)
    {
      r := RecipeQueryset(recipes, caller);
    }

    /**
     * The `retrieve` action; `None` is the not-found answer, which is also
     * what a recipe of another user gives.
     */
    method Retrieve(caller: UserId, id: nat) returns (r: Option<Recipe>)
      requires Valid()
      ensures r == RetrieveRecipe(recipes, caller, id)
      ensures forall i :: 0 <= i < |recipes| && recipes[i].id == id && recipes[i].owner != caller ==> r == None
    {
      r := RetrieveRecipe(recipes, caller, id);
      ValidIdsUnique();
      forall i | 0 <= i < |recipes| && recipes[i].id == id && recipes[i].owner != caller
        ensures r == None
      {
        RetrieveOthersRecipeNotFound(recipes, caller, i);
      }
    }

    /** `perform_create`: the posted fields are saved with the caller as owner and no image yet. */
    method Create(caller: UserId, draft: RecipeDraft) returns (r: Recipe)
      requires Valid()
      modifies this
      ensures Valid()
      ensures r == Recipe(old(nextId), draft.title, draft.timeMinutes, draft.cost, draft.link,
                          caller, draft.tags, draft.ingredients, None)
      ensures recipes == old(recipes) + [r] && nextId == old(nextId) + 1
    {
      r := Recipe(nextId, draft.title, draft.timeMinutes, draft.cost, draft.link,
                  caller, draft.tags, draft.ingredients, None);
      assert RecipeIds(recipes + [r]) == RecipeIds(recipes) + [nextId];
      recipes := recipes + [r];
      nextId := nextId + 1;
    }
  }
}
