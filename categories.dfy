/** Categories: which ones a user sees, the one-level nesting rule of the
    serializer, the guarded delete and the `by_type` listing. */
module Categories {
  import opened Common
  import Aggregate

  /** `category_type`: 'ingreso' or 'gasto'. */
  datatype CategoryType = IncomeType | ExpenseType

  function TypeCode(t: CategoryType): string {
    match t
    case IncomeType => "ingreso"
    case ExpenseType => "gasto"
  }

  /** A `Category` row (name, colour and icon left out).  `user` is empty for the shared defaults. */
  datatype Category = Category(
    id: CategoryId,
    user: Option<UserId>,
    kind: CategoryType,
    parent: Option<CategoryId>,
    isDefault: bool)

  /** The categories table by primary key. */
  type Catalog = map<CategoryId, Category>

  /** `Q(user=user) | Q(is_default=True, user__isnull=True)`. */
  predicate Visible(c: Category, user: UserId) {
    c.user == Some(user) || (c.isDefault && c.user.None?)
  }

  /** `get_queryset`: the categories a user may see. */
  function VisibleTo(cats: seq<Category>, user: UserId): (r: seq<Category>)
    ensures forall c :: c in r <==> c in cats && (c.user == Some(user) || (c.isDefault && c.user.None?))
  {
    Aggregate.Filter(cats, (c: Category) => Visible(c, user))
  }

  /** Another user's category is never visible, and neither is a default one that has an owner. */
  lemma VisibleOnlyOwnOrShared(c: Category, user: UserId)
    ensures c.user.Some? && c.user != Some(user) ==> !Visible(c, user)
    ensures c.user.None? ==> (Visible(c, user) <==> c.isDefault)
  {
  }

  // ---------------------------------------------------------------------
  // Nesting

  /** `validate_parent` as written: a missing parent, or one that has no parent of
      its own, is accepted unchanged; a parent that is itself a subcategory is rejected.
      A key that names no category fails the related field's own lookup. */
  function ValidateParent(cats: Catalog, parent: Option<CategoryId>): (r: Validated<Option<CategoryId>>)
    ensures r.Accepted? ==> r.value == parent
    ensures r.Accepted? <==> parent.None? || (parent.value in cats && cats[parent.value].parent.None?)
  {
    match parent
    case None => Accepted(None)
    case Some(p) =>
      if p !in cats then Rejected("parent")
      else if cats[p].parent.Some? then Rejected("parent")
      else Accepted(parent)
  }

  /** Every subcategory's parent is a top-level category: at most two levels. */
  ghost predicate TwoLevels(cats: Catalog) {
    forall id :: id in cats && cats[id].parent.Some? ==>
      cats[id].parent.value in cats && cats[id].parent.value != id &&
      cats[cats[id].parent.value].parent.None?
  }

  predicate HasSubcategories(cats: Catalog, id: CategoryId) {
    exists k :: k in cats && cats[k].parent == Some(id)
  }

  /** The row stored when category `id` is saved with parent `p`. */
  function SetParent(cats: Catalog, id: CategoryId, p: Option<CategoryId>): Catalog
    requires id in cats
  {
    cats[id := cats[id].(parent := p)]
  }

  /** `create`: the new category belongs to the requesting user and is not a default
      (`is_default` is read-only for clients), so its owner sees it. */
  function NewCategory(id: CategoryId, kind: CategoryType, parent: Option<CategoryId>, user: UserId): (c: Category)
    ensures c.user == Some(user) && !c.isDefault && Visible(c, user)
    ensures c.id == id && c.kind == kind && c.parent == parent
  {
    Category(id, Some(user), kind, parent, false)
  }

  /** On create the rule is enough: a new category has no subcategories, so an
      accepted parent keeps the table at two levels. */
  lemma CreateKeepsTwoLevels(cats: Catalog, c: Category)
    requires TwoLevels(cats) && c.id !in cats
    requires ValidateParent(cats, c.parent).Accepted?
    ensures TwoLevels(cats[c.id := c])
  {
  }

  /** On update the rule is not enough: re-parenting a top-level category that has a
      subcategory is accepted and makes three levels. */
  lemma ReparentMakesThreeLevels()
    ensures var cats := map[1 := Category(1, Some(7), ExpenseType, None, false),
                             2 := Category(2, Some(7), ExpenseType, Some(1), false),
                             3 := Category(3, Some(7), ExpenseType, None, false)];
      TwoLevels(cats) &&
      ValidateParent(cats, Some(3)).Accepted? &&
      !TwoLevels(SetParent(cats, 1, Some(3)))
  {
    var cats := map[1 := Category(1, Some(7), ExpenseType, None, false),
                    2 := Category(2, Some(7), ExpenseType, Some(1), false),
                    3 := Category(3, Some(7), ExpenseType, None, false)];
    var after := SetParent(cats, 1, Some(3));
    assert after[2].parent == Some(1) && after[1].parent.Some?;
  }

  /** ... and a top-level category may be made its own parent. */
  lemma SelfParentAccepted()
    ensures var cats := map[1 := Category(1, Some(7), ExpenseType, None, false)];
      TwoLevels(cats) &&
      ValidateParent(cats, Some(1)).Accepted? &&
      SetParent(cats, 1, Some(1))[1].parent == Some(1) &&
      !TwoLevels(SetParent(cats, 1, Some(1)))
  {
  }

  /** The rule the error message states ("no nested subcategories"), checked against the
      category being saved: its parent must be top-level, must not be itself, and a
      category that has subcategories may not become one. */
  function ValidateParentFor(cats: Catalog, self: Option<CategoryId>, parent: Option<CategoryId>): (r: Validated<Option<CategoryId>>)
    ensures r.Accepted? ==> r.value == parent && ValidateParent(cats, parent).Accepted?
    ensures self.None? ==> r == ValidateParent(cats, parent)
  {
    match parent
    case None => Accepted(None)
    case Some(p) =>
      if ValidateParent(cats, parent).Rejected? then Rejected("parent")
      else if self == Some(p) then Rejected("parent")
      else if self.Some? && HasSubcategories(cats, self.value) then Rejected("parent")
      else Accepted(parent)
  }

  /** With the corrected rule every accepted update keeps the table at two levels. */
  lemma UpdateKeepsTwoLevels(cats: Catalog, id: CategoryId, p: Option<CategoryId>)
    requires TwoLevels(cats) && id in cats
    requires ValidateParentFor(cats, Some(id), p).Accepted?
    ensures TwoLevels(SetParent(cats, id, p))
  {
    var after := SetParent(cats, id, p);
    forall k | k in after && after[k].parent.Some?
      ensures after[k].parent.value in after && after[k].parent.value != k &&
        after[after[k].parent.value].parent.None?
    {
      if k != id {
        var q := cats[k].parent.value;
        if q == id {
          assert HasSubcategories(cats, id);
        }
      }
    }
  }

  // ---------------------------------------------------------------------
  // Delete and listing

  datatype Deletion = PermissionDenied | Deleted(remaining: Catalog)

  /** The categories whose parent is in `s`. */
  function Children(cats: Catalog, s: set<CategoryId>): (r: set<CategoryId>)
    ensures r <= cats.Keys
  {
    set k | k in cats && cats[k].parent.Some? && cats[k].parent.value in s
  }

  /** `t` holds the subcategories of each of its members: a cascade stops there. */
  predicate Closed(cats: Catalog, t: set<CategoryId>) {
    forall k :: k in cats && cats[k].parent.Some? && cats[k].parent.value in t ==> k in t
  }

  /** What `on_delete=CASCADE` on `parent` deletes with the categories in `s`: their
      subcategories, those subcategories' own subcategories, and so on.  Django follows
      the relation again for every batch it collects, to any depth. */
  function Cascade(cats: Catalog, s: set<CategoryId>): (r: set<CategoryId>)
    ensures s <= r && r - s <= cats.Keys
    ensures Closed(cats, r)
    decreases cats.Keys - s
  {
    var next := s + Children(cats, s);
    if next <= s then s
    else
      var k :| k in next && k !in s;
      assert k in cats.Keys - s && k !in cats.Keys - next;
      Cascade(cats, next)
  }

  /** The cascade deletes nothing it need not: it lies inside every closed set that
      contains what was deleted. */
  lemma {:induction false} CascadeLeast(cats: Catalog, s: set<CategoryId>, t: set<CategoryId>)
    requires s <= t && Closed(cats, t)
    ensures Cascade(cats, s) <= t
    decreases cats.Keys - s
  {
    var next := s + Children(cats, s);
    assert next <= t;
    if !(next <= s) {
      var k :| k in next && k !in s;
      assert k in cats.Keys - s && k !in cats.Keys - next;
      CascadeLeast(cats, next, t);
    }
  }

  /** `perform_destroy`: a default category is refused and nothing is deleted; any
      other category is deleted with every category below it (`on_delete=CASCADE` on
      `parent`, applied recursively). */
  function Destroy(cats: Catalog, id: CategoryId): (r: Deletion)
    requires id in cats
    ensures r.PermissionDenied? <==> cats[id].isDefault
    ensures r.Deleted? ==> r.remaining.Keys <= cats.Keys && id !in r.remaining
    ensures r.Deleted? ==> forall k :: k in r.remaining ==> r.remaining[k] == cats[k]
    ensures r.Deleted? ==> forall k :: k in cats && cats[k].parent == Some(id) ==> k !in r.remaining
    ensures r.Deleted? ==> forall k :: k in r.remaining && cats[k].parent.Some? && cats[k].parent.value in cats ==>
      cats[k].parent.value in r.remaining
  {
    if cats[id].isDefault then PermissionDenied
    else
      var gone := Cascade(cats, {id});
      assert Closed(cats, gone);
      Deleted(map k | k in cats && k !in gone :: cats[k])
  }

  /** ... and only that: every category outside a closed set containing `id` (one that
      holds each of its members' subcategories) survives the delete. */
  lemma DestroyMinimal(cats: Catalog, id: CategoryId, t: set<CategoryId>)
    requires id in cats && !cats[id].isDefault
    requires id in t && Closed(cats, t)
    ensures forall k :: k in cats && k !in t ==> k in Destroy(cats, id).remaining
  {
    CascadeLeast(cats, {id}, t);
  }

  /** The catalog `ReparentMakesThreeLevels` reaches (1 under 3, 2 under 1): deleting
      category 3 deletes 1 and, through it, 2. */
  lemma DestroyCascadesTwoLevels()
    ensures var cats := map[1 := Category(1, Some(7), ExpenseType, Some(3), false),
                             2 := Category(2, Some(7), ExpenseType, Some(1), false),
                             3 := Category(3, Some(7), ExpenseType, None, false)];
      Destroy(cats, 3) == Deleted(map[])
  {
    var cats := map[1 := Category(1, Some(7), ExpenseType, Some(3), false),
                    2 := Category(2, Some(7), ExpenseType, Some(1), false),
                    3 := Category(3, Some(7), ExpenseType, None, false)];
    var r := Destroy(cats, 3);
    assert 1 !in r.remaining;
    assert 2 !in r.remaining;
    assert r.remaining.Keys == {};
  }

  /** `by_type`: visible top-level categories of the requested type, 'gasto' by default. */
  function ByType(cats: seq<Category>, user: UserId, requested: Option<string>): (r: seq<Category>)
    ensures forall c :: c in r <==>
      c in cats && Visible(c, user) && c.parent.None? && TypeCode(c.kind) == requested.GetOr("gasto")
  {
    Aggregate.Filter(cats, (c: Category) =>
      Visible(c, user) && TypeCode(c.kind) == requested.GetOr("gasto") && c.parent.None?)
  }
}
