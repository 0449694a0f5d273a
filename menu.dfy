/** The menu resolvers of src/resolvers/menuResolvers.ts: public list and
    lookup queries over the category and menu-item tables, and the admin
    mutations that guard them. The catalog invariant `CatalogValid` (unique
    category names, every item in an existing category) holds after every
    mutation that starts from a valid catalog. */
module MenuResolvers {
  import opened Errors
  import opened Strings
  import opened Domain
  import opened Auth
  import opened Validation
  import opened Store

  // ---------------------------------------------------------------- the catalog invariant

  predicate NameTaken(categories: map<Id, Category>, name: string) {
    exists k :: k in categories && categories[k].name == name
  }

  /** A category other than `id` already has `name`. */
  predicate NameHeldByOther(categories: map<Id, Category>, id: Id, name: string) {
    exists k :: k in categories && k != id && categories[k].name == name
  }

  /** The unique index on category names. */
  predicate NamesUnique(categories: map<Id, Category>) {
    forall a, b :: a in categories && b in categories && categories[a].name == categories[b].name ==> a == b
  }

  predicate HasItems(menuItems: map<Id, MenuItem>, categoryId: Id) {
    exists k :: k in menuItems && menuItems[k].categoryId == categoryId
  }

  /** Rows sit under their ids, names are unique, and every item belongs to
      an existing category. */
  predicate CatalogValid(categories: map<Id, Category>, menuItems: map<Id, MenuItem>) {
    && (forall id :: id in categories ==> categories[id].id == id)
    && (forall id :: id in menuItems ==> menuItems[id].id == id)
    && NamesUnique(categories)
    && (forall id :: id in menuItems ==> menuItems[id].categoryId in categories)
  }

  // ---------------------------------------------------------------- queries

  /** `categories`: the active ones. */
  function ActiveCategories(categories: map<Id, Category>): (r: set<Category>)
    ensures forall c :: c in r <==> c in categories.Values && c.isActive
  {
    set c | c in categories.Values && c.isActive
  }

  /** `category(id)`. */
  function CategoryById(categories: map<Id, Category>, id: Id): (r: Result<Category>)
    ensures r.Ok? <==> IsObjectId(id) && id in categories
    ensures r.Ok? ==> r.value == categories[id]
    ensures IsObjectId(id) && id !in categories ==> r == Fail(NotFound, "Category not found")
  {
    var _ :- ValidateObjectId(id, "Category ID");
    if id !in categories then Fail(NotFound, "Category not found") else Ok(categories[id])
  }

  /** `menuItems`: every item, available or not. */
  function AllMenuItems(menuItems: map<Id, MenuItem>): (r: set<MenuItem>)
    ensures r == menuItems.Values
  {
    menuItems.Values
  }

  /** `menuItem(id)`. */
  function MenuItemById(menuItems: map<Id, MenuItem>, id: Id): (r: Result<MenuItem>)
    ensures r.Ok? <==> IsObjectId(id) && id in menuItems
    ensures r.Ok? ==> r.value == menuItems[id]
    ensures IsObjectId(id) && id !in menuItems ==> r == Fail(NotFound, "Menu item not found")
  {
    var _ :- ValidateObjectId(id, "Menu item ID");
    if id !in menuItems then Fail(NotFound, "Menu item not found") else Ok(menuItems[id])
  }

  /** `availableMenuItems`. */
  function AvailableMenuItems(menuItems: map<Id, MenuItem>): (r: set<MenuItem>)
    ensures forall m :: m in r <==> m in menuItems.Values && m.isAvailable
  {
    set m | m in menuItems.Values && m.isAvailable
  }

  /** The full list and the single query agree: an item is listed exactly
      when it can be fetched by its id, and the available list is the part
      of the full list that is available. */
  lemma MenuListsAgreeWithMenuItemById(categories: map<Id, Category>, menuItems: map<Id, MenuItem>, id: Id)
    requires CatalogValid(categories, menuItems) && IsObjectId(id)
    ensures MenuItemById(menuItems, id).Ok? <==> exists m :: m in AllMenuItems(menuItems) && m.id == id
    ensures forall m :: m in AllMenuItems(menuItems) && m.id == id ==> MenuItemById(menuItems, id) == Ok(m)
    ensures AvailableMenuItems(menuItems) == set m | m in AllMenuItems(menuItems) && m.isAvailable
  {
    if id in menuItems {
      assert menuItems[id] in AllMenuItems(menuItems);
    }
  }

  /** `menuItemsByCategory(categoryId)`: the available items of one
      category; the category itself need not exist. */
  function MenuItemsByCategory(menuItems: map<Id, MenuItem>, categoryId: Id): (r: Result<set<MenuItem>>)
    ensures r.Ok? <==> IsObjectId(categoryId)
    ensures r.Err? ==> r == Fail(Validation, "Invalid Category ID format")
  {
    var _ :- ValidateObjectId(categoryId, "Category ID");
    Ok(set m | m in menuItems.Values && m.categoryId == categoryId && m.isAvailable)
  }

  /** The lists never show a hidden row: a category's list is the available
      list cut down to that category, and an unavailable item or an inactive
      category is never listed. */
  lemma ListsShowOnlyAvailable(categories: map<Id, Category>, menuItems: map<Id, MenuItem>, categoryId: Id)
    requires IsObjectId(categoryId)
    ensures MenuItemsByCategory(menuItems, categoryId).value
      == set m | m in AvailableMenuItems(menuItems) && m.categoryId == categoryId
    ensures forall m :: m in menuItems.Values && !m.isAvailable ==> m !in AvailableMenuItems(menuItems)
    ensures forall c :: c in categories.Values && !c.isActive ==> c !in ActiveCategories(categories)
  {
  }

  // ---------------------------------------------------------------- createCategory

  /** `createCategory(input)`; `input.sortOrder` is the value after Joi's
      default of 0. */
  method CreateCategory(db: Database, ctx: Context, input: CategoryInput, checks: Checks, newId: Id)
    returns (r: Result<Category>)
    requires newId !in db.categories
    modifies db`categories
    ensures r.Ok? <==>
      RequireAdmin(ctx).Ok? && CategoryInputErrors(input, checks) == [] && !NameTaken(old(db.categories), input.name)
    ensures RequireAdmin(ctx).Err? ==> r.Err? && r.error == RequireAdmin(ctx).error
    ensures RequireAdmin(ctx).Ok? && CategoryInputErrors(input, checks) != [] ==>
      r == Fail(Validation, Join(CategoryInputErrors(input, checks), ", "))
    ensures RequireAdmin(ctx).Ok? && CategoryInputErrors(input, checks) == [] && NameTaken(old(db.categories), input.name) ==>
      r == Fail(Conflict, "Category name already exists")
    ensures r.Ok? ==>
      && r.value == Category(newId, input.name, input.description, input.imageUrl, true, input.sortOrder)
      && db.categories == old(db.categories)[newId := r.value]
    ensures r.Err? ==> db.categories == old(db.categories)
    ensures old(CatalogValid(db.categories, db.menuItems)) ==> CatalogValid(db.categories, db.menuItems)
  {
    var admin := RequireAdmin(ctx);
    if admin.Err? {
      return Err(admin.error);
    }
    var validated := ValidateInput(CategoryInputErrors(input, checks), input);
    if validated.Err? {
      return Err(validated.error);
    }
    if NameTaken(db.categories, validated.value.name) {
      return Fail(Conflict, "Category name already exists");
    }
    var category := Category(newId, input.name, input.description, input.imageUrl, true, input.sortOrder);
    db.categories := db.categories[newId := category];
    r := Ok(category);
  }

  // ---------------------------------------------------------------- updateCategory

  /** `UpdateCategoryInput`: each field is changed only when given. The input
      is not validated. */
  datatype CategoryPatch = CategoryPatch(
    name: Option<string>, description: Option<string>, imageUrl: Option<string>,
    isActive: Option<bool>, sortOrder: Option<int>)

  /** A category with the given fields of a patch written over it. */
  function PatchCategory(c: Category, p: CategoryPatch): Category
  {
    Category(c.id, p.name.GetOr(c.name),
             if p.description.Some? then p.description else c.description,
             if p.imageUrl.Some? then p.imageUrl else c.imageUrl,
             p.isActive.GetOr(c.isActive), p.sortOrder.GetOr(c.sortOrder))
  }

  /** `updateCategory(id, input)`. An empty new name skips the resolver's
      name check (it is falsy), and then only the store's unique index
      refuses a clash, as an internal error. */
  method UpdateCategory(db: Database, ctx: Context, id: Id, patch: CategoryPatch)
    returns (r: Result<Category>)
    modifies db`categories
    ensures r.Ok? <==>
      && RequireAdmin(ctx).Ok? && IsObjectId(id) && id in old(db.categories)
      && !NameHeldByOther(old(db.categories), id, PatchCategory(old(db.categories)[id], patch).name)
    ensures RequireAdmin(ctx).Err? ==> r.Err? && r.error == RequireAdmin(ctx).error
    ensures RequireAdmin(ctx).Ok? && IsObjectId(id) && id !in old(db.categories) ==>
      r == Fail(NotFound, "Category not found")
    ensures RequireAdmin(ctx).Ok? && IsObjectId(id) && id in old(db.categories)
            && patch.name.Some? && patch.name.value != "" && patch.name.value != old(db.categories)[id].name
            && NameTaken(old(db.categories), patch.name.value) ==>
      r == Fail(Conflict, "Category name already exists")
    ensures r.Ok? ==>
      && r.value == PatchCategory(old(db.categories)[id], patch)
      && db.categories == old(db.categories)[id := r.value]
    ensures r.Err? ==> db.categories == old(db.categories)
    ensures old(CatalogValid(db.categories, db.menuItems)) ==> CatalogValid(db.categories, db.menuItems)
  {
    var admin := RequireAdmin(ctx);
    if admin.Err? {
      return Err(admin.error);
    }
    var idCheck := ValidateObjectId(id, "Category ID");
    if idCheck.Err? {
      return Err(idCheck.error);
    }
    if id !in db.categories {
      return Fail(NotFound, "Category not found");
    }
    var category := db.categories[id];
    if patch.name.Some? && patch.name.value != "" && patch.name.value != category.name {
      if NameTaken(db.categories, patch.name.value) {
        return Fail(Conflict, "Category name already exists");
      }
    }
    var updated := PatchCategory(category, patch);
    if NameHeldByOther(db.categories, id, updated.name) {
      return Fail(Internal, "Unique constraint failed on name");
    }
    db.categories := db.categories[id := updated];
    r := Ok(updated);
  }

  /** Keeping a category's own name is never a conflict. */
  lemma KeepingNameIsNoConflict(categories: map<Id, Category>, id: Id, patch: CategoryPatch)
    requires NamesUnique(categories) && id in categories
    requires patch.name.None? || patch.name == Some(categories[id].name)
    ensures !NameHeldByOther(categories, id, PatchCategory(categories[id], patch).name)
  {
  }

  // ---------------------------------------------------------------- deleteCategory

  /** `deleteCategory(id)`. */
  method DeleteCategory(db: Database, ctx: Context, id: Id) returns (r: Result<bool>)
    modifies db`categories
    ensures r.Ok? <==>
      RequireAdmin(ctx).Ok? && IsObjectId(id) && id in old(db.categories) && !HasItems(db.menuItems, id)
    ensures RequireAdmin(ctx).Err? ==> r.Err? && r.error == RequireAdmin(ctx).error
    ensures RequireAdmin(ctx).Ok? && IsObjectId(id) && id !in old(db.categories) ==>
      r == Fail(NotFound, "Category not found")
    ensures RequireAdmin(ctx).Ok? && IsObjectId(id) && id in old(db.categories) && HasItems(db.menuItems, id) ==>
      r == Fail(Conflict, "Cannot delete category with existing menu items")
    ensures r.Ok? ==> r.value && db.categories == old(db.categories) - {id}
    ensures r.Err? ==> db.categories == old(db.categories)
    ensures old(CatalogValid(db.categories, db.menuItems)) ==> CatalogValid(db.categories, db.menuItems)
  {
    var admin := RequireAdmin(ctx);
    if admin.Err? {
      return Err(admin.error);
    }
    var idCheck := ValidateObjectId(id, "Category ID");
    if idCheck.Err? {
      return Err(idCheck.error);
    }
    if id !in db.categories {
      return Fail(NotFound, "Category not found");
    }
    if HasItems(db.menuItems, id) {
      return Fail(Conflict, "Cannot delete category with existing menu items");
    }
    db.categories := db.categories - {id};
    r := Ok(true);
  }

  // ---------------------------------------------------------------- createMenuItem

  /** `createMenuItem(input)`: the category must exist (active or not). */
  method CreateMenuItem(db: Database, ctx: Context, input: MenuItemInput, checks: Checks, newId: Id)
    returns (r: Result<MenuItem>)
    requires newId !in db.menuItems
    modifies db`menuItems
    ensures r.Ok? <==>
      && RequireAdmin(ctx).Ok? && MenuItemInputErrors(input, checks) == []
      && IsObjectId(input.categoryId) && input.categoryId in db.categories
    ensures RequireAdmin(ctx).Err? ==> r.Err? && r.error == RequireAdmin(ctx).error
    ensures RequireAdmin(ctx).Ok? && MenuItemInputErrors(input, checks) != [] ==>
      r == Fail(Validation, Join(MenuItemInputErrors(input, checks), ", "))
    ensures RequireAdmin(ctx).Ok? && MenuItemInputErrors(input, checks) == [] && !IsObjectId(input.categoryId) ==>
      r == Fail(Validation, "Invalid " + "Category ID" + " format")
    ensures RequireAdmin(ctx).Ok? && MenuItemInputErrors(input, checks) == [] && IsObjectId(input.categoryId)
            && input.categoryId !in db.categories ==>
      r == Fail(NotFound, "Category not found")
    ensures r.Ok? ==>
      && r.value == MenuItem(newId, input.name, input.description, input.price, input.imageUrl, true,
                             input.isSpicy, input.isVegetarian, input.prepTime, input.categoryId)
      && db.menuItems == old(db.menuItems)[newId := r.value]
    ensures r.Err? ==> db.menuItems == old(db.menuItems)
    ensures old(CatalogValid(db.categories, db.menuItems)) ==> CatalogValid(db.categories, db.menuItems)
  {
    var admin := RequireAdmin(ctx);
    if admin.Err? {
      return Err(admin.error);
    }
    var validated := ValidateInput(MenuItemInputErrors(input, checks), input);
    if validated.Err? {
      return Err(validated.error);
    }
    var idCheck := ValidateObjectId(input.categoryId, "Category ID");
    if idCheck.Err? {
      return Err(idCheck.error);
    }
    if input.categoryId !in db.categories {
      return Fail(NotFound, "Category not found");
    }
    var item := MenuItem(newId, input.name, input.description, input.price, input.imageUrl, true,
                         input.isSpicy, input.isVegetarian, input.prepTime, input.categoryId);
    db.menuItems := db.menuItems[newId := item];
    r := Ok(item);
  }

  // ---------------------------------------------------------------- updateMenuItem

  /** `UpdateMenuItemInput`: each field is changed only when given. The input
      is not validated. */
  datatype MenuItemPatch = MenuItemPatch(
    name: Option<string>, description: Option<string>, price: Option<Money>,
    imageUrl: Option<string>, isAvailable: Option<bool>, isSpicy: Option<bool>,
    isVegetarian: Option<bool>, prepTime: Option<int>, categoryId: Option<Id>)

  /** A menu item with the given fields of a patch written over it. */
  function PatchMenuItem(m: MenuItem, p: MenuItemPatch): MenuItem
  {
    MenuItem(m.id, p.name.GetOr(m.name), p.description.GetOr(m.description), p.price.GetOr(m.price),
             if p.imageUrl.Some? then p.imageUrl else m.imageUrl,
             p.isAvailable.GetOr(m.isAvailable), p.isSpicy.GetOr(m.isSpicy),
             p.isVegetarian.GetOr(m.isVegetarian),
             if p.prepTime.Some? then p.prepTime else m.prepTime,
             p.categoryId.GetOr(m.categoryId))
  }

  /** `updateMenuItem(id, input)`. A new category must exist; an empty one
      skips that check (it is falsy) and is then refused by the store as a
      malformed ObjectId. */
  method UpdateMenuItem(db: Database, ctx: Context, id: Id, patch: MenuItemPatch)
    returns (r: Result<MenuItem>)
    modifies db`menuItems
    ensures r.Ok? <==>
      && RequireAdmin(ctx).Ok? && IsObjectId(id) && id in old(db.menuItems)
      && (patch.categoryId.Some? ==> IsObjectId(patch.categoryId.value) && patch.categoryId.value in db.categories)
    ensures RequireAdmin(ctx).Err? ==> r.Err? && r.error == RequireAdmin(ctx).error
    ensures RequireAdmin(ctx).Ok? && IsObjectId(id) && id !in old(db.menuItems) ==>
      r == Fail(NotFound, "Menu item not found")
    ensures RequireAdmin(ctx).Ok? && IsObjectId(id) && id in old(db.menuItems)
            && patch.categoryId.Some? && IsObjectId(patch.categoryId.value)
            && patch.categoryId.value !in db.categories ==>
      r == Fail(NotFound, "Category not found")
    ensures RequireAdmin(ctx).Ok? && IsObjectId(id) && id in old(db.menuItems) && patch.categoryId == Some("") ==>
      FailedWith(r, Internal)
    ensures r.Ok? ==>
      && r.value == PatchMenuItem(old(db.menuItems)[id], patch)
      && db.menuItems == old(db.menuItems)[id := r.value]
    ensures r.Err? ==> db.menuItems == old(db.menuItems)
    ensures old(CatalogValid(db.categories, db.menuItems)) ==> CatalogValid(db.categories, db.menuItems)
  {
    var admin := RequireAdmin(ctx);
    if admin.Err? {
      return Err(admin.error);
    }
    var idCheck := ValidateObjectId(id, "Menu item ID");
    if idCheck.Err? {
      return Err(idCheck.error);
    }
    if id !in db.menuItems {
      return Fail(NotFound, "Menu item not found");
    }
    var menuItem := db.menuItems[id];
    if patch.categoryId.Some? && patch.categoryId.value != "" {
      var categoryCheck := ValidateObjectId(patch.categoryId.value, "Category ID");
      if categoryCheck.Err? {
        return Err(categoryCheck.error);
      }
      if patch.categoryId.value !in db.categories {
        return Fail(NotFound, "Category not found");
      }
    }
    if patch.categoryId == Some("") {
      return Fail(Internal, "Malformed ObjectID");
    }
    var updated := PatchMenuItem(menuItem, patch);
    db.menuItems := db.menuItems[id := updated];
    r := Ok(updated);
  }

  // ---------------------------------------------------------------- deleteMenuItem

  /** `deleteMenuItem(id)`. */
  method DeleteMenuItem(db: Database, ctx: Context, id: Id) returns (r: Result<bool>)
    modifies db`menuItems
    ensures r.Ok? <==> RequireAdmin(ctx).Ok? && IsObjectId(id) && id in old(db.menuItems)
    ensures RequireAdmin(ctx).Err? ==> r.Err? && r.error == RequireAdmin(ctx).error
    ensures RequireAdmin(ctx).Ok? && IsObjectId(id) && id !in old(db.menuItems) ==>
      r == Fail(NotFound, "Menu item not found")
    ensures r.Ok? ==> r.value && db.menuItems == old(db.menuItems) - {id}
    ensures r.Err? ==> db.menuItems == old(db.menuItems)
    ensures old(CatalogValid(db.categories, db.menuItems)) ==> CatalogValid(db.categories, db.menuItems)
  {
    var admin := RequireAdmin(ctx);
    if admin.Err? {
      return Err(admin.error);
    }
    var idCheck := ValidateObjectId(id, "Menu item ID");
    if idCheck.Err? {
      return Err(idCheck.error);
    }
    if id !in db.menuItems {
      return Fail(NotFound, "Menu item not found");
    }
    db.menuItems := db.menuItems - {id};
    r := Ok(true);
  }
}
