/**
 * Adding a menu under an existing parent: the new menu and its link are
 * created together, so either both are stored or neither is.
 */
module ApiImpl {
  import opened Wrappers
  import opened MenuStore
  import Decimal

  /**
   * Why an add fails. `BadNumber`: the parent id is not a numeral.
   * `NotFound`: no menu has that id. `StoreFailure`: the database refused the
   * new row (a missing name, or one longer than the name column).
   */
  datatype AddError = BadNumber | NotFound | StoreFailure

  /** The reply echoed to the caller: the new menu's id and name. */
  datatype Added = Added(id: Id, name: string)

  /** Whether the database accepts `name` for a new menu row. */
  predicate Storable(name: Option<string>) {
    name.Some? && |name.value| <= MaxNameLength
  }

  /**
   * Add a menu called `newName`, with blank data, under the menu whose id is
   * the numeral `parentId`, linked with the default ordinal. The parent is
   * looked up before anything is written.
   */
  function MenuAdd(s: Store, parentId: string, newName: Option<string>): (r: Result<(Store, Added), AddError>)
    requires s.Valid()
    ensures Decimal.Parse(parentId).None? ==> r == Err(BadNumber)
    ensures Decimal.Parse(parentId).Some? && Decimal.Parse(parentId).value !in s.menus ==> r == Err(NotFound)
    ensures Decimal.Parse(parentId).Some? && Decimal.Parse(parentId).value in s.menus && !Storable(newName) ==>
      r == Err(StoreFailure)
    ensures r.Ok? <==>
      Decimal.Parse(parentId).Some? && Decimal.Parse(parentId).value in s.menus && Storable(newName)
    ensures r.Ok? ==>
      var (t, added) := r.value;
      var parent := Decimal.Parse(parentId).value;
      && t.Valid()
      && added.name == newName.value
      && added.id !in s.menus && added.id !in s.submenus
      && (forall id :: id in s.menus ==> id < added.id)
      && t.menus.Keys == s.menus.Keys + {added.id}
      && t.menus[added.id] == Menu(newName.value, "")
      && (forall id :: id in s.menus ==> t.menus[id] == s.menus[id])
      && t.submenus.Keys == s.submenus.Keys + {added.id}
      && t.submenus[added.id] == Submenu(parent, DefaultOrdinal)
      && (forall c :: c in s.submenus ==> t.submenus[c] == s.submenus[c])
  {
    match Decimal.Parse(parentId)
    case None => Err(BadNumber)
    case Some(parent) =>
      if parent !in s.menus then Err(NotFound)
      else if !Storable(newName) then Err(StoreFailure)
      else
        var id := s.nextId;
        var t := Store(s.menus[id := Menu(newName.value, "")],
                       s.submenus[id := Submenu(parent, DefaultOrdinal)],
                       s.nextId + 1);
        Ok((t, Added(id, newName.value)))
  }

  /**
   * A successful add puts exactly the new menu under its parent and leaves
   * every other menu's children as they were; the parent's child count grows
   * by one however many children it already had.
   */
  lemma AddedUnderParent(s: Store, parentId: string, newName: Option<string>)
    requires s.Valid() && MenuAdd(s, parentId, newName).Ok?
    ensures var (t, added) := MenuAdd(s, parentId, newName).value;
      var parent := Decimal.Parse(parentId).value;
      && ChildIds(t, parent) == ChildIds(s, parent) + {added.id}
      && |ChildIds(t, parent)| == |ChildIds(s, parent)| + 1
      && (forall q :: q != parent ==> ChildIds(t, q) == ChildIds(s, q))
  {
    var (t, added) := MenuAdd(s, parentId, newName).value;
    var parent := Decimal.Parse(parentId).value;
    assert ChildIds(t, parent) == ChildIds(s, parent) + {added.id};
    assert added.id !in ChildIds(s, parent);
    forall q | q != parent
      ensures ChildIds(t, q) == ChildIds(s, q)
    {
      assert forall c :: c in ChildIds(t, q) <==> c in ChildIds(s, q);
    }
  }
}
