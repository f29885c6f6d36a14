/**
 * The menu page: the id in the URL segment is parsed and shifted by one, the
 * root menu is created on first visit, and the page lists the menu's children
 * in ordinal order.
 */
module Views {
  import opened Wrappers
  import opened MenuStore
  import Decimal

  /** Why a page cannot be shown (both are "404 Not Found" responses). */
  datatype ViewError = NoMenuFound | InvalidMenuId

  /** One listed child, carrying the id of the menu being viewed as `parent`. */
  datatype ChildMenu = ChildMenu(id: Id, parent: Id, name: string, data: string)

  /** What the page shows: the viewed menu and its children. */
  datatype Page = Page(id: Id, title: string, data: string, children: seq<ChildMenu>)

  /** The store after root initialisation, with the two ids it handed out. */
  datatype Init = Init(store: Store, root: Id, first: Id)

  const RootName := "RU App"
  const FirstName := "First"
  const FirstOrdinal: nat := 1

  /**
   * Initialise the root menu: a root named "RU App", a menu "First", and a
   * link placing "First" under the root with ordinal 1. Both menus take the
   * next ids of the sequence, so the root is menu 1 only on an empty store.
   */
  function InitRoot(s: Store): (i: Init)
    requires s.Valid()
    ensures i.store.Valid()
    ensures i.root !in s.menus && i.first !in s.menus && i.root != i.first
    ensures s.nextId == FirstId ==> i.root == 1 && i.first == 2
    ensures i.store.menus.Keys == s.menus.Keys + {i.root, i.first}
    ensures forall id :: id in s.menus ==> i.store.menus[id] == s.menus[id]
    ensures i.store.menus[i.root] == Menu(RootName, "")
    ensures i.store.menus[i.first] == Menu(FirstName, "")
    ensures i.store.submenus.Keys == s.submenus.Keys + {i.first}
    ensures forall c :: c in s.submenus ==> i.store.submenus[c] == s.submenus[c]
    ensures i.store.submenus[i.first] == Submenu(i.root, FirstOrdinal)
    ensures ChildIds(i.store, i.root) == {i.first}
  {
    var root := s.nextId;
    var first := s.nextId + 1;
    var menus := s.menus[root := Menu(RootName, "")][first := Menu(FirstName, "")];
    var submenus := s.submenus[first := Submenu(root, FirstOrdinal)];
    Init(Store(menus, submenus, s.nextId + 2), root, first)
  }

  /** Insert `c` after every id whose ordinal is not greater than its own. */
  function InsertByOrdinal(s: Store, ids: seq<Id>, c: Id): (r: seq<Id>)
    requires c in s.submenus && Linked(s, ids)
    ensures Linked(s, r)
    ensures multiset(r) == multiset(ids) + multiset{c}
  {
    if |ids| == 0 then [c]
    else if Ordinal(s, c) < Ordinal(s, ids[0]) then [c] + ids
    else
      assert ids == [ids[0]] + ids[1..];
      [ids[0]] + InsertByOrdinal(s, ids[1..], c)
  }

  /** Inserting into a list ordered by ordinal keeps it ordered. */
  lemma {:induction false} InsertKeepsSorted(s: Store, ids: seq<Id>, c: Id)
    requires c in s.submenus && Linked(s, ids) && SortedByOrdinal(s, ids)
    ensures SortedByOrdinal(s, InsertByOrdinal(s, ids, c))
  {
    if |ids| > 0 && Ordinal(s, c) >= Ordinal(s, ids[0]) {
      var tail := InsertByOrdinal(s, ids[1..], c);
      InsertKeepsSorted(s, ids[1..], c);
      forall x | x in tail ensures Ordinal(s, ids[0]) <= Ordinal(s, x) {
        assert x in multiset(tail);
        assert x in ids[1..] || x == c;
      }
      var r := [ids[0]] + tail;
      forall i, j | 0 <= i < j < |r| ensures Ordinal(s, r[i]) <= Ordinal(s, r[j]) {
        assert r[j] == tail[j - 1];
        if i > 0 {
          assert r[i] == tail[i - 1];
        }
      }
    }
  }

  /**
   * The ids of the children of `p`, by non-decreasing ordinal. Siblings with
   * equal ordinals come in no particular order, as with the database query.
   */
  method OrderedChildren(s: Store, p: Id) returns (ids: seq<Id>)
    ensures Linked(s, ids)
    ensures multiset(ids) == multiset(ChildIds(s, p))
    ensures SortedByOrdinal(s, ids)
  {
    var pending := ChildIds(s, p);
    ids := [];
    while pending != {}
      invariant pending <= ChildIds(s, p)
      invariant Linked(s, ids)
      invariant multiset(ids) + multiset(pending) == multiset(ChildIds(s, p))
      invariant SortedByOrdinal(s, ids)
      decreases |pending|
    {
      var c :| c in pending;
      assert multiset(pending) == multiset(pending - {c}) + multiset{c};
      InsertKeepsSorted(s, ids, c);
      ids := InsertByOrdinal(s, ids, c);
      pending := pending - {c};
    }
  }

  /** The listed entries for the children `ids` of `p`. */
  function Entries(s: Store, p: Id, ids: seq<Id>): (kids: seq<ChildMenu>)
    requires forall i :: 0 <= i < |ids| ==> ids[i] in s.menus
    ensures |kids| == |ids|
    ensures forall i :: 0 <= i < |ids| ==>
      kids[i] == ChildMenu(ids[i], p, s.menus[ids[i]].name, s.menus[ids[i]].data)
  {
    seq(|ids|, i requires 0 <= i < |ids| => ChildMenu(ids[i], p, s.menus[ids[i]].name, s.menus[ids[i]].data))
  }

  function EntryIds(kids: seq<ChildMenu>): (ids: seq<Id>)
    ensures |ids| == |kids| && forall i :: 0 <= i < |kids| ==> ids[i] == kids[i].id
  {
    seq(|kids|, i requires 0 <= i < |kids| => kids[i].id)
  }

  /** `kids` is exactly the child list of `p`: every child once, by ordinal, with its own name and data. */
  predicate ListsChildren(s: Store, p: Id, kids: seq<ChildMenu>) {
    && Linked(s, EntryIds(kids))
    && multiset(EntryIds(kids)) == multiset(ChildIds(s, p))
    && SortedByOrdinal(s, EntryIds(kids))
    && (forall i :: 0 <= i < |kids| ==>
          kids[i].id in s.menus && kids[i].parent == p
          && kids[i].name == s.menus[kids[i].id].name && kids[i].data == s.menus[kids[i].id].data)
  }

  /** A child list built from the ordered child ids of `p` lists exactly the children of `p`. */
  lemma EntriesListChildren(s: Store, p: Id, ids: seq<Id>)
    requires s.Valid() && Linked(s, ids)
    requires multiset(ids) == multiset(ChildIds(s, p)) && SortedByOrdinal(s, ids)
    ensures forall i :: 0 <= i < |ids| ==> ids[i] in s.menus
    ensures ListsChildren(s, p, Entries(s, p, ids))
  {
    assert forall i :: 0 <= i < |ids| ==> ids[i] in s.menus;
    var kids := Entries(s, p, ids);
    assert EntryIds(kids) == ids;
  }

  lemma {:induction false} SingletonList(ids: seq<Id>, x: Id)
    requires multiset(ids) == multiset{x}
    ensures ids == [x]
  {
  }

  /** The page of menu `p`, which exists in the valid store `s`. */
  method ShowMenu(s: Store, p: Id) returns (page: Page)
    requires s.Valid() && p in s.menus
    ensures page.id == p && page.title == s.menus[p].name && page.data == s.menus[p].data
    ensures ListsChildren(s, p, page.children)
  {
    var ids := OrderedChildren(s, p);
    EntriesListChildren(s, p, ids);
    page := Page(p, s.menus[p].name, s.menus[p].data, Entries(s, p, ids));
  }

  /** The page of a freshly initialised root: its only child is "First". */
  method ShowRoot(s: Store, init: Init) returns (page: Page)
    requires s.Valid() && init == InitRoot(s)
    ensures page.id == init.root && page.title == RootName && page.data == ""
    ensures page.children == [ChildMenu(init.first, init.root, FirstName, "")]
    ensures ListsChildren(init.store, init.root, page.children)
  {
    page := ShowMenu(init.store, init.root);
    SingletonList(EntryIds(page.children), init.first);
  }

  /**
   * View the menu named by the URL segment `submenu`. A segment that is not a
   * numeral is rejected; otherwise menu `n + 1` is shown. If that menu is
   * missing and is menu 1, the root is initialised and shown; any other
   * missing menu is rejected. Only initialisation writes to the store.
   */
  method MenuView(s: Store, submenu: string) returns (r: Result<(Store, Page), ViewError>)
    requires s.Valid()
    ensures Decimal.Parse(submenu).None? ==> r == Err(NoMenuFound)
    ensures Decimal.Parse(submenu).Some? ==>
      var menuId := Decimal.Parse(submenu).value + 1;
      && (menuId in s.menus ==>
            r.Ok? && r.value.0 == s && r.value.1.id == menuId
            && r.value.1.title == s.menus[menuId].name && r.value.1.data == s.menus[menuId].data
            && ListsChildren(s, menuId, r.value.1.children))
      && (menuId !in s.menus && menuId != FirstId ==> r == Err(InvalidMenuId))
      && (menuId !in s.menus && menuId == FirstId ==>
            var init := InitRoot(s);
            r.Ok? && r.value.0 == init.store && r.value.1.id == init.root
            && r.value.1.title == RootName && r.value.1.data == ""
            && r.value.1.children == [ChildMenu(init.first, init.root, FirstName, "")])
    ensures r.Ok? ==> r.value.0.Valid() && ListsChildren(r.value.0, r.value.1.id, r.value.1.children)
  {
    var parsed := Decimal.Parse(submenu);
    if parsed.None? {
      return Err(NoMenuFound);
    }
    var menuId := parsed.value + 1;
    if menuId in s.menus {
      var page := ShowMenu(s, menuId);
      return Ok((s, page));
    }
    if menuId != FirstId {
      return Err(InvalidMenuId);
    }
    var init := InitRoot(s);
    var page := ShowRoot(s, init);
    r := Ok((init.store, page));
  }
}
