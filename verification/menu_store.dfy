/**
 * The menu tree as two record sets: `Menu` rows keyed by an auto-assigned id,
 * and `Submenu` rows keyed by the child's id, each naming the child's parent
 * and its rank among its siblings. Keying the parent link by the child is what
 * gives every menu at most one parent.
 */
module MenuStore {

  type Id = nat

  /** Longest name the `name` column holds. */
  const MaxNameLength: nat := 50
  /** Largest value of the `ordinal` column, a positive small integer. */
  const MaxOrdinal: nat := 32767
  /** The ordinal a link gets when none is supplied. */
  const DefaultOrdinal: nat := 0
  /** The first id the auto-increment sequence hands out. */
  const FirstId: Id := 1

  /** One menu entry: a short name and free text, possibly blank. */
  datatype Menu = Menu(name: string, data: string)

  /** The link from a child menu to its parent, ranked by `ordinal`. */
  datatype Submenu = Submenu(parent: Id, ordinal: nat)

  /**
   * The whole store. `submenus` is keyed by the child's id; `nextId` is the
   * next value of the id sequence, which never hands out an id twice.
   */
  datatype Store = Store(menus: map<Id, Menu>, submenus: map<Id, Submenu>, nextId: Id) {

    /** The integrity the schema enforces on every committed state. */
    predicate Valid() {
      && nextId >= FirstId
      && (forall id :: id in menus ==> FirstId <= id < nextId && |menus[id].name| <= MaxNameLength)
      && (forall c :: c in submenus ==>
            c in menus && submenus[c].parent in menus && submenus[c].ordinal <= MaxOrdinal)
    }
  }

  /** A freshly created database: no rows, the sequence at its start. */
  function Empty(): (s: Store)
    ensures s.Valid() && s.menus == map[] && s.submenus == map[]
  {
    Store(map[], map[], FirstId)
  }

  predicate IsChildOf(s: Store, c: Id, p: Id) {
    c in s.submenus && s.submenus[c].parent == p
  }

  /** The ids of the menus linked directly under `p`. */
  function ChildIds(s: Store, p: Id): (kids: set<Id>)
    ensures forall c :: c in kids <==> IsChildOf(s, c, p)
  {
    set c | c in s.submenus && s.submenus[c].parent == p
  }

  predicate Linked(s: Store, ids: seq<Id>) {
    forall i :: 0 <= i < |ids| ==> ids[i] in s.submenus
  }

  function Ordinal(s: Store, c: Id): nat
    requires c in s.submenus
  {
    s.submenus[c].ordinal
  }

  /** Ordinals never decrease along `ids`. */
  predicate SortedByOrdinal(s: Store, ids: seq<Id>)
    requires Linked(s, ids)
  {
    forall i, j :: 0 <= i < j < |ids| ==> Ordinal(s, ids[i]) <= Ordinal(s, ids[j])
  }
}
