# WordTree menu store — a Dafny model

WordTree keeps an arbitrarily deep tree of named menus in two database
tables. `Menu` rows hold a name (at most 50 characters) and free-text data,
under an auto-assigned id. `Submenu` rows link a child menu to its parent
with an ordinal, the child's rank among its siblings. The `Submenu` table is
keyed by the child, so a menu has at most one parent, while a parent may
have any number of children.

This project models that store and the operations the web layer performs on it:

- **The store** (`menu_store.dfy`, module `MenuStore`). It is an immutable
  value `Store(menus, submenus, nextId)`. `submenus` maps a child id to its
  `Submenu(parent, ordinal)`. `nextId` is the next value of the id sequence,
  which never hands out an id twice. `Store.Valid` is the integrity the
  schema enforces: both ends of every link are existing menus, ids lie in
  `[1, nextId)`, names fit the 50-character column, and ordinals fit a
  positive small integer (0..32767, default 0).
- **Viewing a menu** (`views.dfy`, module `Views`). The URL segment is read as
  a decimal numeral and shifted by one. On first visit the root is
  initialised ("RU App" with a child "First" at ordinal 1). Any other missing
  menu is rejected. The page lists the menu's children by non-decreasing
  ordinal.
- **Adding a menu** (`api_impl.dfy`, module `ApiImpl`). It creates a new menu
  with blank data and its link under an existing parent, with the default
  ordinal 0, both or neither.
- **The JSON endpoints** (`api.dfy`, module `Api`). A path `id1/id2/.../idk/`
  resolves to its last segment, and an empty path to `1`. An add on a method
  other than POST redirects to `/menu/<menu>/` and writes nothing.
- Helpers. `decimal.dfy` models Python's `int()` on digit strings and its
  inverse `str()`. `strings.dfy` models `str.split` and its inverse `join`.
  `wrappers.dfy` holds `Option` and `Result`.

The store operations are pure functions. Building the child list and the
page is done by methods (`Views.OrderedChildren`, `Views.ShowMenu`,
`Views.ShowRoot`, `Views.MenuView`). Each operation returns either an error
or the new store with its reply. An error carries no store: a failed
operation writes nothing, so each operation is modelled as all-or-nothing.
In the source only the add runs inside a transaction; root initialisation
is three separate saves. I/O, rendering, authentication, logging and the
database engine are not modelled. The request method, the request's `name`
parameter and the store state are ordinary parameters.

Notes on following the code:

- On first visit, the root takes the next id of the sequence, as `save()`
  assigns it. The root is therefore menu 1 only on an empty store, which
  `Views.InitRoot` states. If menu 1 were ever missing from a non-empty
  store, every view of segment `0` would create another root.
- The view looks up `int(segment) + 1`. The add endpoint passes its target
  to `int()` with no offset. The model keeps both as written.
- `views.py` constructs `Menu(..., tag=...)`, but `models.py` declares no
  `tag` field. The model drops `tag`.
- `urls.py` belongs to a later revision than `views.py` and `api.py`. It
  imports names those files do not define, and it hands the whole captured
  path to the views. The model applies the view to a single segment, as
  `views.py` reads it. `urls.py` serves only as the `(\d+/)+` shape of
  routed paths.

## Model

| member | source | states |
|---|---|---|
| MenuStore.Empty | WordTree/app/models.py:9-21 | A fresh database, with no rows and the id sequence at 1, satisfies the schema's integrity. |
| Decimal.Parse | WordTree/app/views.py:57-61 | `int()` yields a number exactly when the segment is a non-empty string of digits; anything else, such as the empty or an alphabetic segment, is rejected. |
| Decimal.ParseShow | WordTree/app/views.py:58 | Every id reads back from its printed numeral: `int(str(n)) == n`. |
| Decimal.ShowParse | WordTree/app/views.py:58 | A numeral without superfluous leading zeros is exactly the printed form of the number it denotes. |
| Decimal.LeadingZeroIgnored | WordTree/app/views.py:58 | Leading zeros do not change the id a segment denotes. |
| Strings.Split | WordTree/app/api.py:28 | `split('/')` yields at least one piece, none containing `/`, and a single piece exactly when the string has no `/`. |
| Strings.JoinSplit | WordTree/app/api.py:28 | Joining the pieces of a split with the separator restores the original string. |
| Strings.SplitJoin | WordTree/app/api.py:28 | Splitting the join of separator-free pieces gives back exactly those pieces. |
| Views.InitRoot | WordTree/app/views.py:66-74 | Initialisation adds a root "RU App" and a menu "First" with blank data under two fresh ids (1 and 2 while the id sequence is at 1), and one link from the root to "First" with ordinal 1. Nothing else changes, the result satisfies the integrity, and the root's only child is "First". |
| Views.InsertByOrdinal | WordTree/app/views.py:89 | Inserting an id into a list of linked ids yields the same ids plus the new one, each as often as before. |
| Views.InsertKeepsSorted | WordTree/app/views.py:89 | Inserting into a list ordered by ordinal keeps it ordered by ordinal. |
| Views.OrderedChildren | WordTree/app/views.py:89 | The child query yields every menu linked under the parent exactly once, and no other, in non-decreasing ordinal order. |
| Views.EntriesListChildren | WordTree/app/views.py:90-94 | Each listed child carries its own id, name and data, with `parent` set to the viewed menu's id. |
| Views.ShowMenu | WordTree/app/views.py:89-94 | The page of an existing menu has its name as title and lists exactly its children, in ordinal order. |
| Views.ShowRoot | WordTree/app/views.py:66-94 | Right after initialisation the root's page lists exactly one child, "First". |
| Views.MenuView | WordTree/app/views.py:54-94 | A non-numeral segment fails with "No menu found". Otherwise menu `n + 1` is shown with its ordered children and no write. If that menu is missing and is menu 1, the root is initialised and shown. Any other missing menu fails with "Invalid menu id". Every success leaves a store satisfying the integrity. |
| ApiImpl.MenuAdd | WordTree/app/api_impl.py:15-26 | A non-numeral parent id or a missing parent fails before any write. A missing or overlong name makes the store refuse the rows. On success exactly one menu is added, with a fresh id larger than every existing one, the given name and blank data. Exactly one link is added, from the parent to it with ordinal 0. All other rows are unchanged, integrity is preserved, and the reply is the new id and name. |
| ApiImpl.AddedUnderParent | WordTree/app/api_impl.py:20-22 | After an add, the parent's children are its former children plus the new menu, so the child count grows by one. Every other menu's children are unchanged. |
| Api.ResolveTarget | WordTree/app/api.py:28-30 | An empty path resolves to `1`. A non-empty path without `/` has no segment to index and fails. Any other path resolves to a segment free of `/`. |
| Api.ResolveRoute | WordTree/app/api.py:28-30 | The path `s1/s2/.../sk/` resolves to `sk`. |
| Api.RouteTarget | WordTree/WordTree/urls.py:50-59 | A routed path always resolves, to its last segment, and that segment is a numeral, so the add's `int()` cannot fail on it. |
| Api.LastSegmentOnly | WordTree/app/api.py:28-30 | Two routed paths that end in the same segment resolve to the same target, whatever their earlier segments. |
| Api.RoutePathMatches | WordTree/WordTree/urls.py:50 | A path built from numeral segments, each followed by `/`, has the `(\d+/)+` shape the routes accept. |
| Api.RedirectAsWrittenMisroutes | WordTree/app/api.py:31-32 | For every path of the menu route's shape, the path part of the as-written redirect URL (for example `1//` in `/menu/1//`) no longer has that shape. |
| Api.MenuPageUrlRoutes | WordTree/app/api.py:31-32 | The corrected redirect for a routed path carries a path the menu route accepts, and that path resolves to the same last segment. |
| Api.MenuAdd | WordTree/app/api.py:17-32 | A method other than POST redirects to the as-written URL `/menu/<menu>/` and leaves the store unchanged. A POST whose path has no segment fails. Every success leaves a store satisfying the integrity. |
| Api.AddThroughRoute | WordTree/app/api.py:23-30 | A POST to a routed path succeeds exactly when the last segment names an existing menu and the name is storable. It adds the new menu under that menu and echoes its id and name. A missing parent fails with not-found. |
| Api.MenuGet | WordTree/app/api.py:35-48 | A method other than GET gets no response. A GET succeeds exactly when the path resolves, and then hands on the resolved target and the requested depth. A GET on an unresolvable path fails with the missing segment. |
| Api.GetThroughRoute | WordTree/app/api.py:46-48 | A GET on a routed path hands on its last segment, which is a numeral, with the requested depth. |
| Api.GetAndAddShareTarget | WordTree/app/api.py:46-48 | Retrieval and add resolve a path identically: both fail on the same paths, and otherwise the add goes under the menu the retrieval targets. |

## Left out

- Views.OrderedChildren: the order of siblings with equal ordinals is left unspecified. The query orders by ordinal only, so the database decides ties.
- Decimal.Parse: signs, whitespace, `_` separators and non-ASCII digits, which Python's `int()` also accepts, are rejected here.
- ApiImpl.MenuAdd: a name longer than 50 characters fails with a store failure. This is what a database that enforces the column width does; SQLite would store the name anyway.
- The `IntegrityError` path of root initialisation (views.py:75-76) is left out. It is a database failure outside the model.
- Move-next, move-previous, delete, edit, reparent and report views are left out. `urls.py` imports them, but their bodies are not part of this model.
- `api_impl.menu_get` is not part of this model. `Api.MenuGet` stops at the request it would receive.
- Page rendering, the static pages (`home`, `contact`, `about`), authentication and permission decorators, logging and JSON serialisation are left out. They are presentation and framework plumbing.
- URL routing is left out, except for the `(\d+/)+` path shape.
- Form declarations and migrations are left out. The migrations describe an older schema with a `tag` field.
- Ids and the id sequence are unbounded naturals. The database's `id` column is a bounded integer, and its overflow is not modelled.
- Transactions and concurrency are left out. Each operation is modelled as one all-or-nothing step.

## Findings

| source | as written | input that shows it | evidently intended | confidence | as-written member | corrected member |
|---|---|---|---|---|---|---|
| WordTree/app/api.py:32 | a non-POST add redirects to `'/menu/{0}/'.format(menu)`, where `menu` already ends in `/` | path `1/` redirects to `/menu/1//`, which the `(\d+/)+` menu route does not match | redirect to `/menu/1/`, the page of the same path | medium, not executed | Api.RedirectAsWrittenMisroutes | Api.MenuPageUrlRoutes |

`Api.MenuAdd` keeps the as-written redirect, so it models `api.py` as it stands. `Api.MenuPageUrl` is the corrected URL, and `Api.MenuPageUrlRoutes` states what it achieves.
