/**
 * The JSON endpoints. Both take a path `id1/id2/.../idk/` of menu ids from
 * the root down and act on its last id; an empty path stands for menu 1.
 */
module Api {
  import opened Wrappers
  import opened MenuStore
  import Strings
  import Decimal
  import ApiImpl

  /** The target an empty path stands for. */
  const DefaultTarget := "1"
  const PathSeparator := '/'

  datatype Response = Json(id: Id, name: string) | Redirect(url: string)

  /**
   * `MissingSegment`: the path has no `/`, so no segment is left to index.
   * `NoResponse`: the handler returns nothing for this request method.
   * `AddFailed`: the add itself failed.
   */
  datatype ApiError = MissingSegment | NoResponse | AddFailed(cause: ApiImpl.AddError)

  /** The retrieval request handed on for a path, with the requested depth. */
  datatype GetCall = GetCall(target: string, depth: Option<string>)

  /** `menu.split("/")[0:-1] if menu else ['1']`: the path's segments, minus what follows the last `/`. */
  function MenuPath(menu: string): seq<string> {
    if menu == "" then [DefaultTarget]
    else
      var parts := Strings.Split(menu, PathSeparator);
      parts[..|parts| - 1]
  }

  /**
   * `menupath[-1]`: the segment the request acts on, or None where indexing
   * the empty segment list fails.
   */
  function ResolveTarget(menu: string): (r: Option<string>)
    ensures menu == "" ==> r == Some(DefaultTarget)
    ensures r.None? <==> menu != "" && PathSeparator !in menu
    ensures r.Some? ==> PathSeparator !in r.value
  {
    var path := MenuPath(menu);
    if |path| == 0 then None else Some(path[|path| - 1])
  }

  /** The path the routes accept, `(\d+/)+`, spelled out from its segments. */
  function RoutePath(segs: seq<string>): string {
    if |segs| == 0 then "" else segs[0] + [PathSeparator] + RoutePath(segs[1..])
  }

  /** Segments a routed path is made of: at least one, each a numeral. */
  predicate IsRoute(segs: seq<string>) {
    |segs| >= 1 && forall i :: 0 <= i < |segs| ==> Decimal.IsNumeral(segs[i])
  }

  predicate NoSeparator(segs: seq<string>) {
    forall i :: 0 <= i < |segs| ==> PathSeparator !in segs[i]
  }

  lemma {:induction false} RoutePathIsJoin(segs: seq<string>)
    requires NoSeparator(segs)
    ensures RoutePath(segs) == Strings.Join(segs + [""], PathSeparator)
  {
    if |segs| > 0 {
      RoutePathIsJoin(segs[1..]);
      assert (segs + [""])[1..] == segs[1..] + [""];
    }
  }

  /** The target of `s1/s2/.../sk/` is `sk`. */
  lemma ResolveRoute(segs: seq<string>)
    requires |segs| >= 1 && NoSeparator(segs)
    ensures ResolveTarget(RoutePath(segs)) == Some(segs[|segs| - 1])
  {
    var parts := segs + [""];
    RoutePathIsJoin(segs);
    Strings.SplitJoin(parts, PathSeparator);
    assert parts[..|parts| - 1] == segs;
  }

  /** Routed paths always resolve, to a numeral: their last segment. */
  lemma RouteTarget(segs: seq<string>)
    requires IsRoute(segs)
    ensures ResolveTarget(RoutePath(segs)) == Some(segs[|segs| - 1])
    ensures Decimal.Parse(segs[|segs| - 1]).Some?
  {
    assert forall i :: 0 <= i < |segs| ==> PathSeparator !in segs[i] by {
      forall i | 0 <= i < |segs| ensures PathSeparator !in segs[i] {
        assert !Decimal.IsDigit(PathSeparator);
        assert Decimal.AllDigits(segs[i]);
      }
    }
    ResolveRoute(segs);
  }

  /** Routed paths that end in the same segment resolve alike, whatever comes before. */
  lemma LastSegmentOnly(a: seq<string>, b: seq<string>)
    requires IsRoute(a) && IsRoute(b) && a[|a| - 1] == b[|b| - 1]
    ensures ResolveTarget(RoutePath(a)) == ResolveTarget(RoutePath(b))
  {
    RouteTarget(a);
    RouteTarget(b);
  }

  /**
   * The shape the menu routes accept for a path, `(\d+/)+`: digits and
   * slashes, starting with a digit, ending with a slash, each slash right
   * after a digit.
   */
  predicate MatchesMenuRoute(p: string) {
    && |p| >= 2
    && Decimal.IsDigit(p[0])
    && p[|p| - 1] == PathSeparator
    && forall i :: 0 <= i < |p| ==>
         Decimal.IsDigit(p[i]) || (p[i] == PathSeparator && i > 0 && Decimal.IsDigit(p[i - 1]))
  }

  /** Every routed path has the shape the menu routes accept. */
  lemma {:induction false} RoutePathMatches(segs: seq<string>)
    requires IsRoute(segs)
    ensures MatchesMenuRoute(RoutePath(segs))
  {
    var head := segs[0] + [PathSeparator];
    assert Decimal.IsNumeral(segs[0]);
    if |segs| == 1 {
      assert RoutePath(segs) == head;
    } else {
      var rest := RoutePath(segs[1..]);
      assert IsRoute(segs[1..]) by {
        forall i | 0 <= i < |segs[1..]| ensures Decimal.IsNumeral(segs[1..][i]) {
          assert segs[1..][i] == segs[i + 1];
        }
      }
      RoutePathMatches(segs[1..]);
      var p := head + rest;
      assert RoutePath(segs) == p;
      forall i | 0 <= i < |p|
        ensures Decimal.IsDigit(p[i]) || (p[i] == PathSeparator && i > 0 && Decimal.IsDigit(p[i - 1]))
      {
        if i >= |head| {
          assert p[i] == rest[i - |head|];
          if i == |head| {
            assert Decimal.IsDigit(rest[0]);
          } else {
            assert p[i - 1] == rest[i - 1 - |head|];
          }
        }
      }
    }
  }

  /** The redirect target as `menu_add` writes it: `'/menu/{0}/'.format(menu)`. */
  function RedirectUrlAsWritten(menu: string): string {
    "/menu/" + menu + "/"
  }

  /**
   * The as-written redirect never reaches a menu page: the path it carries
   * already ends in a slash, so the URL ends in `//`, which no menu route
   * accepts. For instance the path `1/` redirects to `/menu/1//`.
   */
  lemma RedirectAsWrittenMisroutes(menu: string)
    requires MatchesMenuRoute(menu)
    ensures !MatchesMenuRoute(RedirectUrlAsWritten(menu)[6..])
  {
    var q := menu + "/";
    assert RedirectUrlAsWritten(menu)[6..] == q;
    assert q[|menu|] == PathSeparator && q[|menu| - 1] == PathSeparator;
    assert !Decimal.IsDigit(PathSeparator);
  }

  /** The page of the path `menu` itself: `/menu/` followed by the path. */
  function MenuPageUrl(menu: string): (url: string)
    ensures |url| >= 6 && url[..6] == "/menu/"
  {
    "/menu/" + menu
  }

  /**
   * For a routed path, the corrected redirect carries a path the menu route
   * accepts, and that path still designates the menu the add acted on.
   */
  lemma MenuPageUrlRoutes(segs: seq<string>)
    requires IsRoute(segs)
    ensures MatchesMenuRoute(MenuPageUrl(RoutePath(segs))[6..])
    ensures ResolveTarget(MenuPageUrl(RoutePath(segs))[6..]) == Some(segs[|segs| - 1])
  {
    assert MenuPageUrl(RoutePath(segs))[6..] == RoutePath(segs);
    RoutePathMatches(segs);
    RouteTarget(segs);
  }

  /**
   * `menu_add`: on POST, add a menu called `name` under the path's target;
   * on any other method, redirect to the as-written menu page URL
   * `/menu/<menu>/` and write nothing.
   */
  function MenuAdd(s: Store, verb: string, menu: string, name: Option<string>): (r: Result<(Store, Response), ApiError>)
    requires s.Valid()
    ensures verb != "POST" ==> r == Ok((s, Redirect(RedirectUrlAsWritten(menu))))
    ensures verb == "POST" && ResolveTarget(menu).None? ==> r == Err(MissingSegment)
    ensures r.Ok? ==> r.value.0.Valid()
  {
    if verb == "POST" then
      match ResolveTarget(menu)
      case None => Err(MissingSegment)
      case Some(target) =>
        match ApiImpl.MenuAdd(s, target, name)
        case Err(e) => Err(AddFailed(e))
        case Ok((t, added)) => Ok((t, Json(added.id, added.name)))
    else
      Ok((s, Redirect(RedirectUrlAsWritten(menu))))
  }

  /**
   * A POST to a routed path adds under the menu its last segment names, and
   * fails without writing when that menu does not exist.
   */
  lemma AddThroughRoute(s: Store, segs: seq<string>, name: Option<string>)
    requires s.Valid() && IsRoute(segs)
    ensures
      var parent := Decimal.Parse(segs[|segs| - 1]).value;
      var r := MenuAdd(s, "POST", RoutePath(segs), name);
      && (r.Ok? <==> parent in s.menus && ApiImpl.Storable(name))
      && (parent !in s.menus ==> r == Err(AddFailed(ApiImpl.NotFound)))
      && (r.Ok? ==>
            r.value.1 == Json(r.value.1.id, name.value)
            && r.value.1.id !in s.menus
            && IsChildOf(r.value.0, r.value.1.id, parent)
            && r.value.0.menus[r.value.1.id] == Menu(name.value, ""))
  {
    RouteTarget(segs);
  }

  /** `menu_get`: on GET, hand the path's target and depth on to the retrieval. */
  function MenuGet(verb: string, menu: string, depth: Option<string>): (r: Result<GetCall, ApiError>)
    ensures verb != "GET" ==> r == Err(NoResponse)
    ensures verb == "GET" ==> (r.Ok? <==> ResolveTarget(menu).Some?)
    ensures verb == "GET" && r.Err? ==> r == Err(MissingSegment)
    ensures r.Ok? ==> Some(r.value.target) == ResolveTarget(menu) && r.value.depth == depth
  {
    if verb != "GET" then Err(NoResponse)
    else
      match ResolveTarget(menu)
      case None => Err(MissingSegment)
      case Some(target) => Ok(GetCall(target, depth))
  }

  /**
   * Retrieval and add read the path the same way: where one fails to find a
   * segment so does the other, and otherwise the add goes under the very
   * menu the retrieval targets.
   */
  lemma GetAndAddShareTarget(s: Store, menu: string, name: Option<string>, depth: Option<string>)
    requires s.Valid()
    ensures MenuGet("GET", menu, depth) == Err(MissingSegment) <==> MenuAdd(s, "POST", menu, name) == Err(MissingSegment)
    ensures MenuGet("GET", menu, depth).Ok? ==>
      var target := MenuGet("GET", menu, depth).value.target;
      MenuAdd(s, "POST", menu, name) == match ApiImpl.MenuAdd(s, target, name)
        case Err(e) => Err(AddFailed(e))
        case Ok((t, added)) => Ok((t, Json(added.id, added.name)))
  {
  }

  /** A GET on a routed path hands on its last segment, a numeral, with the requested depth. */
  lemma GetThroughRoute(segs: seq<string>, depth: Option<string>)
    requires IsRoute(segs)
    ensures MenuGet("GET", RoutePath(segs), depth) == Ok(GetCall(segs[|segs| - 1], depth))
    ensures Decimal.Parse(MenuGet("GET", RoutePath(segs), depth).value.target).Some?
  {
    RouteTarget(segs);
  }
}
