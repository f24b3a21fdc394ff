/** The named routers of router.go: a process-wide registry of routers,
    each a prefix with two shared tables (routes by name or path, and the
    compiled expression of every route), `Add`, `Get` and `Match`. */
module Router {
  import opened Wrappers
  import Template
  import Routes
  import Text

  /** The two tables a router and its copies share. */
  class Tables {
    var routes: map<string, Routes.DozeRoute>
    var routingMap: map<Routes.DozeRoute, seq<Template.Atom>>

    constructor ()
      ensures routes == map[] && routingMap == map[]
    {
      routes := map[];
      routingMap := map[];
    }

    /** `Get`: the route stored under `name`; a name never added gives no
        route (the source wraps a nil route). */
    function Get(name: string): (r: Option<Routes.DozeRoute>)
      reads this
      ensures r.Some? <==> name in routes
      ensures r.Some? ==> r.value == routes[name]
    {
      if name in routes then Some(routes[name]) else None
    }

    /** `Match`: the routes are tried in the map's iteration order, which
        the source leaves unspecified, so any accepting route may be the one
        found. The found route records the captured values; no other route
        changes, and when no route accepts the path nothing changes. */
    method Match(test: string) returns (found: Option<Routes.DozeRoute>)
      modifies routingMap.Keys
      ensures found.Some? ==> found.value in routingMap
      ensures found.Some? ==>
                Template.Accept(routingMap[found.value], test) == Some(found.value.paramValues)
                && found.value.State() == old(found.value.State()).(paramValues := found.value.paramValues)
      ensures found.None? ==> forall q :: q in routingMap ==> Template.Accept(routingMap[q], test).None?
      ensures forall q :: q in routingMap && found != Some(q) ==> q.State() == old(q.State())
    {
      var remaining := routingMap.Keys;
      while remaining != {}
        invariant remaining <= routingMap.Keys
        invariant forall q :: q in routingMap.Keys - remaining ==> Template.Accept(routingMap[q], test).None?
        invariant forall q :: q in routingMap ==> q.State() == old(q.State())
        decreases remaining
      {
        var q :| q in remaining;
        var values := Template.Accept(routingMap[q], test);
        if values.Some? {
          q.SetParamValues(values.value);
          return Some(q);
        }
        remaining := remaining - {q};
      }
      return None;
    }
  }

  /** A router: its prefix and its tables. It is a value; `SetPrefix`
      returns a copy that shares the tables. */
  datatype RestRouter = RestRouter(prefix: string, tables: Tables) {
    function SetPrefix(p: string): (r: RestRouter)
      ensures r.prefix == p && r.tables == tables
    {
      this.(prefix := p)
    }
  }

  /** The key a route is stored under: its name, or its path when it has
      no name. */
  function RouteKey(name: string, path: string): (k: string)
    ensures name != [] ==> k == name
    ensures name == [] ==> k == path
  {
    if name != "" then name else path
  }

  /** The registry of named routers. */
  class Registry {
    var routers: map<string, RestRouter>

    constructor ()
      ensures routers == map[]
    {
      routers := map[];
    }

    /** `Router(name)`: the router registered under `name`, made with an
        empty prefix and empty tables the first time the name is asked for. */
    method Router(name: string) returns (r: RestRouter)
      modifies this
      ensures name in old(routers) ==> r == old(routers)[name] && routers == old(routers)
      ensures name !in old(routers) ==>
                fresh(r.tables) && r.prefix == "" && r.tables.routes == map[] && r.tables.routingMap == map[]
                && routers == old(routers)[name := r]
    {
      if name !in routers {
        var t := new Tables();
        routers := routers[name := RestRouter("", t)];
      }
      r := routers[name];
    }
  }

  /** `initRoute`: compiles the route's template into its expression and,
      when the template has placeholders, records their names. */
  method InitRoute(tables: Tables, route: Routes.DozeRoute)
    modifies tables, route
    ensures tables.routes == old(tables.routes)
    ensures tables.routingMap == old(tables.routingMap)[route := Template.Compile(route.path)]
    ensures var names := Template.Names(Template.Holes(Template.Pieces(route.path)));
      route.State() == old(route.State()).(paramNames := if names == [] then old(route.paramNames) else names)
  {
    var params, regString := Template.CompileRoute(route.path);
    if |params| > 0 {
      route.SetParamNames(params);
    }
    tables.routingMap := tables.routingMap[route := Template.ToAtoms(regString) + [Template.OptSlash]];
  }

  /** `Add`: the route's path gets the router's prefix, the route is
      compiled, and it is stored under its name, or under its path when it
      has no name. */
  method Add(ro: RestRouter, route: Routes.DozeRoute)
    modifies ro.tables, route
    ensures route.path == ro.prefix + old(route.path)
    ensures var names := Template.Names(Template.Holes(Template.Pieces(route.path)));
      route.State() == old(route.State()).(path := route.path,
                                           paramNames := if names == [] then old(route.paramNames) else names)
    ensures ro.tables.routingMap == old(ro.tables.routingMap)[route := Template.Compile(route.path)]
    ensures ro.tables.routes == old(ro.tables.routes)[RouteKey(route.name, route.path) := route]
  {
    route.SetPath(ro.prefix + route.path);
    InitRoute(ro.tables, route);
    if route.name != "" {
      ro.tables.routes := ro.tables.routes[route.name := route];
    } else {
      ro.tables.routes := ro.tables.routes[route.path := route];
    }
  }

  /** After `Add`, a match of the route captures one value per recorded
      name, so `Params` of a matched route is well defined. */
  lemma MatchFitsNames(path: string, test: string, values: seq<string>)
    requires Template.Accept(Template.Compile(path), test) == Some(values)
    ensures |values| == |Template.Names(Template.Holes(Template.Pieces(path)))|
  {
    Template.AcceptedGroups(path, test);
  }

  /** The texts `Build` writes for integer values are read back by
      `Params` as those integers. */
  lemma TextsCoerce(hs: seq<Template.Hole>, m: map<string, Routes.Value>)
    requires forall h :: h in hs ==> h.name in m
    requires forall q :: q in m ==> m[q].VInt? && 0 <= m[q].i <= Text.MaxInt64
    ensures forall h :: h in hs ==> h.name in Routes.Written(m)
    ensures var values := Routes.Texts(hs, Routes.Written(m));
      forall i :: 0 <= i < |hs| ==> Routes.Coerce(values[i]) == Routes.PInt(m[hs[i].name].i)
  {
    var w := Routes.Written(m);
    var values := Routes.Texts(hs, w);
    forall i | 0 <= i < |hs|
      ensures Routes.Coerce(values[i]) == Routes.PInt(m[hs[i].name].i)
    {
      assert hs[i] in hs;
      assert values[i] == Text.Itoa(m[hs[i].name].i);
      Routes.CoerceItoa(m[hs[i].name].i);
    }
  }

  /** Reverse routing then matching, down to `Params`: a route built from
      natural numbers that fit in an `int64` is matched again, with one
      value per placeholder name, and each value reads back as the number
      given for that name.  With at least one placeholder, `Build` as
      written gives the same path; with none, it panics. */
  lemma BuildMatchParams(path: string, m: map<string, Routes.Value>, order: seq<string>)
    requires forall q :: q in m ==> q != [] && Template.AllWord(q)
    requires forall q :: q in order <==> q in m
    requires |Template.Holes(Template.Pieces(path))| == |m|
    requires forall k :: 0 <= k < |Template.Pieces(path)| && Template.Pieces(path)[k].Open? ==>
               Routes.Fits(Template.Pieces(path)[k].hole, Routes.Written(m))
    requires Template.Separated(Template.Compile(path))
    requires forall q :: q in m ==> m[q].VInt? && 0 <= m[q].i <= Text.MaxInt64
    ensures var hs := Template.Holes(Template.Pieces(path));
      var built := Routes.Build(Template.Names(hs), path, m, order);
      built.Ok? && Template.Accept(Template.Compile(path), built.value).Some?
      && var values := Template.Accept(Template.Compile(path), built.value).value;
      |values| == |hs|
      && forall i :: 0 <= i < |hs| ==> hs[i].name in m && Routes.Coerce(values[i]) == Routes.PInt(m[hs[i].name].i)
    ensures var names := Template.Names(Template.Holes(Template.Pieces(path)));
      (|m| > 0 ==> Routes.BuildAsWritten(names, path, m, order) == Routes.Build(names, path, m, order))
      && (|m| == 0 ==> Routes.BuildAsWritten(names, path, m, order) == Err(Routes.Panic))
  {
    var hs := Template.Holes(Template.Pieces(path));
    Routes.BuildThenMatch(path, m, order);
    assert forall h :: h in hs ==> h.name in m;
    TextsCoerce(hs, m);
    forall i | 0 <= i < |hs| ensures hs[i].name in m {
      assert hs[i] in hs;
    }
  }
}
