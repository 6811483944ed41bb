/** restful_router: routes, their methods and the dispatch of requests. */
module Router {
  import opened Wrappers
  import opened Bytes
  import Query

  /** A part of a route: a captured resource with its name, or a fixed text. */
  datatype Part = Part(capture: bool, text: string)

  function PartOf(text: string): Part
    requires |text| >= 2
  {
    if text[0] == '{' && text[|text| - 1] == '}' then Part(true, text[1..|text| - 1]) else Part(false, text)
  }

  /** parse_route_parts; a part of less than two characters throws. */
  function RouteParts(route: string): Option<seq<Part>> {
    var texts := Query.Split(route, '/', None);
    if forall i :: 0 <= i < |texts| ==> |texts[i]| >= 2
    then Some(seq(|texts|, i requires 0 <= i < |texts| && |texts[i]| >= 2 => PartOf(texts[i])))
    else None
  }

  method ParseRouteParts(route: string) returns (parts: Option<seq<Part>>)
    ensures parts == RouteParts(route)
  {
    var texts := Query.SplitOf(route, '/', None);
    var res: seq<Part> := [];
    for i := 0 to |texts|
      invariant |res| == i
      invariant forall j :: 0 <= j < i ==> |texts[j]| >= 2 && res[j] == PartOf(texts[j])
    {
      if |texts[i]| < 2 {
        return None;
      }
      res := res + [PartOf(texts[i])];
    }
    assert RouteParts(route).Some? && res == RouteParts(route).value;
    return Some(res);
  }

  /** A part as it is written. */
  function PartText(part: Part): string { if part.capture then "{" + part.text + "}" else part.text }

  function PartTexts(parts: seq<Part>): seq<string> {
    seq(|parts|, i requires 0 <= i < |parts| => PartText(parts[i]))
  }

  /** A capture with its name in braces, or another text of at least two characters. */
  predicate GoodPart(part: Part) {
    && '/' !in part.text
    && (part.capture || (|part.text| >= 2 && !(part.text[0] == '{' && part.text[|part.text| - 1] == '}')))
  }

  predicate GoodParts(parts: seq<Part>) { forall i :: 0 <= i < |parts| ==> GoodPart(parts[i]) }

  lemma PartWritten(part: Part)
    requires GoodPart(part)
    ensures |PartText(part)| >= 2 && '/' !in PartText(part) && PartOf(PartText(part)) == part
  {
    if part.capture {
      var text := PartText(part);
      assert text[0] == '{' && text[|text| - 1] == '}' && text[1..|text| - 1] == part.text;
    }
  }

  lemma PartRead(text: string)
    requires |text| >= 2 && '/' !in text
    ensures GoodPart(PartOf(text)) && PartText(PartOf(text)) == text
  {
  }

  /** A route is refused exactly if one of its pieces has less than two characters. */
  lemma RouteRefused(route: string)
    ensures RouteParts(route).None? <==>
            exists i :: 0 <= i < |Query.Split(route, '/', None)| && |Query.Split(route, '/', None)[i]| < 2
  {
    hide PartOf, Query.Split;
    if RouteParts(route).None? {
      var i :| 0 <= i < |Query.Split(route, '/', None)| && |Query.Split(route, '/', None)[i]| < 2;
    }
  }

  /** A route has these parts exactly if it is written as them. */
  lemma RoutePartsIff(route: string, parts: seq<Part>)
    ensures RouteParts(route) == Some(parts) <==> GoodParts(parts) && Query.Split(route, '/', None) == PartTexts(parts)
  {
    var texts := Query.Split(route, '/', None);
    Query.PiecesSplit(route, '/');
    hide PartOf, GoodPart, PartText, Query.Split;
    if RouteParts(route) == Some(parts) {
      forall i | 0 <= i < |parts| ensures GoodPart(parts[i]) && PartText(parts[i]) == texts[i] { PartRead(texts[i]); }
    }
    if GoodParts(parts) && texts == PartTexts(parts) {
      forall i | 0 <= i < |parts| ensures |texts[i]| >= 2 && PartOf(texts[i]) == parts[i] { PartWritten(parts[i]); }
      assert RouteParts(route).value == parts;
    }
  }

  /** Every list of parts can be written as a route. */
  lemma RouteWritten(parts: seq<Part>)
    requires GoodParts(parts)
    ensures RouteParts(Join(PartTexts(parts), "/")) == Some(parts)
  {
    hide PartOf, GoodPart, PartText, Query.Split, Join, RouteParts;
    forall i | 0 <= i < |parts| ensures PartTexts(parts)[i] != "" && '/' !in PartTexts(parts)[i] {
      PartWritten(parts[i]);
    }
    Query.SplitJoined(PartTexts(parts), '/');
    RoutePartsIff(Join(PartTexts(parts), "/"), parts);
  }

  // ---------------------------------------------------------------- matching

  predicate PathMatches(parts: seq<Part>, resources: seq<string>) {
    |parts| == |resources| && forall i :: 0 <= i < |parts| ==> parts[i].capture || parts[i].text == resources[i]
  }

  /** The resources in the places of the captures, in route order. */
  function Captures(parts: seq<Part>, resources: seq<string>): seq<string>
    requires |parts| == |resources|
  {
    if parts == [] then [] else
    var n := |parts| - 1;
    Captures(parts[..n], resources[..n]) + if parts[n].capture then [resources[n]] else []
  }

  function CaptureCount(parts: seq<Part>): nat
  {
    if parts == [] then 0
    else CaptureCount(parts[..|parts| - 1]) + if parts[|parts| - 1].capture then 1 else 0
  }

  /** The path which has these values in the places of the captures. */
  function Filled(parts: seq<Part>, values: seq<string>): (resources: seq<string>)
    requires |values| == CaptureCount(parts)
    ensures |resources| == |parts|
  {
    if parts == [] then [] else
    var n, k := |parts| - 1, |values| - 1;
    if parts[n].capture then Filled(parts[..n], values[..k]) + [values[k]]
    else Filled(parts[..n], values) + [parts[n].text]
  }

  /** Such a path matches, and gives exactly these values, in order. */
  lemma {:induction false} FilledMatches(parts: seq<Part>, values: seq<string>)
    requires |values| == CaptureCount(parts)
    ensures PathMatches(parts, Filled(parts, values)) && Captures(parts, Filled(parts, values)) == values
  {
    hide PathMatches;
    if parts == [] {
      assert PathMatches([], []) by { MatchesNothing(); }
    } else {
      var n, resources := |parts| - 1, Filled(parts, values);
      var front := if parts[n].capture then values[..|values| - 1] else values;
      FilledMatches(parts[..n], front);
      assert resources[..n] == Filled(parts[..n], front);
      MatchesLast(parts, resources);
    }
  }

  lemma MatchesNothing()
    ensures PathMatches([], [])
  {
  }

  lemma MatchesLast(parts: seq<Part>, resources: seq<string>)
    requires parts != [] && |parts| == |resources|
    ensures var n := |parts| - 1;
            PathMatches(parts, resources) <==>
            PathMatches(parts[..n], resources[..n]) && (parts[n].capture || parts[n].text == resources[n])
  {
    var n := |parts| - 1;
    assert forall i :: 0 <= i < n ==> parts[i] == parts[..n][i] && resources[i] == resources[..n][i];
  }

  /** No other path does. */
  lemma {:induction false} MatchesFilled(parts: seq<Part>, resources: seq<string>)
    requires PathMatches(parts, resources)
    ensures |Captures(parts, resources)| == CaptureCount(parts)
    ensures resources == Filled(parts, Captures(parts, resources))
  {
    assert |parts| == |resources|;
    hide PathMatches;
    if parts != [] {
      var n := |parts| - 1;
      MatchesLast(parts, resources);
      MatchesFilled(parts[..n], resources[..n]);
      var front := Captures(parts[..n], resources[..n]);
      assert (front + [resources[n]])[..|front|] == front && front + [] == front;
      assert resources == resources[..n] + [resources[n]];
    }
  }

  /** What the dispatch needs to know of a route. */
  datatype View = View(parts: seq<Part>, methods: map<string, nat>, allow: string)

  datatype Dispatch =
    | Handled(handler: nat, captures: seq<string>, allow: string, queries: Query.Pairs)
    | NotAllowed(allow: string)
    | BadQuery(error: Query.Parsed)
    | NotMine

  predicate Serves(v: View, resources: seq<string>, verb: string) {
    PathMatches(v.parts, resources) && verb in v.methods
  }

  /** The i-th route is the first to serve the request. */
  predicate FirstToServe(views: seq<View>, i: nat, resources: seq<string>, verb: string) {
    && i < |views| && Serves(views[i], resources, verb)
    && forall j :: 0 <= j < i ==> !Serves(views[j], resources, verb)
  }

  predicate FirstOnPath(views: seq<View>, i: nat, resources: seq<string>) {
    && i < |views| && PathMatches(views[i].parts, resources)
    && forall j :: 0 <= j < i ==> !PathMatches(views[j].parts, resources)
  }

  /** The declarative reading of the dispatch: `d` is the answer of the routes `views`. */
  ghost predicate Answers(views: seq<View>, resources: seq<string>, verb: string, query: Option<string>, d: Dispatch) {
    match d
    case Handled(handler, captures, allow, queries) =>
      && (query.None? ==> queries == [])
      && (query.Some? ==> Query.ParseQuery(query.value) == Query.Queries(queries))
      && (exists i: nat :: FirstToServe(views, i, resources, verb) && handler == views[i].methods[verb] &&
                      captures == Captures(views[i].parts, resources) && allow == views[i].allow)
    case BadQuery(error) =>
      && query.Some? && error == Query.ParseQuery(query.value) && !error.Queries?
      && (exists i: nat :: FirstToServe(views, i, resources, verb))
    case NotAllowed(allow) =>
      && (forall j :: 0 <= j < |views| ==> !Serves(views[j], resources, verb))
      && (exists i: nat :: FirstOnPath(views, i, resources) && allow == views[i].allow)
    case NotMine => forall j :: 0 <= j < |views| ==> !PathMatches(views[j].parts, resources)
  }

  function PathOf(url: string): string { url[..Find(url, '?')] }

  function QueryOf(url: string): Option<string> {
    var at := Find(url, '?');
    if at < |url| then Some(url[at + 1..]) else None
  }

  /** `d` is the answer of a router with this base to a request. */
  ghost predicate Dispatches(views: seq<View>, base: seq<string>, url: string, verb: string, d: Dispatch) {
    var resources := Query.Split(PathOf(url), '/', None);
    if |resources| > |base| && resources[..|base|] == base
    then Answers(views, resources[|base|..], verb, QueryOf(url), d)
    else d == NotMine
  }

  /** There is exactly one answer. */
  lemma OneAnswer(views: seq<View>, resources: seq<string>, verb: string, query: Option<string>,
                  d: Dispatch, e: Dispatch)
    requires Answers(views, resources, verb, query, d) && Answers(views, resources, verb, query, e)
    ensures d == e
  {
    if d.Handled? && e.Handled? {
      var i: nat :| FirstToServe(views, i, resources, verb) && d.handler == views[i].methods[verb] &&
                    d.captures == Captures(views[i].parts, resources) && d.allow == views[i].allow;
      var k: nat :| FirstToServe(views, k, resources, verb) && e.handler == views[k].methods[verb] &&
                    e.captures == Captures(views[k].parts, resources) && e.allow == views[k].allow;
      assert i == k;
    } else if d.NotAllowed? && e.NotAllowed? {
      var i: nat :| FirstOnPath(views, i, resources) && d.allow == views[i].allow;
      var k: nat :| FirstOnPath(views, k, resources) && e.allow == views[k].allow;
      assert i == k;
    }
  }

  // ---------------------------------------------------------------- routes

  /** The methods but OPTIONS. */
  function Advertised(order: seq<string>): seq<string>
  {
    if order == [] then [] else
    var n := |order| - 1;
    Advertised(order[..n]) + if order[n] == "OPTIONS" then [] else [order[n]]
  }

  predicate Distinct(order: seq<string>) { forall i, j :: 0 <= i < j < |order| ==> order[i] != order[j] }

  /** The methods are those registered, and the Allow string lists them. */
  ghost predicate Listed(methods: map<string, nat>, allow: string, order: seq<string>) {
    && Distinct(order) && (forall verb :: verb in methods <==> verb in order)
    && ("" !in order ==> allow == Join(Advertised(order), ", "))
  }

  class Route {
    const parts: seq<Part>
    var methods: map<string, nat>
    var allMethods: string
    ghost var order: seq<string>   // the methods in the order of their first registration

    ghost predicate Valid()
      reads this
    {
      Listed(methods, allMethods, order)
    }

    constructor (parts: seq<Part>)
      ensures Valid() && this.parts == parts && methods == map[] && order == []
    {
      this.parts := parts;
      methods, allMethods, order := map[], "", [];
    }

    /** The Allow string lists each method but OPTIONS once, as they were first registered. */
    method SetMethodHandler(verb: string, handler: nat)
      requires Valid()
      modifies this`methods, this`allMethods, this`order
      ensures Valid() && methods == old(methods)[verb := handler]
      ensures order == if verb in old(methods) then old(order) else old(order) + [verb]
    {
      if verb !in methods {
        Register(methods, allMethods, order, verb, handler);
        if verb != "OPTIONS" {
          allMethods := Extended(allMethods, verb);
        }
        order := order + [verb];
      }
      methods := methods[verb := handler];
    }

    function ToView(): View
      reads this
    {
      View(parts, methods, allMethods)
    }

    /** create_handler: whether the path matched, and the captures and the handler if the method
        is there as well. */
    method CreateHandler(resources: seq<string>, verb: string)
      returns (matched: bool, handle: Option<(seq<string>, nat)>)
      ensures matched == PathMatches(parts, resources)
      ensures handle.Some? == Serves(ToView(), resources, verb)
      ensures handle.Some? ==> handle.value == (Captures(parts, resources), methods[verb])
    {
      if |resources| != |parts| {
        return false, None;
      }
      var captures: seq<string> := [];
      for i := 0 to |resources|
        invariant forall j :: 0 <= j < i ==> parts[j].capture || parts[j].text == resources[j]
        invariant captures == Captures(parts[..i], resources[..i])
      {
        assert parts[..i + 1][..i] == parts[..i] && resources[..i + 1][..i] == resources[..i];
        if parts[i].capture {
          captures := captures + [resources[i]];
        } else if parts[i].text != resources[i] {
          return false, None;
        }
      }
      assert parts[..|parts|] == parts && resources[..|resources|] == resources;
      if verb !in methods {
        return true, None;
      }
      return true, Some((captures, methods[verb]));
    }
  }

  function Extended(allow: string, verb: string): string { allow + if allow == "" then verb else ", " + verb }

  lemma Register(methods: map<string, nat>, allow: string, order: seq<string>, verb: string, handler: nat)
    requires Listed(methods, allow, order) && verb !in methods
    ensures Listed(methods[verb := handler], if verb == "OPTIONS" then allow else Extended(allow, verb), order + [verb])
  {
    hide Join, Advertised, Extended;
    assert forall i :: 0 <= i < |order| ==> order[i] in order;
    assert forall v :: v in order + [verb] <==> v in order || v == verb;
    if "" !in order + [verb] { AllowGrows(allow, order, verb); }
  }

  lemma AllowGrows(allow: string, order: seq<string>, verb: string)
    requires "" !in order && allow == Join(Advertised(order), ", ")
    ensures Join(Advertised(order + [verb]), ", ") == if verb == "OPTIONS" then allow else Extended(allow, verb)
  {
    Advertise(order, verb);
    hide Join, Advertised;
    assert Advertised(order) + [] == Advertised(order) && "" + verb == verb;
    assert allow + (", " + verb) == allow + ", " + verb;
  }

  lemma Advertise(order: seq<string>, verb: string)
    ensures Advertised(order + [verb]) == Advertised(order) + if verb == "OPTIONS" then [] else [verb]
    ensures "" !in order ==> (Join(Advertised(order), ", ") == "" <==> Advertised(order) == [])
    ensures Join(Advertised(order) + [verb], ", ") ==
            if Advertised(order) == [] then verb else Join(Advertised(order), ", ") + ", " + verb
  {
    assert (order + [verb])[..|order|] == order;
    assert (Advertised(order) + [verb])[..|Advertised(order)|] == Advertised(order);
    if "" !in order { AdvertisedNonEmpty(order); }
  }

  lemma {:induction false} AdvertisedNonEmpty(order: seq<string>)
    requires "" !in order
    ensures Join(Advertised(order), ", ") == "" <==> Advertised(order) == []
    ensures forall i :: 0 <= i < |Advertised(order)| ==> Advertised(order)[i] != ""
  {
    if order != [] { AdvertisedNonEmpty(order[..|order| - 1]); }
  }

  // ---------------------------------------------------------------- the router

  class RestfulRouter {
    const base: seq<string>
    var routes: seq<Route>

    /** No two routes have equal parts. */
    ghost predicate Valid()
      reads this, routes
    {
      && (forall i :: 0 <= i < |routes| ==> routes[i].Valid())
      && (forall i, j :: 0 <= i < j < |routes| ==> routes[i].parts != routes[j].parts)
    }

    constructor (baseUrl: string)
      ensures Valid() && routes == [] && base == Query.Split(baseUrl, '/', None)
    {
      var parts := Query.SplitOf(baseUrl, '/', None);
      base := parts;
      routes := [];
    }

    /** Creating a route again gives the one which is there. */
    method CreateRoute(text: string) returns (route: Option<Route>)
      requires Valid()
      modifies this`routes
      ensures Valid()
      ensures RouteParts(text).None? ==> route.None? && routes == old(routes)
      ensures RouteParts(text).Some? ==>
                route.Some? && route.value in routes && route.value.parts == RouteParts(text).value
      ensures routes == old(routes) || (route.Some? && fresh(route.value) && routes == old(routes) + [route.value])
    {
      var parts := ParseRouteParts(text);
      if parts.None? {
        return None;
      }
      for i := 0 to |routes|
        invariant routes == old(routes)
        invariant forall j :: 0 <= j < i ==> routes[j].parts != parts.value
      {
        if routes[i].parts == parts.value {
          return Some(routes[i]);
        }
      }
      var added := new Route(parts.value);
      routes := routes + [added];
      return Some(added);
    }

    ghost function Views(): (vs: seq<View>)
      reads this, routes
      ensures |vs| == |routes| && forall i :: 0 <= i < |vs| ==> vs[i] == routes[i].ToView()
    {
      seq(|routes|, i requires 0 <= i < |routes| reads this, routes => routes[i].ToView())
    }

    /** The first route in creation order which matches both path and method answers; if only
        paths match, the first of these tells its methods. */
    method CreateHandler(url: string, verb: string) returns (d: Dispatch)
      ensures Dispatches(Views(), base, url, verb, d)
    {
      var at := Find(url, '?');
      var resources := Query.SplitOf(url[..at], '/', None);
      if |resources| < |base| + 1 || resources[..|base|] != base {
        return NotMine;
      }
      d := Select(resources[|base|..], verb, if at < |url| then Some(url[at + 1..]) else None);
    }

    /** The loop over the routes. */
    method Select(resources: seq<string>, verb: string, query: Option<string>) returns (d: Dispatch)
      ensures Answers(Views(), resources, verb, query, d)
    {
      var allowed: Option<string> := None;
      for i := 0 to |routes|
        invariant forall j :: 0 <= j < i ==> !Serves(Views()[j], resources, verb)
        invariant allowed.None? ==> forall j :: 0 <= j < i ==> !PathMatches(Views()[j].parts, resources)
        invariant allowed.Some? ==>
                    exists j: nat :: FirstOnPath(Views(), j, resources) && allowed.value == Views()[j].allow
      {
        var matched, handle := routes[i].CreateHandler(resources, verb);
        if handle.Some? {
          assert FirstToServe(Views(), i, resources, verb);
          var queries := Query.Queries([]);
          if query.Some? {
            queries := Query.ParseQueryOf(query.value);
            if !queries.Queries? {
              return BadQuery(queries);
            }
          }
          return Handled(handle.value.1, handle.value.0, routes[i].allMethods, queries.pairs);
        }
        if matched && allowed.None? {
          assert FirstOnPath(Views(), i, resources);
          allowed := Some(routes[i].allMethods);
        }
      }
      d := if allowed.Some? then NotAllowed(allowed.value) else NotMine;
    }
  }

  /** What follows a path: nothing, or a query string. */
  predicate IsTail(tail: string) { tail == "" || tail[0] == '?' }

  lemma UrlParts(path: string, tail: string)
    requires '?' !in path && IsTail(tail)
    ensures PathOf(path + tail) == path && QueryOf(path + tail) == if tail == "" then None else Some(tail[1..])
  {
    var url := path + tail;
    assert forall i :: 0 <= i < |path| ==> url[i] == path[i] && path[i] in path;
    if tail != "" { assert url[|path|] == tail[0]; }
    assert Find(url, '?') == |path|;
    assert url[..|path|] == path;
    if tail != "" { assert url[|path| + 1..] == tail[1..]; }
  }

  /** The answer depends on a path only through its resources. */
  lemma SameResources(views: seq<View>, base: seq<string>, p: string, q: string, tail: string, verb: string,
                      d: Dispatch, e: Dispatch)
    requires '?' !in p && '?' !in q && IsTail(tail) && Query.Split(p, '/', None) == Query.Split(q, '/', None)
    requires Dispatches(views, base, p + tail, verb, d) && Dispatches(views, base, q + tail, verb, e)
    ensures d == e
  {
    UrlParts(p, tail);
    UrlParts(q, tail);
    hide PathOf, QueryOf, Answers;
    var resources := Query.Split(p, '/', None);
    if |resources| > |base| && resources[..|base|] == base {
      OneAnswer(views, resources[|base|..], verb, QueryOf(p + tail), d, e);
    }
  }

  /** A resource as it can stand in a path. */
  predicate GoodResource(s: string) { s != "" && '/' !in s && '?' !in s }

  predicate GoodResources(resources: seq<string>) { forall i :: 0 <= i < |resources| ==> GoodResource(resources[i]) }

  function UrlOf(resources: seq<string>): string { "/" + Join(resources, "/") }

  lemma {:induction false} JoinAvoids(pieces: seq<string>, c: char)
    requires c != '/' && forall i :: 0 <= i < |pieces| ==> c !in pieces[i]
    ensures c !in Join(pieces, "/")
  {
    if |pieces| > 1 {
      var n := |pieces| - 1;
      JoinAvoids(pieces[..n], c);
    }
  }

  lemma UrlSplits(resources: seq<string>)
    requires GoodResources(resources)
    ensures '?' !in UrlOf(resources) && Query.Split(UrlOf(resources), '/', None) == resources
  {
    JoinAvoids(resources, '?');
    Query.SplitJoined(resources, '/');
    Query.SeparatorsRedundant(Join(resources, "/"), "", '/');
    hide Join, Query.Split;
    assert "/" == ['/'];
  }

  /** The resources of a route which is filled with these values. */
  predicate GoodFilling(parts: seq<Part>, values: seq<string>) {
    |values| == CaptureCount(parts) && GoodResources(Filled(parts, values))
  }

  /** A URL made by putting values into the places of the captures is answered by the route, with exactly
      these values in order, if no earlier route serves it. */
  lemma FilledIsHandled(views: seq<View>, base: seq<string>, i: nat, values: seq<string>, verb: string, d: Dispatch)
    requires i < |views| && views[i].parts != [] && GoodFilling(views[i].parts, values) && GoodResources(base)
    requires verb in views[i].methods
    requires forall j :: 0 <= j < i ==> !Serves(views[j], Filled(views[i].parts, values), verb)
    requires Dispatches(views, base, UrlOf(base + Filled(views[i].parts, values)), verb, d)
    ensures d == Handled(views[i].methods[verb], values, views[i].allow, [])
  {
    hide Filled, Captures, PathMatches, UrlOf, Dispatches, GoodResources;
    var resources := Filled(views[i].parts, values);
    FilledMatches(views[i].parts, values);
    assert FirstToServe(views, i, resources, verb);
    hide Serves;
    AnsweredBelow(views, base, resources, verb, d);
    OneAnswer(views, resources, verb, None, d, Handled(views[i].methods[verb], values, views[i].allow, []));
  }

  /** The routes answer what follows the base. */
  lemma AnsweredBelow(views: seq<View>, base: seq<string>, resources: seq<string>, verb: string, d: Dispatch)
    requires GoodResources(base) && GoodResources(resources) && resources != []
    requires Dispatches(views, base, UrlOf(base + resources), verb, d)
    ensures Answers(views, resources, verb, None, d)
  {
    var url := UrlOf(base + resources);
    UrlSplits(base + resources);
    hide UrlOf, PathOf, QueryOf, Query.Split, Answers;
    UrlParts(url, "");
    assert url + "" == url;
    assert (base + resources)[..|base|] == base && (base + resources)[|base|..] == resources;
  }

  /** Creates a route, gives it a method and asks for a URL of it. */
  method RouteAndAsk(router: RestfulRouter, parts: seq<Part>, verb: string, handler: nat, values: seq<string>)
    returns (d: Dispatch)
    requires router.Valid() && GoodResources(router.base)
    requires GoodParts(parts) && parts != [] && GoodFilling(parts, values)
    requires forall i :: 0 <= i < |router.routes| && (forall j :: 0 <= j <= i ==> router.routes[j].parts != parts) ==>
               !Serves(router.routes[i].ToView(), Filled(parts, values), verb)
    modifies router, router.routes
    ensures d.Handled? && d.handler == handler && d.captures == values && d.queries == []
  {
    hide GoodParts, GoodResources, Filled, UrlOf, PartTexts, Join, RouteParts, Listed, Dispatches, Serves;
    ghost var resources, before := Filled(parts, values), router.routes;
    RouteWritten(parts);
    var route := router.CreateRoute(Join(PartTexts(parts), "/"));
    ghost var i :| 0 <= i < |router.routes| && router.routes[i] == route.value;
    forall j | 0 <= j < i
      ensures !Serves(router.routes[j].ToView(), resources, verb) && router.routes[j] != route.value
    {
      forall k | 0 <= k <= j ensures before[k].parts != parts {
        assert router.routes[k] == before[k] && router.routes[k].parts != router.routes[i].parts;
      }
    }
    route.value.SetMethodHandler(verb, handler);
    d := router.CreateHandler(UrlOf(router.base + Filled(parts, values)), verb);
    FilledIsHandled(router.Views(), router.base, i, values, verb, d);
  }

  /** Doubled, leading and trailing slashes in a path do not change the answer. */
  lemma SlashesRedundant(views: seq<View>, base: seq<string>, a: string, b: string, tail: string, verb: string,
                         d: Dispatch, e: Dispatch)
    requires '?' !in a && '?' !in b && IsTail(tail) && Dispatches(views, base, a + "/" + b + tail, verb, e)
    requires || Dispatches(views, base, a + "//" + b + tail, verb, d)
             || Dispatches(views, base, "/" + (a + "/" + b) + tail, verb, d)
             || Dispatches(views, base, a + "/" + b + "/" + tail, verb, d)
    ensures d == e
  {
    var path := a + "/" + b;
    Query.SeparatorsRedundant(a, b, '/');
    Query.SeparatorsRedundant(path, "", '/');
    hide Dispatches;
    if Dispatches(views, base, a + "//" + b + tail, verb, d) {
      SameResources(views, base, a + "//" + b, path, tail, verb, d, e);
    } else if Dispatches(views, base, "/" + path + tail, verb, d) {
      SameResources(views, base, "/" + path, path, tail, verb, d, e);
    } else {
      SameResources(views, base, path + "/", path, tail, verb, d, e);
    }
  }
}
