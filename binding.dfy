/** The binding engine: Bind turns the exported methods of a service
    object into service entries, relativePath builds their paths, and
    makeRoutes registers them with the router together with the /exports
    route (server.go). */
module Binding {
  import opened Common
  import opened GoStrings
  import opened Naming
  import opened Signature

  /** The argument of Bind as reflect.ValueOf sees it: no value at all (a
      nil interface), or a value with its type, whether it is a nil
      pointer, the exported method set of its type in reflect's order,
      and how "%+v" prints it. */
  datatype ServiceValue =
    | NilInterface
    | Value(typ: GoType, isNil: bool, methods: seq<MethodSig>, display: string)

  /** A non-nil pointer to a struct: anything else is refused by Bind. A
      nil pointer is refused too, since its Elem() has no kind. */
  predicate IsStructPointer(v: ServiceValue)
  {
    v.Value? && v.typ.Ptr? && v.typ.elem.Struct? && !v.isNil
  }

  /** The struct's name: the resource segment is made of it. */
  function TypeNameOf(v: ServiceValue): string
  {
    if v.Value? && v.typ.Ptr? && v.typ.elem.Struct? then v.typ.elem.name else ""
  }

  function Display(v: ServiceValue): string
  {
    match v
    case NilInterface => "<invalid reflect.Value>"
    case Value(_, _, _, d) => d
  }

  /** errors.Wrapf(invalidInstanceErr, "%+v", svcRef). */
  function BindError(v: ServiceValue): (e: Error)
    ensures e.Cause() == InvalidInstance
    ensures HasSuffix(e.Text(), InvalidInstance.Text())
  {
    WrapKeepsCause(Display(v), InvalidInstance);
    Wrapped(Display(v), InvalidInstance)
  }

  /** One turn of Bind's first loop: the descriptor of a method, or None
      when the method is skipped. */
  function ActionOf(m: MethodSig, typeName: string, implementsResponse: ResponseProbe): Option<Descriptor>
  {
    if !IsExported(m.name) then None
    else
      var parsed := ParseMethodName(typeName, m.name);
      var out := CheckOutParams(m.outs, implementsResponse);
      if !out.ok then None
      else
        match InParamSlots(m.ins)
        case None => None
        case Some(s) => Some(Descriptor(m.name, parsed.verb, parsed.resource, parsed.action, out.numParams, s, m.ins))
  }

  /** A method becomes an action exactly when it is exported, its results
      pass checkOutParams and its inputs pass initInParams; its descriptor
      then carries its name, the resolved route, the number of results,
      which is 1 or 2, and its own input types, of which there are at
      most four. */
  lemma ActionOfSpec(m: MethodSig, typeName: string, implementsResponse: ResponseProbe)
    ensures ActionOf(m, typeName, implementsResponse).Some? <==>
              IsExported(m.name) && CheckOutParams(m.outs, implementsResponse).ok && InParamSlots(m.ins).Some?
    ensures ActionOf(m, typeName, implementsResponse).Some? ==>
              var d := ActionOf(m, typeName, implementsResponse).value;
              var parsed := ParseMethodName(typeName, m.name);
              d.methodName == m.name && d.verb == parsed.verb && d.action == parsed.action &&
              d.resource == ToLower(typeName) &&
              d.outCount == |m.outs| && 1 <= d.outCount <= 2 &&
              d.ins == m.ins && |d.ins| <= MaxInputs &&
              Some(d.slots) == InParamSlots(m.ins)
  {
  }

  /** The actions map after Bind's first loop over the methods. */
  function ActionTable(ms: seq<MethodSig>, typeName: string, implementsResponse: ResponseProbe): map<string, Descriptor>
  {
    if ms == [] then map[]
    else
      var table := ActionTable(ms[..|ms| - 1], typeName, implementsResponse);
      var m := ms[|ms| - 1];
      match ActionOf(m, typeName, implementsResponse)
      case None => table
      case Some(d) => table[m.name := d]
  }

  /** A table maps each method name it holds to a descriptor of that name. */
  ghost predicate KeyedByName(table: map<string, Descriptor>)
  {
    forall k :: k in table ==> table[k].methodName == k
  }

  /** The actions map holds a method name exactly when some method of that
      name qualifies, and it maps it to the descriptor of such a method;
      so no unexported method and no disqualified method is ever bound. */
  lemma {:induction false} ActionTableSpec(ms: seq<MethodSig>, typeName: string, implementsResponse: ResponseProbe)
    ensures var table := ActionTable(ms, typeName, implementsResponse);
            KeyedByName(table) &&
            (forall k :: k in table ==>
               exists i :: 0 <= i < |ms| && ms[i].name == k && ActionOf(ms[i], typeName, implementsResponse) == Some(table[k])) &&
            (forall i :: 0 <= i < |ms| && ActionOf(ms[i], typeName, implementsResponse).Some? ==> ms[i].name in table)
  {
    if ms != [] {
      var init := ms[..|ms| - 1];
      ActionTableSpec(init, typeName, implementsResponse);
      var table := ActionTable(ms, typeName, implementsResponse);
      var prev := ActionTable(init, typeName, implementsResponse);
      forall k | k in table
        ensures exists i :: 0 <= i < |ms| && ms[i].name == k && ActionOf(ms[i], typeName, implementsResponse) == Some(table[k])
      {
        if ActionOf(ms[|ms| - 1], typeName, implementsResponse).Some? && k == ms[|ms| - 1].name {
          assert ms[|ms| - 1].name == k;
        } else {
          var i :| 0 <= i < |init| && init[i].name == k && ActionOf(init[i], typeName, implementsResponse) == Some(prev[k]);
          assert ms[i] == init[i];
        }
      }
      forall i | 0 <= i < |ms| && ActionOf(ms[i], typeName, implementsResponse).Some?
        ensures ms[i].name in table
      {
        if i < |init| {
          assert init[i] == ms[i];
        }
      }
    }
  }

  /** Everything in the actions map is an exported method whose results
      and inputs qualify, routed under the lower-cased type name. */
  lemma BoundMethodsQualify(ms: seq<MethodSig>, typeName: string, implementsResponse: ResponseProbe)
    ensures var table := ActionTable(ms, typeName, implementsResponse);
            forall k :: k in table ==>
              IsExported(k) && table[k].methodName == k &&
              table[k].resource == ToLower(typeName) &&
              1 <= table[k].outCount <= 2 && |table[k].ins| <= MaxInputs
  {
    var table := ActionTable(ms, typeName, implementsResponse);
    ActionTableSpec(ms, typeName, implementsResponse);
    forall k | k in table
      ensures IsExported(k) && table[k].methodName == k && table[k].resource == ToLower(typeName) &&
              1 <= table[k].outCount <= 2 && |table[k].ins| <= MaxInputs
    {
      var i :| 0 <= i < |ms| && ms[i].name == k && ActionOf(ms[i], typeName, implementsResponse) == Some(table[k]);
      ActionOfSpec(ms[i], typeName, implementsResponse);
    }
  }

  ghost predicate DistinctNames(ms: seq<MethodSig>)
  {
    forall i, j :: 0 <= i < j < |ms| ==> ms[i].name != ms[j].name
  }

  /** How many methods qualify as actions. */
  function QualifyingCount(ms: seq<MethodSig>, typeName: string, implementsResponse: ResponseProbe): nat
  {
    if ms == [] then 0
    else QualifyingCount(ms[..|ms| - 1], typeName, implementsResponse)
         + (if ActionOf(ms[|ms| - 1], typeName, implementsResponse).Some? then 1 else 0)
  }

  /** With distinct names the last method's name is not in the table
      built from the methods before it. */
  lemma LastNameIsNew(ms: seq<MethodSig>, typeName: string, implementsResponse: ResponseProbe)
    requires DistinctNames(ms) && ms != []
    ensures ms[|ms| - 1].name !in ActionTable(ms[..|ms| - 1], typeName, implementsResponse)
  {
    var init := ms[..|ms| - 1];
    ActionTableSpec(init, typeName, implementsResponse);
  }

  /** reflect gives every method of a type a different name; then the
      actions map has one entry per qualifying method. */
  lemma {:induction false} ActionTableSize(ms: seq<MethodSig>, typeName: string, implementsResponse: ResponseProbe)
    requires DistinctNames(ms)
    ensures |ActionTable(ms, typeName, implementsResponse)| == QualifyingCount(ms, typeName, implementsResponse)
  {
    if ms != [] {
      var init := ms[..|ms| - 1];
      assert DistinctNames(init);
      ActionTableSize(init, typeName, implementsResponse);
      LastNameIsNew(ms, typeName, implementsResponse);
    }
  }

  /** With distinct names each qualifying method's own descriptor is the
      one in the actions map. */
  lemma {:induction false} ActionTableHoldsEachMethod(ms: seq<MethodSig>, typeName: string, implementsResponse: ResponseProbe)
    requires DistinctNames(ms)
    ensures forall i :: 0 <= i < |ms| && ActionOf(ms[i], typeName, implementsResponse).Some? ==>
              ms[i].name in ActionTable(ms, typeName, implementsResponse) &&
              ActionTable(ms, typeName, implementsResponse)[ms[i].name] == ActionOf(ms[i], typeName, implementsResponse).value
  {
    if ms != [] {
      var init := ms[..|ms| - 1];
      var last := ms[|ms| - 1];
      assert DistinctNames(init);
      ActionTableHoldsEachMethod(init, typeName, implementsResponse);
      forall i | 0 <= i < |ms| && ActionOf(ms[i], typeName, implementsResponse).Some?
        ensures ms[i].name in ActionTable(ms, typeName, implementsResponse) &&
                ActionTable(ms, typeName, implementsResponse)[ms[i].name] == ActionOf(ms[i], typeName, implementsResponse).value
      {
        if i < |init| {
          assert init[i] == ms[i];
          assert ms[i].name != last.name;
        }
      }
    }
  }

  /** A serviceMap: the verb, the relative path and the handler generated
      from the descriptor (the handler is identified by its descriptor). */
  datatype ServiceEntry = ServiceEntry(verb: Verb, relativePath: string, handler: Descriptor)

  /** relativePath: the prefix (when there is one), the resource and the
      action, joined by "/". No version segment is inserted. */
  function RelativePath(prefix: string, resourceName: string, actionName: string): (p: string)
    ensures |prefix| > 0 ==> p == prefix + "/" + resourceName + "/" + actionName
    ensures |prefix| == 0 ==> p == resourceName + "/" + actionName
  {
    if |prefix| > 0 then
      JoinThree(prefix, resourceName, actionName, "/");
      Join([prefix, resourceName, actionName], "/")
    else
      JoinTwo(resourceName, actionName, "/");
      Join([resourceName, actionName], "/")
  }

  function EntryOf(d: Descriptor, prefix: string): ServiceEntry
  {
    ServiceEntry(d.verb, RelativePath(prefix, d.resource, d.action), d)
  }

  /** The entries Bind's second loop appends, as a set. */
  function Entries(table: map<string, Descriptor>, prefix: string): set<ServiceEntry>
  {
    set k | k in table :: EntryOf(table[k], prefix)
  }

  /** A route registered with the router by makeRoutes. */
  datatype RouteHandler = ActionHandler(descriptor: Descriptor) | ExportsHandler
  datatype Route = Route(verb: Verb, path: string, handler: RouteHandler)

  /** The path gin serves a route at: the relative path joined onto the
      engine's base "/". */
  function RoutePath(relativePath: string): string
  {
    if |relativePath| > 0 && relativePath[0] == '/' then relativePath else "/" + relativePath
  }

  /** Every served path starts with "/": a path that already does is
      kept, any other gets the slash in front. */
  lemma RoutePathLeadsWithSlash(relativePath: string)
    ensures HasPrefix(RoutePath(relativePath), "/")
    ensures HasPrefix(relativePath, "/") ==> RoutePath(relativePath) == relativePath
    ensures !HasPrefix(relativePath, "/") ==> RoutePath(relativePath) == "/" + relativePath
  {
    if |relativePath| > 0 && relativePath[0] == '/' {
      assert relativePath[..1] == "/";
    } else {
      assert ("/" + relativePath)[..1] == "/";
    }
  }

  /** What gin's router tells routes apart by. */
  function RouteKey(r: Route): (Verb, string)
  {
    (r.verb, RoutePath(r.path))
  }

  /** Some route of rs already has key k. */
  predicate KeyTaken(rs: seq<Route>, k: (Verb, string))
  {
    exists i :: 0 <= i < |rs| && RouteKey(rs[i]) == k
  }

  /** add can be registered after existing without gin panicking: each
      route's verb and path are free when its turn comes. */
  predicate Registrable(existing: seq<Route>, add: seq<Route>)
    decreases |add|
  {
    add == [] ||
    (Registrable(existing, add[..|add| - 1]) && !KeyTaken(existing + add[..|add| - 1], RouteKey(add[|add| - 1])))
  }

  /** No route of add reuses a key of existing or of another route of add. */
  predicate KeysApart(existing: seq<Route>, add: seq<Route>)
  {
    (forall i, j :: 0 <= i < |existing| && 0 <= j < |add| ==> RouteKey(existing[i]) != RouteKey(add[j])) &&
    (forall i, j :: 0 <= i < j < |add| ==> RouteKey(add[i]) != RouteKey(add[j]))
  }

  /** Registering route by route succeeds exactly when all the keys are
      apart: the order of registration does not matter to whether gin
      panics. */
  lemma {:induction false} RegistrableMeansApart(existing: seq<Route>, add: seq<Route>)
    ensures Registrable(existing, add) <==> KeysApart(existing, add)
    decreases |add|
  {
    if add != [] {
      RegistrableMeansApart(existing, add[..|add| - 1]);
      KeysApartSnoc(existing, add);
    }
  }

  /** Keys apart for a list are keys apart for all but its last route,
      with the last one's key free after them. */
  lemma KeysApartSnoc(existing: seq<Route>, add: seq<Route>)
    requires add != []
    ensures var init, last := add[..|add| - 1], add[|add| - 1];
            KeysApart(existing, add) <==> KeysApart(existing, init) && !KeyTaken(existing + init, RouteKey(last))
  {
    var init, last := add[..|add| - 1], add[|add| - 1];
    var rs := existing + init;
    if KeysApart(existing, add) {
      forall i, j | 0 <= i < |existing| && 0 <= j < |init|
        ensures RouteKey(existing[i]) != RouteKey(init[j])
      {
        assert init[j] == add[j];
      }
      forall i, j | 0 <= i < j < |init|
        ensures RouteKey(init[i]) != RouteKey(init[j])
      {
        assert init[i] == add[i] && init[j] == add[j];
      }
      forall k | 0 <= k < |rs|
        ensures RouteKey(rs[k]) != RouteKey(last)
      {
        if k < |existing| {
          assert rs[k] == existing[k];
        } else {
          assert rs[k] == add[k - |existing|];
        }
      }
    }
    if KeysApart(existing, init) && !KeyTaken(rs, RouteKey(last)) {
      forall i, j | 0 <= i < |existing| && 0 <= j < |add|
        ensures RouteKey(existing[i]) != RouteKey(add[j])
      {
        if j == |init| {
          assert rs[i] == existing[i];
        } else {
          assert add[j] == init[j];
        }
      }
      forall i, j | 0 <= i < j < |add|
        ensures RouteKey(add[i]) != RouteKey(add[j])
      {
        if j == |init| {
          assert rs[|existing| + i] == add[i];
        } else {
          assert add[i] == init[i] && add[j] == init[j];
        }
      }
    }
  }

  /** A route whose key is still free extends a registrable prefix. */
  lemma RegistrableExtends(existing: seq<Route>, add: seq<Route>, n: nat)
    requires n < |add| && Registrable(existing, add[..n])
    requires !KeyTaken(existing + add[..n], RouteKey(add[n]))
    ensures Registrable(existing, add[..n + 1])
  {
    assert add[..n + 1][..n] == add[..n];
  }

  /** A clash among the first routes is a clash of any longer list, and
      leaves the same registered prefix. */
  lemma ClashBeforeLast(existing: seq<Route>, rs: seq<Route>, last: Route, n: nat)
    requires n < |rs| && KeyTaken(existing + rs[..n], RouteKey(rs[n]))
    ensures var all := rs + [last];
            !Registrable(existing, all) && n < |all| && all[..n] == rs[..n] && all[n] == rs[n]
  {
    var all := rs + [last];
    assert all[..n] == rs[..n] && all[n] == rs[n];
    ClashStops(existing, all, n);
  }

  /** After a registrable list, one more route can be registered exactly
      when its key is free. */
  lemma LastRoute(existing: seq<Route>, rs: seq<Route>, last: Route)
    ensures Registrable(existing, rs + [last]) <==> Registrable(existing, rs) && !KeyTaken(existing + rs, RouteKey(last))
  {
    assert (rs + [last])[..|rs|] == rs;
  }

  /** The last step of makeRoutes: after the registrable service routes,
      handling the exports route succeeds exactly when the whole list is
      registrable, and a refusal leaves the services' routes alone. */
  lemma ExportsRouteLast(existing: seq<Route>, rs: seq<Route>, exports: Route, before: seq<Route>, after: seq<Route>, ok: bool)
    requires Registrable(existing, rs) && before == existing + rs
    requires ok <==> !KeyTaken(before, RouteKey(exports))
    requires after == if ok then before + [exports] else before
    ensures var all := rs + [exports];
            (ok <==> Registrable(existing, all)) &&
            (ok ==> after == existing + all) &&
            (!ok ==> |rs| < |all| && after == existing + all[..|rs|] && KeyTaken(after, RouteKey(all[|rs|])))
  {
    var all := rs + [exports];
    LastRoute(existing, rs, exports);
    assert all[..|rs|] == rs && all[|rs|] == exports;
  }

  /** A route whose key is taken makes the whole list unregistrable. */
  lemma ClashStops(existing: seq<Route>, add: seq<Route>, n: nat)
    requires n < |add| && KeyTaken(existing + add[..n], RouteKey(add[n]))
    ensures !Registrable(existing, add)
  {
    RegistrableMeansApart(existing, add);
    var rs := existing + add[..n];
    var i :| 0 <= i < |rs| && RouteKey(rs[i]) == RouteKey(add[n]);
    if i < |existing| {
      assert RouteKey(existing[i]) == RouteKey(add[n]);
    } else {
      assert rs[i] == add[i - |existing|];
    }
  }

  /** Services makeRoutes can register without panicking, whatever else
      is registered with them, are pairwise apart: no two have the same
      verb and paths gin serves at the same place. */
  lemma RegistrableServicesDistinct(existing: seq<Route>, services: seq<ServiceEntry>, tail: seq<Route>)
    requires Registrable(existing, ServiceRoutes(services) + tail)
    ensures forall i, j :: 0 <= i < j < |services| ==> RouteKey(RouteOf(services[i])) != RouteKey(RouteOf(services[j]))
  {
    var rs := ServiceRoutes(services);
    RegistrableMeansApart(existing, rs + tail);
    forall i, j | 0 <= i < j < |services|
      ensures RouteKey(RouteOf(services[i])) != RouteKey(RouteOf(services[j]))
    {
      assert (rs + tail)[i] == rs[i] && (rs + tail)[j] == rs[j];
    }
  }

  /** A gin.HandlerFunc installed as an interceptor; opaque to the core. */
  datatype Interceptor = Interceptor(id: nat)

  /** Where makeRoutes registers the exports route. */
  function ExportsPath(prefix: string): (p: string)
    ensures HasPrefix(p, prefix) && HasSuffix(p, "/exports") && |p| == |prefix| + 8
  {
    var api := "/exports";
    if |prefix| > 0 then prefix + api else api
  }

  function RouteOf(e: ServiceEntry): Route
  {
    Route(e.verb, e.relativePath, ActionHandler(e.handler))
  }

  /** The routes makeRoutes registers for the services, in their order. */
  function ServiceRoutes(services: seq<ServiceEntry>): (rs: seq<Route>)
    ensures |rs| == |services|
    ensures forall i :: 0 <= i < |services| ==> rs[i] == RouteOf(services[i])
  {
    if services == [] then []
    else ServiceRoutes(services[..|services| - 1]) + [RouteOf(services[|services| - 1])]
  }

  /** Every service's path, in order: what the exports route is meant to
      list. */
  function ExportedPaths(services: seq<ServiceEntry>): (paths: seq<string>)
    ensures |paths| == |services|
    ensures forall i :: 0 <= i < |services| ==> paths[i] == services[i].relativePath
  {
    if services == [] then []
    else ExportedPaths(services[..|services| - 1]) + [services[|services| - 1].relativePath]
  }

  /** make([]string, n): n empty strings. */
  function Blanks(n: nat): (r: seq<string>)
    ensures |r| == n && forall i :: 0 <= i < n ==> r[i] == ""
  {
    seq(n, _ => "")
  }

  /** The list the exports handler builds is not the list of paths: its
      first n entries are empty strings, one per service, and the i-th
      service's path only comes at n + i, so every position where a path
      belongs holds "" instead. */
  lemma ExportsListPadded(services: seq<ServiceEntry>)
    requires |services| > 0
    ensures Blanks(|services|) + ExportedPaths(services) != ExportedPaths(services)
    ensures var n, xs := |services|, Blanks(|services|) + ExportedPaths(services);
            forall i :: 0 <= i < n ==> xs[i] == "" && xs[n + i] == services[i].relativePath
    ensures var n, xs := |services|, Blanks(|services|) + ExportedPaths(services);
            forall i :: 0 <= i < n && services[i].relativePath != "" ==> xs[i] != ExportedPaths(services)[i]
  {
  }

  /** parseMethodName lower-cases the action, so two exported methods
      "Get" + a and "Get" + b whose rests differ only in case both become
      GET prefix/resource/action: Bind accepts both, and makeRoutes then
      registers the same route twice. */
  lemma CaseVariantsCollide(prefix: string, probe: ResponseProbe, typeName: string, a: string, b: string)
    requires a != b && ToLower(a) == ToLower(b)
    ensures var m1 := MethodSig("Get" + a, [Ptr(Struct(typeName))], [Interface]);
            var m2 := MethodSig("Get" + b, [Ptr(Struct(typeName))], [Interface]);
            var t := ActionTable([m1, m2], typeName, probe);
            m1.name in t && m2.name in t &&
            EntryOf(t[m1.name], prefix) != EntryOf(t[m2.name], prefix) &&
            RouteKey(RouteOf(EntryOf(t[m1.name], prefix))) == RouteKey(RouteOf(EntryOf(t[m2.name], prefix)))
  {
    var m1 := MethodSig("Get" + a, [Ptr(Struct(typeName))], [Interface]);
    var m2 := MethodSig("Get" + b, [Ptr(Struct(typeName))], [Interface]);
    assert m1.name[3..] == a && m2.name[3..] == b;
    CaseVariantAction(m1, probe, typeName, a);
    CaseVariantAction(m2, probe, typeName, b);
    var ms := [m1, m2];
    assert ms[0] == m1 && ms[1] == m2 && m1.name != m2.name;
    ActionTableHoldsEachMethod(ms, typeName, probe);
  }

  /** GetInfo and Getinfo are such a pair. */
  lemma GetInfoCollides(prefix: string, probe: ResponseProbe)
    ensures var m1 := MethodSig("GetInfo", [Ptr(Struct("UserService"))], [Interface]);
            var m2 := MethodSig("Getinfo", [Ptr(Struct("UserService"))], [Interface]);
            var t := ActionTable([m1, m2], "UserService", probe);
            "GetInfo" in t && "Getinfo" in t &&
            EntryOf(t["GetInfo"], prefix) != EntryOf(t["Getinfo"], prefix) &&
            RouteKey(RouteOf(EntryOf(t["GetInfo"], prefix))) == RouteKey(RouteOf(EntryOf(t["Getinfo"], prefix)))
  {
    assert "Get" + "Info" == "GetInfo" && "Get" + "info" == "Getinfo";
    assert "Info"[0] != "info"[0];
    assert LowerChar('I') == 'i' && LowerChar('i') == 'i' && LowerChar('n') == 'n';
    assert LowerChar('f') == 'f' && LowerChar('o') == 'o';
    CaseVariantsCollide(prefix, probe, "UserService", "Info", "info");
  }

  /** A receiver-only method named "Get" + rest with an interface result
      is an action with the lower-cased rest as its action. */
  lemma CaseVariantAction(m: MethodSig, probe: ResponseProbe, typeName: string, rest: string)
    requires m == MethodSig("Get" + rest, [Ptr(Struct(typeName))], [Interface])
    ensures ActionOf(m, typeName, probe) ==
              Some(Descriptor(m.name, GET, ToLower(typeName), ToLower(rest), 1, NoSlots, m.ins))
  {
    assert m.name[..3] == "Get" && m.name[3..] == rest;
    assert m.name[0] == 'G';
    assert CheckOutParams(m.outs, probe) == OutCheck(1, true);
    assert InParamSlots(m.ins) == Some(NoSlots);
  }

  /** With an empty prefix the path of an action has no leading "/" (the
      resource is a lower-cased Go type name, which never starts with
      "/"), while the exports route gets one. gin still serves the action
      at "/" + path, so the path the exports list shows for it is not the
      path it is served at. */
  lemma EmptyPrefixPathHasNoLeadingSlash(resourceName: string, actionName: string)
    requires |resourceName| > 0 && resourceName[0] != '/'
    ensures !HasPrefix(RelativePath("", resourceName, actionName), "/")
    ensures HasPrefix(ExportsPath(""), "/")
    ensures RoutePath(RelativePath("", resourceName, actionName)) == "/" + RelativePath("", resourceName, actionName)
    ensures RoutePath(RelativePath("", resourceName, actionName)) != RelativePath("", resourceName, actionName)
  {
    var p := RelativePath("", resourceName, actionName);
    assert p[..1] == resourceName[..1];
  }

  /** relativePath as the exports route suggests it was meant: with an
      empty prefix the path still starts with "/". */
  function IntendedRelativePath(prefix: string, resourceName: string, actionName: string): (p: string)
    ensures HasPrefix(p, prefix + "/")
    ensures |prefix| > 0 ==> p == RelativePath(prefix, resourceName, actionName)
    ensures |prefix| == 0 ==> p == "/" + RelativePath(prefix, resourceName, actionName)
  {
    prefix + "/" + resourceName + "/" + actionName
  }

  /** With the intended paths every route, the exports route included,
      starts with "/" whenever the prefix is empty or starts with "/", so
      the exports list shows each action at the path gin serves it at. */
  lemma IntendedPathsLeadWithSlash(prefix: string, resourceName: string, actionName: string)
    requires prefix == "" || HasPrefix(prefix, "/")
    ensures HasPrefix(IntendedRelativePath(prefix, resourceName, actionName), "/")
    ensures HasPrefix(ExportsPath(prefix), "/")
    ensures RoutePath(IntendedRelativePath(prefix, resourceName, actionName)) == IntendedRelativePath(prefix, resourceName, actionName)
  {
    var p := IntendedRelativePath(prefix, resourceName, actionName);
    assert p[..|prefix + "/"|] == prefix + "/";
    if prefix == "" {
      assert p[..1] == "/";
    } else {
      assert p[..1] == prefix[..1];
      assert ExportsPath(prefix)[..1] == prefix[..1];
    }
  }

  /** The distinct elements of a sequence are as many as its length. */
  lemma {:induction false} DistinctCard(s: seq<string>)
    requires forall i, j :: 0 <= i < j < |s| ==> s[i] != s[j]
    ensures |set x | x in s| == |s|
  {
    if s != [] {
      var init := s[..|s| - 1];
      DistinctCard(init);
      assert (set x | x in s) == (set x | x in init) + {s[|s| - 1]};
      assert s[|s| - 1] !in (set x | x in init);
    }
  }

  /** What Bind's second loop leaves behind: the entries it appended in
      the order it visited the keys are as many as the keys, are pairwise
      distinct and are the entries of the map. */
  lemma AppendedEntries(actions: map<string, Descriptor>, prefix: string, names: seq<string>, added: seq<ServiceEntry>)
    requires KeyedByName(actions)
    requires forall i, j :: 0 <= i < j < |names| ==> names[i] != names[j]
    requires forall i :: 0 <= i < |names| ==> names[i] in actions
    requires forall k :: k in actions ==> k in names
    requires |added| == |names|
    requires forall i :: 0 <= i < |names| ==> added[i] == EntryOf(actions[names[i]], prefix)
    ensures |added| == |actions|
    ensures forall e :: e in added <==> e in Entries(actions, prefix)
    ensures forall i, j :: 0 <= i < j < |added| ==> added[i] != added[j]
  {
    DistinctCard(names);
    assert (set x | x in names) == actions.Keys;
    forall e | e in Entries(actions, prefix)
      ensures e in added
    {
      var k :| k in actions && e == EntryOf(actions[k], prefix);
      var i :| 0 <= i < |names| && names[i] == k;
      assert added[i] == e;
    }
    forall i, j | 0 <= i < j < |added|
      ensures added[i] != added[j]
    {
      assert added[i].handler.methodName == names[i];
      assert added[j].handler.methodName == names[j];
    }
  }

  /** Bind's second loop: one entry per entry of the actions map, in map
      order. Whatever the order, the entries are as many as the map's,
      pairwise distinct, and exactly the entries of the map. */
  method EntriesInMapOrder(actions: map<string, Descriptor>, prefix: string) returns (added: seq<ServiceEntry>)
    requires KeyedByName(actions)
    ensures |added| == |actions|
    ensures forall e :: e in added <==> e in Entries(actions, prefix)
    ensures forall i, j :: 0 <= i < j < |added| ==> added[i] != added[j]
  {
    ghost var names: seq<string> := [];
    added := [];
    var remaining := actions.Keys;
    while remaining != {}
      invariant remaining <= actions.Keys
      invariant forall i :: 0 <= i < |names| ==> names[i] in actions && names[i] !in remaining
      invariant forall k :: k in actions && k !in remaining ==> k in names
      invariant forall i, j :: 0 <= i < j < |names| ==> names[i] != names[j]
      invariant |added| == |names|
      invariant forall i :: 0 <= i < |names| ==> added[i] == EntryOf(actions[names[i]], prefix)
      decreases remaining
    {
      var name :| name in remaining;
      var inOutParams := actions[name];
      var relativePath := RelativePath(prefix, inOutParams.resource, inOutParams.action);
      added := added + [ServiceEntry(inOutParams.verb, relativePath, inOutParams)];
      names := names + [name];
      remaining := remaining - {name};
    }
    AppendedEntries(actions, prefix, names, added);
  }

  /** The part of gin's engine makeRoutes fills: what has been
      registered, in order. */
  class Router {
    var routes: seq<Route>

    constructor ()
      ensures routes == []
    {
      routes := [];
    }

    /** router.Handle: gin registers a route unless its verb and path
        are taken, and panics when they are. */
    method Handle(r: Route) returns (ok: bool)
      modifies this
      ensures ok <==> !KeyTaken(old(routes), RouteKey(r))
      ensures routes == if ok then old(routes) + [r] else old(routes)
    {
      if KeyTaken(routes, RouteKey(r)) {
        return false;
      }
      routes := routes + [r];
      return true;
    }
  }

  /** The server's state that binding and routing change (ginServer). */
  class Server {
    const urlPrefix: string
    const implementsResponse: ResponseProbe
    var preInterceptors: seq<Interceptor>
    var postInterceptors: seq<Interceptor>
    var services: seq<ServiceEntry>
    const router: Router

    constructor (urlPrefix: string, implementsResponse: ResponseProbe)
      ensures this.urlPrefix == urlPrefix
      ensures preInterceptors == [] && postInterceptors == [] && services == []
      ensures fresh(router) && router.routes == []
    {
      this.urlPrefix := urlPrefix;
      this.implementsResponse := implementsResponse;
      preInterceptors, postInterceptors, services := [], [], [];
      router := new Router();
    }

    method BindPreInterceptor(handlerFuncs: seq<Interceptor>)
      modifies this
      ensures preInterceptors == old(preInterceptors) + handlerFuncs
      ensures postInterceptors == old(postInterceptors) && services == old(services)
    {
      preInterceptors := preInterceptors + handlerFuncs;
    }

    method BindPostInterceptor(handlerFuncs: seq<Interceptor>)
      modifies this
      ensures postInterceptors == old(postInterceptors) + handlerFuncs
      ensures preInterceptors == old(preInterceptors) && services == old(services)
    {
      postInterceptors := postInterceptors + handlerFuncs;
    }

    /** Bind's first loop: the actions map of the methods of one type. */
    method CollectActions(methods: seq<MethodSig>, typeName: string) returns (actions: map<string, Descriptor>)
      ensures actions == ActionTable(methods, typeName, implementsResponse)
      ensures KeyedByName(actions)
    {
      actions := map[];
      var f := 0;
      while f < |methods|
        invariant 0 <= f <= |methods|
        invariant actions == ActionTable(methods[..f], typeName, implementsResponse)
      {
        assert methods[..f + 1][..f] == methods[..f];
        var method_ := methods[f];
        if IsExported(method_.name) {
          var parsed := ParseMethodName(typeName, method_.name);
          var out := CheckOutParams(method_.outs, implementsResponse);
          if out.ok {
            var inParam := InitInParams(method_.ins);
            if inParam.Some? {
              actions := actions[method_.name := Descriptor(method_.name, parsed.verb, parsed.resource,
                                                            parsed.action, out.numParams, inParam.value, method_.ins)];
            }
          }
        }
        f := f + 1;
      }
      assert methods[..f] == methods;
      ActionTableSpec(methods, typeName, implementsResponse);
    }

    /** Bind refuses anything but a non-nil pointer to a struct, with an
        error whose cause is the invalid-instance sentinel, and then leaves
        the services alone. Otherwise it appends one entry per entry of the
        actions map, in no particular order: the new entries are pairwise
        distinct and are exactly the entries of the map, and the earlier
        entries stay as they were. */
    method Bind(service: ServiceValue) returns (err: Option<Error>)
      modifies this
      ensures preInterceptors == old(preInterceptors) && postInterceptors == old(postInterceptors)
      ensures err.Some? <==> !IsStructPointer(service)
      ensures err.Some? ==> err.value == BindError(service) && err.value.Cause() == InvalidInstance
      ensures err.Some? ==> services == old(services)
      ensures err.None? ==>
                var table := ActionTable(service.methods, TypeNameOf(service), implementsResponse);
                |services| == |old(services)| + |table| &&
                services[..|old(services)|] == old(services) &&
                (forall e :: e in services[|old(services)|..] <==> e in Entries(table, urlPrefix)) &&
                (forall i, j :: |old(services)| <= i < j < |services| ==> services[i] != services[j])
      ensures err.None? && DistinctNames(service.methods) ==>
                |services| == |old(services)| + QualifyingCount(service.methods, TypeNameOf(service), implementsResponse)
    {
      if !IsStructPointer(service) {
        err := Some(BindError(service));
        return;
      }
      err := None;
      var actions := CollectActions(service.methods, service.typ.elem.name);
      var added := EntriesInMapOrder(actions, urlPrefix);
      services := services + added;
      if DistinctNames(service.methods) {
        ActionTableSize(service.methods, service.typ.elem.name, implementsResponse);
      }
      assert services[..|old(services)|] == old(services) && services[|old(services)|..] == added;
    }

    /** makeRoutes' loop: one route per service, in order, up to the
        first whose verb and path are taken, the n-th. */
    method RegisterServices() returns (ok: bool, n: nat)
      modifies router
      ensures var rs := ServiceRoutes(services);
              (ok <==> Registrable(old(router.routes), rs)) &&
              (ok ==> router.routes == old(router.routes) + rs) &&
              (!ok ==> n < |rs| && router.routes == old(router.routes) + rs[..n] && KeyTaken(router.routes, RouteKey(rs[n])))
    {
      ghost var rs := ServiceRoutes(services);
      var i := 0;
      while i < |services|
        invariant 0 <= i <= |services| && |rs| == |services|
        invariant router.routes == old(router.routes) + rs[..i]
        invariant Registrable(old(router.routes), rs[..i])
      {
        var item := services[i];
        assert rs[i] == Route(item.verb, item.relativePath, ActionHandler(item.handler));
        ok := router.Handle(Route(item.verb, item.relativePath, ActionHandler(item.handler)));
        if !ok {
          ClashStops(old(router.routes), rs, i);
          return false, i;
        }
        RegistrableExtends(old(router.routes), rs, i);
        assert rs[..i + 1] == rs[..i] + [rs[i]];
        i := i + 1;
      }
      assert rs[..i] == rs;
      return true, 0;
    }

    /** makeRoutes: one route per service, in order, then the exports
        route. When a verb and path come up a second time gin panics and,
        with no recover in Start, start-up fails (ok is false): the routes before
        the clashing one, the n-th, are registered and no further. */
    method MakeRoutes() returns (ok: bool, n: nat)
      modifies router
      ensures var all := ServiceRoutes(services) + [Route(GET, ExportsPath(urlPrefix), ExportsHandler)];
              (ok <==> Registrable(old(router.routes), all)) &&
              (ok ==> router.routes == old(router.routes) + all) &&
              (!ok ==> n < |all| && router.routes == old(router.routes) + all[..n] && KeyTaken(router.routes, RouteKey(all[n])))
    {
      ghost var rs := ServiceRoutes(services);
      ghost var exports := Route(GET, ExportsPath(urlPrefix), ExportsHandler);
      ok, n := RegisterServices();
      if !ok {
        ClashBeforeLast(old(router.routes), rs, exports, n);
        return;
      }
      var api := "/exports";
      if |urlPrefix| > 0 {
        api := urlPrefix + api;
      }
      assert Route(GET, api, ExportsHandler) == exports;
      ghost var before := router.routes;
      ok := router.Handle(Route(GET, api, ExportsHandler));
      ExportsRouteLast(old(router.routes), rs, exports, before, router.routes, ok);
      n := |services|;
    }

    /** The body of the exports handler: the list starts with one empty
        string per service (make with a length, then append), followed by
        every service's path in order, so it is twice as long as the
        services. */
    method ServeExports() returns (apis: seq<string>)
      ensures apis == Blanks(|services|) + ExportedPaths(services)
      ensures |apis| == 2 * |services|
      ensures forall i :: 0 <= i < |services| ==> apis[i] == "" && apis[|services| + i] == services[i].relativePath
    {
      apis := Blanks(|services|);
      var i := 0;
      while i < |services|
        invariant 0 <= i <= |services|
        invariant apis == Blanks(|services|) + ExportedPaths(services[..i])
      {
        assert services[..i + 1][..i] == services[..i];
        apis := apis + [services[i].relativePath];
        i := i + 1;
      }
      assert services[..i] == services;
    }
  }
}
