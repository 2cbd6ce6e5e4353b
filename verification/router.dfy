/** `ServeHTTP` of router.go as a pure function from a router and a request
    to what happens on the response writer: the CORS headers, then either
    nothing more (OPTIONS), a 404, a 405, or one invocation of the resolved
    handler wrapped in the global middlewares. */
module Router {
  import opened Http
  import opened Paths
  import opened Tree
  import Cors
  import Middleware

  /** `Router`: the root of the route tree, the CORS policy and the global
      middlewares. */
  datatype Router<!H> = Router(root: Node<H>, cors: Cors.Cors, middlewares: seq<H -> H>)

  /** The request attributes dispatch reads: the method, the URL path and the
      `Origin` header (the empty string when absent). */
  datatype Request = Request(verb: string, path: string, origin: string)

  /** One observable step of serving a request: a write on the response
      writer, or the call of a handler with the parameters bound for it. */
  datatype Event<H> = Emit(write: Write) | Invoke(handler: H, params: map<string, string>)

  const AllowHeaders: string := "Accept, Content-Type, Content-Length, Accept-Encoding, Authorization"

  /** The three headers set on every response, in order. */
  function CorsHeaders<H>(router: Router<H>, origin: string): seq<Event<H>>
  {
    [ Emit(SetHeader("Access-Control-Allow-Origin", Cors.ValidateOrigin(router.cors, origin))),
      Emit(SetHeader("Access-Control-Allow-Methods", Cors.AllowedMethodsValue(router.cors))),
      Emit(SetHeader("Access-Control-Allow-Headers", AllowHeaders)) ]
  }

  /** What follows resolution: 404 when the path was not found, 405 when the
      path was found without the method, and otherwise one invocation of the
      found handler wrapped in the global middlewares. */
  function Conclude<H>(router: Router<H>, l: Lookup<H>): (tail: seq<Event<H>>)
    requires ValidLookup(l)
    ensures |tail| == 1
    ensures tail[0] == Emit(WriteStatus(StatusNotFound)) <==> !l.pathFound
    ensures tail[0] == Emit(WriteStatus(StatusMethodNotAllowed)) <==> l.pathFound && !l.methodFound
    ensures tail[0].Invoke? <==> l.methodFound
    ensures l.methodFound ==> tail[0] == Invoke(Middleware.Wrapped(l.handler.value, router.middlewares), l.params)
  {
    if !l.pathFound then [Emit(WriteStatus(StatusNotFound))]
    else if !l.methodFound then [Emit(WriteStatus(StatusMethodNotAllowed))]
    else [Invoke(Middleware.Wrapped(l.handler.value, router.middlewares), l.params)]
  }

  /** The outcomes after the CORS headers for each of the possible lookups. */
  function Respond<H(==)>(router: Router<H>, origin: string, found: set<Lookup<H>>): (outcomes: set<seq<Event<H>>>)
    requires forall l :: l in found ==> ValidLookup(l)
    ensures found != {} ==> outcomes != {}
    ensures forall o :: o in outcomes ==> exists l :: l in found && o == CorsHeaders(router, origin) + Conclude(router, l)
    ensures forall l :: l in found ==> CorsHeaders(router, origin) + Conclude(router, l) in outcomes
  {
    var outcomes := set l | l in found :: CorsHeaders(router, origin) + Conclude(router, l);
    assert forall l :: l in found ==> CorsHeaders(router, origin) + Conclude(router, l) in outcomes;
    outcomes
  }

  /** `ServeHTTP`: the possible event sequences for a request (more than one
      only when the route tree offers several parameter children at some
      node). */
  function ServeHTTP<H(==)>(router: Router<H>, req: Request): (outcomes: set<seq<Event<H>>>)
    ensures outcomes != {}
    ensures forall o :: o in outcomes ==> |o| == 3 || |o| == 4
    ensures forall o :: o in outcomes ==> o[..3] == CorsHeaders(router, req.origin)
    ensures req.verb == "OPTIONS" ==> outcomes == {CorsHeaders(router, req.origin)}
  {
    if req.verb == "OPTIONS" then {CorsHeaders(router, req.origin)}
    else Respond(router, req.origin, FindHandler(router.root, req.path, req.verb))
  }

  /** How many handler invocations a sequence of events contains. */
  function Invocations<H>(events: seq<Event<H>>): nat
    decreases |events|
  {
    if |events| == 0 then 0
    else (if events[0].Invoke? then 1 else 0) + Invocations(events[1..])
  }

  lemma {:induction false} InvocationsAppend<H>(a: seq<Event<H>>, b: seq<Event<H>>)
    ensures Invocations(a + b) == Invocations(a) + Invocations(b)
    decreases |a|
  {
    if |a| == 0 {
      assert a + b == b;
    } else {
      assert (a + b)[0] == a[0];
      assert (a + b)[1..] == a[1..] + b;
      InvocationsAppend(a[1..], b);
    }
  }

  /** Apart from OPTIONS, every outcome is the CORS headers followed by the
      conclusion of one possible resolution of the path and method, and every
      resolution gives one. */
  lemma ServeOutcomes<H>(router: Router<H>, req: Request)
    requires req.verb != "OPTIONS"
    ensures forall o :: o in ServeHTTP(router, req) <==>
      exists l :: l in FindHandler(router.root, req.path, req.verb) &&
        o == CorsHeaders(router, req.origin) + Conclude(router, l)
  {
  }

  /** Outcome `o` ends as lookup `l` demands: one invocation exactly when the
      method was found, 404 exactly when the path was not, 405 exactly when
      the path was found without the method. */
  ghost predicate Concludes<H>(o: seq<Event<H>>, l: Lookup<H>)
  {
    |o| == 4 &&
    (Invocations(o) == 1 <==> l.methodFound) &&
    (Invocations(o) == 0 <==> !l.methodFound) &&
    (o[3] == Emit(WriteStatus(StatusNotFound)) <==> !l.pathFound) &&
    (o[3] == Emit(WriteStatus(StatusMethodNotAllowed)) <==> l.pathFound && !l.methodFound)
  }

  /** An OPTIONS request only gets the CORS headers: no handler runs. */
  lemma {:induction false} OptionsInvokesNothing<H>(router: Router<H>, req: Request)
    requires req.verb == "OPTIONS"
    ensures forall o :: o in ServeHTTP(router, req) ==> Invocations(o) == 0
  {
    assert ServeHTTP(router, req) == {CorsHeaders(router, req.origin)};
    CorsHeadersInvokeNothing(router, req.origin);
  }

  /** Any other request invokes a handler exactly once when the method was
      found, and never otherwise, in which case it writes 404 or 405. */
  lemma {:induction false} InvokedAtMostOnce<H>(router: Router<H>, req: Request)
    requires req.verb != "OPTIONS"
    ensures forall o :: o in ServeHTTP(router, req) ==>
      exists l :: l in FindHandler(router.root, req.path, req.verb) && Concludes(o, l)
  {
    var found := FindHandler(router.root, req.path, req.verb);
    forall o | o in ServeHTTP(router, req)
      ensures exists l :: l in found && Concludes(o, l)
    {
      assert o in Respond(router, req.origin, found);
      var l :| l in found && o == CorsHeaders(router, req.origin) + Conclude(router, l);
      ConcludeAfterCors(router, req.origin, l);
    }
  }

  lemma CorsHeadersInvokeNothing<H>(router: Router<H>, origin: string)
    ensures Invocations(CorsHeaders(router, origin)) == 0
  {
    NoInvokeEventsCountZero(CorsHeaders(router, origin));
  }

  lemma {:induction false} NoInvokeEventsCountZero<H>(events: seq<Event<H>>)
    requires forall i :: 0 <= i < |events| ==> events[i].Emit?
    ensures Invocations(events) == 0
    decreases |events|
  {
    if |events| > 0 {
      NoInvokeEventsCountZero(events[1..]);
    }
  }

  lemma ConcludeAfterCors<H>(router: Router<H>, origin: string, l: Lookup<H>)
    requires ValidLookup(l)
    ensures Concludes(CorsHeaders(router, origin) + Conclude(router, l), l)
  {
    var cors := CorsHeaders(router, origin);
    var tail := Conclude(router, l);
    CorsHeadersInvokeNothing(router, origin);
    InvocationsAppend(cors, tail);
    assert tail[1..] == [];
    assert Invocations(tail) == (if tail[0].Invoke? then 1 else 0);
    assert (cors + tail)[3] == tail[0];
  }

  /** A request whose path spells a literal route invokes the handler
      registered there for its method, wrapped in the global middlewares, with
      no parameters; it gets a 405 when the route has no handler for the
      method. */
  lemma LiteralRequestDispatch<H>(router: Router<H>, req: Request)
    requires req.verb != "OPTIONS"
    requires Descend(router.root, ExplodePath(req.path)).Some?
    ensures var m, cors := Descend(router.root, ExplodePath(req.path)).value, CorsHeaders(router, req.origin);
      ServeHTTP(router, req) ==
        if req.verb in m.actions then {cors + [Invoke(Middleware.Wrapped(m.actions[req.verb], router.middlewares), map[])]}
        else {cors + [Emit(WriteStatus(StatusMethodNotAllowed))]}
  {
    var m := Descend(router.root, ExplodePath(req.path)).value;
    var cors := CorsHeaders(router, req.origin);
    LiteralPathResolves(router.root, req.path, req.verb);
    var l := AtNode(m, req.verb, map[]);
    assert FindHandler(router.root, req.path, req.verb) == {l};
    SingleResolution(router, req, l);
  }

  lemma SingleResolution<H>(router: Router<H>, req: Request, l: Lookup<H>)
    requires req.verb != "OPTIONS"
    requires FindHandler(router.root, req.path, req.verb) == {l}
    ensures ServeHTTP(router, req) == {CorsHeaders(router, req.origin) + Conclude(router, l)}
  {
    RespondSingle(router, req.origin, l);
  }

  lemma RespondSingle<H>(router: Router<H>, origin: string, l: Lookup<H>)
    requires ValidLookup(l)
    ensures Respond(router, origin, {l}) == {CorsHeaders(router, origin) + Conclude(router, l)}
  {
  }

  /** On a tree with at most one parameter child per node, a request has a
      single outcome. */
  lemma {:induction false} UnambiguousServeIsDeterministic<H>(router: Router<H>, req: Request)
    requires Unambiguous(router.root)
    ensures |ServeHTTP(router, req)| == 1
  {
    if req.verb != "OPTIONS" {
      var found := FindHandler(router.root, req.path, req.verb);
      assert |found| == 1 by {
        if req.path != "/" {
          UnambiguousIsDeterministic(router.root, ExplodePath(req.path), req.verb, map[]);
        }
      }
      var l :| l in found;
      SingletonHasOnlyItsElement(found, l);
      SingleResolution(router, req, l);
    }
  }

  lemma SingletonHasOnlyItsElement<T>(s: set<T>, x: T)
    requires |s| == 1 && x in s
    ensures s == {x}
  {
    assert |s - {x}| == 0;
  }
}
