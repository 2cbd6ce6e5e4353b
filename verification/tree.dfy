/** The route tree of router.go and `findHandler`, the walk that resolves a
    request path and verb against it.

    Go's `findHandler` looks for a parameter child by ranging over a map, so
    when a node has several parameter children the one taken depends on the
    map's iteration order. The walk is therefore modelled as the SET of
    lookups it may return, one per possible choice; a tree with at most one
    parameter child per node has exactly one. */
module Tree {
  import opened Wrappers
  import opened Paths

  /** `Node`: the label that reached it (`path`), its handlers by verb
      (`actions`) and its children by label. */
  datatype Node<H> = Node(path: string, actions: map<string, H>, children: map<string, Node<H>>)

  /** What `findHandler` returns, `(handler, pathFound, methodFound)`, together
      with the request parameters it bound on the way. */
  datatype Lookup<H> = Lookup(handler: Option<H>, pathFound: bool, methodFound: bool, params: map<string, string>)

  /** The shapes the triple can take: `methodFound` implies `pathFound`, and
      there is a handler exactly when the verb was found. */
  predicate ValidLookup<H>(l: Lookup<H>)
  {
    (l.methodFound ==> l.pathFound) && (l.handler.Some? <==> l.methodFound)
  }

  /** The parameter-form labels among the children of `n`. */
  function ParamKeys<H>(n: Node<H>): set<string>
  {
    set k | k in n.children && IsParameter(k)
  }

  /** The verb lookup at the node the walk stopped at: the stored handler
      when the verb is present, `(nil, true, false)` otherwise. */
  function AtNode<H>(n: Node<H>, verb: string, params: map<string, string>): (l: Lookup<H>)
    ensures ValidLookup(l) && l.pathFound && l.params == params
    ensures l.methodFound <==> verb in n.actions
    ensures l.methodFound ==> l.handler == Some(n.actions[verb])
  {
    if verb in n.actions then Lookup(Some(n.actions[verb]), true, true, params)
    else Lookup(None, true, false, params)
  }

  /** The walk over the remaining `labels` from node `n`. An exact child is
      taken first; failing that, the walk stops if `n`'s own label equals the
      segment; failing that, it falls back to a parameter child; with none of
      these it is a 404. */
  function Walk<H(==)>(n: Node<H>, labels: seq<string>, verb: string, params: map<string, string>): (found: set<Lookup<H>>)
    ensures found != {}
    ensures forall l :: l in found ==> ValidLookup(l)
    decreases |labels|, 1
  {
    if |labels| == 0 then {AtNode(n, verb, params)}
    else
      var head := labels[0];
      if head in n.children then Walk(n.children[head], labels[1..], verb, params)
      else if n.path == head then {AtNode(n, verb, params)}
      else if ParamKeys(n) == {} then {Lookup(None, false, false, params)}
      else
        var found := set k, l | k in ParamKeys(n) && l in ParamStep(n, k, labels, verb, params) :: l;
        assert forall k :: k in ParamKeys(n) ==> ParamStep(n, k, labels, verb, params) <= found;
        found
  }

  /** Taking parameter child `k` for the segment `labels[0]`: bind the
      brace-stripped name to the segment, then continue below the child if it
      has children, or stop at it (ignoring any remaining segments) if not. */
  function ParamStep<H(==)>(n: Node<H>, k: string, labels: seq<string>, verb: string, params: map<string, string>): (found: set<Lookup<H>>)
    requires k in n.children && |labels| > 0
    ensures found != {}
    ensures forall l :: l in found ==> ValidLookup(l)
    decreases |labels|, 0
  {
    var child := n.children[k];
    var bound := params[ClearParam(k) := labels[0]];
    if |child.children| > 0 then Walk(child, labels[1..], verb, bound)
    else {AtNode(child, verb, bound)}
  }

  /** `findHandler`: the path `/` is looked up at the root directly, any other
      path is exploded and walked from the root with no parameters bound. */
  function FindHandler<H(==)>(root: Node<H>, path: string, verb: string): (found: set<Lookup<H>>)
    ensures found != {}
    ensures forall l :: l in found ==> ValidLookup(l)
  {
    if path != "/" then Walk(root, ExplodePath(path), verb, map[])
    else {AtNode(root, verb, map[])}
  }

  /** The node reached by following exact children only, if every label has
      one. */
  function Descend<H>(n: Node<H>, labels: seq<string>): Option<Node<H>>
    decreases |labels|
  {
    if |labels| == 0 then Some(n)
    else if labels[0] in n.children then Descend(n.children[labels[0]], labels[1..])
    else None
  }

  /** A path with no labels, `/`, the empty path or slashes only, is looked up
      at the root, so the outcome depends only on the root's handler for the
      verb. */
  lemma FindHandlerAtRoot<H>(root: Node<H>, path: string, verb: string)
    requires forall i :: 0 <= i < |path| ==> path[i] == '/'
    ensures FindHandler(root, path, verb) == {AtNode(root, verb, map[])}
  {
    ExplodeEmptyIffSlashes(path);
  }

  /** A route spelled entirely with literal children resolves to the node it
      spells, whatever parameter siblings exist on the way: exact children are
      always taken first, so no parameter is bound. */
  lemma {:induction false} LiteralRouteResolves<H>(n: Node<H>, labels: seq<string>, verb: string, params: map<string, string>)
    requires Descend(n, labels).Some?
    ensures Walk(n, labels, verb, params) == {AtNode(Descend(n, labels).value, verb, params)}
    decreases |labels|
  {
    if |labels| > 0 {
      LiteralRouteResolves(n.children[labels[0]], labels[1..], verb, params);
    }
  }

  /** The same at the level of request paths: a path whose labels spell a
      literal route from the root gives the handler stored there for the
      verb, or `(nil, true, false)` if there is none. */
  lemma LiteralPathResolves<H>(root: Node<H>, path: string, verb: string)
    requires Descend(root, ExplodePath(path)).Some?
    ensures var m := Descend(root, ExplodePath(path)).value;
      FindHandler(root, path, verb) == {AtNode(m, verb, map[])}
  {
    if path == "/" {
      RootPathHasNoLabels();
    } else {
      LiteralRouteResolves(root, ExplodePath(path), verb, map[]);
    }
  }

  /** With no exact child and no self-label stop, the possible outcomes are
      exactly those of taking one of the parameter children, or a 404 when
      there is none. */
  lemma ParameterFallback<H>(n: Node<H>, labels: seq<string>, verb: string, params: map<string, string>)
    requires |labels| > 0 && labels[0] !in n.children && n.path != labels[0]
    ensures ParamKeys(n) == {} ==> Walk(n, labels, verb, params) == {Lookup(None, false, false, params)}
    ensures forall l :: l in Walk(n, labels, verb, params) && ParamKeys(n) != {} <==>
      exists k :: k in ParamKeys(n) && l in ParamStep(n, k, labels, verb, params)
  {
  }

  /** With a single parameter child `k`, its brace-stripped name is bound to
      the current segment and the walk continues below `k`, or stops at `k`,
      ignoring the rest of the path, when `k` has no children. */
  lemma ParameterBinds<H>(n: Node<H>, k: string, labels: seq<string>, verb: string, params: map<string, string>)
    requires |labels| > 0 && labels[0] !in n.children && n.path != labels[0]
    requires ParamKeys(n) == {k}
    ensures var child, bound := n.children[k], params[ClearParam(k) := labels[0]];
      Walk(n, labels, verb, params) ==
        if |child.children| > 0 then Walk(child, labels[1..], verb, bound)
        else {AtNode(child, verb, bound)}
  {
    var found := Walk(n, labels, verb, params);
    var step := ParamStep(n, k, labels, verb, params);
    assert k in ParamKeys(n);
    assert found == step by {
      forall l | l in found ensures l in step {
        var k' :| k' in ParamKeys(n) && l in ParamStep(n, k', labels, verb, params);
        assert k' == k;
      }
    }
  }

  /** The self-label guard: when a segment has no exact child but equals the
      current node's own label, the walk stops there and the remaining
      segments are ignored. */
  lemma SelfLabelStops<H>(n: Node<H>, labels: seq<string>, verb: string, params: map<string, string>)
    requires |labels| > 0 && labels[0] !in n.children && n.path == labels[0]
    ensures Walk(n, labels, verb, params) == {AtNode(n, verb, params)}
  {
  }

  /** Every node of the tree has at most one parameter child. */
  predicate Unambiguous<H>(n: Node<H>)
  {
    |ParamKeys(n)| <= 1 &&
    forall k :: k in n.children ==> Unambiguous(n.children[k])
  }

  /** On a tree with at most one parameter child per node the walk has
      exactly one outcome: map iteration order cannot matter. */
  lemma {:induction false} UnambiguousIsDeterministic<H>(n: Node<H>, labels: seq<string>, verb: string, params: map<string, string>)
    requires Unambiguous(n)
    ensures |Walk(n, labels, verb, params)| == 1
    decreases |labels|
  {
    if |labels| > 0 {
      var head := labels[0];
      if head in n.children {
        UnambiguousIsDeterministic(n.children[head], labels[1..], verb, params);
      } else if n.path != head && ParamKeys(n) != {} {
        var k :| k in ParamKeys(n);
        assert ParamKeys(n) == {k} by {
          assert |ParamKeys(n) - {k}| == |ParamKeys(n)| - 1;
          assert ParamKeys(n) - {k} == {};
        }
        ParameterBinds(n, k, labels, verb, params);
        var child := n.children[k];
        if |child.children| > 0 {
          UnambiguousIsDeterministic(child, labels[1..], verb, params[ClearParam(k) := labels[0]]);
        }
      }
    }
  }

  /** Every handler stored anywhere in the tree. */
  ghost function Handlers<H>(n: Node<H>): set<H>
  {
    n.actions.Values + set k, h | k in n.children && h in Handlers(n.children[k]) :: h
  }

  lemma ChildHandlersAreHandlers<H>(n: Node<H>, k: string)
    requires k in n.children
    ensures Handlers(n.children[k]) <= Handlers(n)
  {
  }

  /** The walk never invents a handler: a found handler is stored somewhere
      in the tree. */
  lemma {:induction false} WalkHandlerIsStored<H>(n: Node<H>, labels: seq<string>, verb: string, params: map<string, string>)
    ensures forall l :: l in Walk(n, labels, verb, params) && l.methodFound ==> l.handler.value in Handlers(n)
    decreases |labels|, 1
  {
    if |labels| > 0 {
      var head := labels[0];
      if head in n.children {
        WalkHandlerIsStored(n.children[head], labels[1..], verb, params);
        ChildHandlersAreHandlers(n, head);
      } else if n.path != head && ParamKeys(n) != {} {
        forall l | l in Walk(n, labels, verb, params) && l.methodFound
          ensures l.handler.value in Handlers(n)
        {
          var k :| k in ParamKeys(n) && l in ParamStep(n, k, labels, verb, params);
          ParamStepHandlerIsStored(n, k, labels, verb, params, l);
        }
      }
    }
  }

  lemma {:induction false} ParamStepHandlerIsStored<H>(n: Node<H>, k: string, labels: seq<string>, verb: string, params: map<string, string>, l: Lookup<H>)
    requires k in n.children && |labels| > 0
    requires l in ParamStep(n, k, labels, verb, params) && l.methodFound
    ensures l.handler.value in Handlers(n)
    decreases |labels|, 0
  {
    var child := n.children[k];
    ChildHandlersAreHandlers(n, k);
    if |child.children| > 0 {
      WalkHandlerIsStored(child, labels[1..], verb, params[ClearParam(k) := labels[0]]);
    }
  }
}
