/** Global middlewares (router.go `SetGlobalMiddlewares`): each middleware
    decorates a handler, and the list is applied in order, so the last one in
    the list ends up outermost. */
module Middleware {

  /** The decorated handler for `[m1, ..., mn]`: `mn(...m1(h)...)`. */
  function Wrapped<H>(h: H, middlewares: seq<H -> H>): H
    decreases |middlewares|
  {
    if |middlewares| == 0 then h
    else
      var last := |middlewares| - 1;
      middlewares[last](Wrapped(h, middlewares[..last]))
  }

  /** `SetGlobalMiddlewares`: the Go loop `handler = midd(handler)` over the
      list, which builds exactly the nesting `mn(...m1(h)...)`. */
  method SetGlobalMiddlewares<H>(handler: H, middlewares: seq<H -> H>) returns (wrapped: H)
    ensures wrapped == Wrapped(handler, middlewares)
  {
    wrapped := handler;
    var i := 0;
    while i < |middlewares|
      invariant 0 <= i <= |middlewares|
      invariant wrapped == Wrapped(handler, middlewares[..i])
    {
      assert middlewares[..i + 1][..i] == middlewares[..i];
      wrapped := middlewares[i](wrapped);
      i := i + 1;
    }
    assert middlewares[..i] == middlewares;
  }

  /** No middlewares leave the handler as it is. */
  lemma WrappedEmpty<H>(h: H)
    ensures Wrapped(h, []) == h
  {
  }

  /** Wrapping with a concatenation is wrapping with the first list, then
      with the second: the later list's middlewares are further out. */
  lemma {:induction false} WrappedAppend<H>(h: H, first: seq<H -> H>, second: seq<H -> H>)
    ensures Wrapped(h, first + second) == Wrapped(Wrapped(h, first), second)
    decreases |second|
  {
    if |second| == 0 {
      assert first + second == first;
    } else {
      var all := first + second;
      var last := |second| - 1;
      assert all[..|all| - 1] == first + second[..last];
      assert all[|all| - 1] == second[last];
      WrappedAppend(h, first, second[..last]);
    }
  }

  /** With `[a, b]`, `b`'s decoration is the outermost layer: it runs first
      when the composed handler is invoked. */
  lemma WrappedPair<H>(h: H, a: H -> H, b: H -> H)
    ensures Wrapped(h, [a, b]) == b(a(h))
  {
    assert [a, b][..1] == [a];
    assert [a][..0] == [];
    assert Wrapped(h, [a]) == a(Wrapped(h, [])) == a(h);
    assert Wrapped(h, [a, b]) == b(Wrapped(h, [a]));
  }
}
