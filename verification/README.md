# goroot request dispatch, modelled in Dafny

This project models the request-dispatch core of goroot, a small Go HTTP router, and proves properties of the model:

- the route tree (`Node`) and `findHandler`, which resolves a path and method to `(handler, pathFound, methodFound)` and binds `{name}` parameters on the way;
- the path helpers `explodePath`, `isParameter` and `clearParam`;
- the left fold of global middlewares (`SetGlobalMiddlewares`);
- `ServeHTTP` as a pure function. A request maps to the events on the response writer: three CORS headers, then nothing more for OPTIONS, a 404, a 405, or one call of the wrapped handler;
- the CORS policy (`ValidateOrigin`, `AllowedMethods`);
- the handler context of `root.go`: the chainable status setters, the status choice in `Send` and `Json`, and the file list of `RenderTempate`;
- `NewPages`, which builds the template path list.

Modules follow the source: `Strings` (the one-character `strings.Split`/`strings.Join`), `Paths` and `Tree` (router.go helpers and `findHandler`), `Middleware`, `Router` (`ServeHTTP`), `Cors`, `Pages`, `Root` (root.go), plus `Wrappers`/`Http` (option type, response-writer calls). `Scenarios` works through the routes `GET /users/me` and `GET /users/{userId}`.

Go's `findHandler` finds a parameter child by ranging over a map, so when a node has several parameter children, the one taken depends on map iteration order. The model does not pick an order. `Tree.Walk` returns the set of lookups the Go code may produce, one per parameter child it could pick. `Router.ServeHTTP` likewise returns the set of possible event sequences. `Tree.UnambiguousIsDeterministic` proves that a tree with at most one parameter child per node has exactly one outcome.

`ValidateOrigin` is first-match: it returns the first entry that is `*` or equal to the request origin, so an exact origin listed before `*` is answered with itself (`Cors.ExactFirstWins`).

`RequestParams` is declared `map[string]string` in root.go:20 but created as `map[string]any` in router.go:127. Parameters are modelled as `map<string, string>`.

`isParameter` uses an unanchored regular expression, so any label containing `{`, a non-`}` character and later a `}` is a parameter label; `x{id}` is one. `clearParam` then strips only braces at the two ends, so the bound name of `x{id}` is `x{id`. The model keeps both behaviours (`Paths.IsParameterMatchesPattern`, `Paths.ClearParam`).

## Model

| member | source | states |
|---|---|---|
| Strings.Split | router.go:166 | the pieces between separators: at least one piece, none containing the separator |
| Strings.JoinSplit | router.go:166 | joining the pieces back with the separator restores the string, so no character is lost or reordered |
| Strings.SplitCount | router.go:166 | there is exactly one more piece than separators in the string |
| Strings.NonEmpty | router.go:170-176 | every kept piece is non-empty, and a string is kept iff it is a non-empty input piece |
| Strings.NonEmptyConcat | router.go:170-176 | filtering distributes over concatenation, so the kept pieces keep their order and multiplicity |
| Strings.SplitConcat | router.go:166 | the pieces of `x/y` are the pieces of `x` followed by the pieces of `y` |
| Paths.ExplodePath | router.go:164-179 | every label is non-empty and contains no `/` |
| Paths.ExplodeConcat | router.go:164-179 | for any path `x/y`, the labels are those of `x` followed by those of `y`; doubled, leading and trailing slashes add nothing |
| Paths.ExplodePiece | router.go:164-179 | a slash-free piece explodes to itself, or to nothing when empty; with `Paths.ExplodeConcat` this fixes the labels of every path, in order |
| Paths.ExplodeJoinPath | router.go:164-179 | exploding `/l1/.../ln` returns exactly `[l1, ..., ln]`, in order, for non-empty slash-free labels |
| Paths.ExplodeEmptyIffSlashes | router.go:164-179 | a path has no labels if and only if it is made of slashes only (the empty path included) |
| Paths.RootPathHasNoLabels | router.go:33-35 | `/` explodes to no labels, so the `path != "/"` special case agrees with the general walk |
| Paths.IsParameterMatchesPattern | router.go:183-188 | the label scan accepts exactly the strings in which the expression `{([^}]+)}` occurs |
| Paths.ClearParam | router.go:190-193 | the result is the slice of the input left after all leading and all trailing braces are removed; it neither starts nor ends with a brace |
| Paths.ClearParamOfBraced | router.go:190-193 | `{name}` is mapped back to `name` when `name` neither starts nor ends with a brace, e.g. `{userId}` to `userId` |
| Tree.AtNode | router.go:88-94 | at the reached node, a present method gives its stored handler with `(true, true)`, a missing one `(nil, true, false)` |
| Tree.Walk | router.go:35-86 | some outcome always exists, and every outcome is a valid triple: `methodFound` implies `pathFound`, and there is a handler exactly when the method was found |
| Tree.ParamStep | router.go:50-70 | taking a parameter child yields valid triples only |
| Tree.FindHandler | router.go:29-96 | the triple is never `(_, false, true)`, and the handler is non-nil exactly when the method was found |
| Tree.FindHandlerAtRoot | router.go:29-94 | a path of slashes only (`/`, the empty path) resolves at the root; the outcome depends only on the root's handler for the method |
| Tree.LiteralRouteResolves | router.go:35-84 | a label sequence that follows exact children resolves to the node it spells, with no parameter bound, whatever parameter siblings exist |
| Tree.LiteralPathResolves | router.go:29-96 | a request path spelling a literal route gives that node's handler for the method, or `(nil, true, false)` |
| Tree.ParameterFallback | router.go:45-75 | with no exact child and no self-label stop, the outcomes are exactly those of taking some parameter child; with no parameter child the result is `(nil, false, false)` |
| Tree.ParameterBinds | router.go:50-70 | with a single parameter child, its brace-stripped name is bound to the segment. The walk continues below that child, or stops there and ignores the remaining segments when it has no children |
| Tree.SelfLabelStops | router.go:41-43 | a segment equal to the current node's own label, with no exact child, stops the walk at that node; later segments are ignored |
| Tree.UnambiguousIsDeterministic | router.go:50-60 | with at most one parameter child per node, map iteration order cannot matter: exactly one outcome |
| Tree.WalkHandlerIsStored | router.go:88-94 | a found handler is one stored in the tree; the walk never invents one |
| Middleware.SetGlobalMiddlewares | router.go:154-161 | the Go loop yields `mn(...m1(h)...)` for middlewares `[m1, ..., mn]` |
| Middleware.WrappedEmpty | router.go:154-161 | an empty middleware list leaves the handler unchanged |
| Middleware.WrappedAppend | router.go:154-161 | wrapping with `a + b` is wrapping with `a` then with `b`: later middlewares sit further out |
| Middleware.WrappedPair | router.go:154-161 | with `[A, B]` the composed handler is `B(A(h))`: `B` is outermost and runs first |
| Cors.New | cors/cors.go:12-16 | the policy holds the given origins and methods |
| Cors.FirstMatch | cors/cors.go:18-34 | the answer is `""`, `"*"` or an element of the origin list |
| Cors.ValidateOrigin | cors/cors.go:18-34 | the allowed-origin header value is `""`, `"*"` or one of the configured origins |
| Cors.WildcardFirstWins | cors/cors.go:20-24 | a `*` entry before any entry equal to the request origin gives `*` |
| Cors.ExactFirstWins | cors/cors.go:20-28 | an entry equal to the request origin before any `*` is returned |
| Cors.NoMatchIsEmpty | cors/cors.go:20-32 | with neither `*` nor the request origin in the list (an empty list included) the answer is `""` |
| Cors.AllowedMethods | cors/cors.go:37-50 | the Go loop builds exactly the methods joined by `,` |
| Cors.AllowedMethodsShape | cors/cors.go:37-50 | no methods give `""` and one method gives itself. Otherwise the value starts with the first method and ends with the last, with no separator before or after |
| Cors.AllowedMethodsRoundTrip | cors/cors.go:41-47 | for a non-empty list without commas, splitting the value on `,` recovers the list in order |
| Pages.TemplateFileInjective | pages/pages.go:22 | the name can be read back off `dir/name.html`, so distinct names give distinct files |
| Pages.TemplateList | pages/pages.go:19-23 | one file per name, same length, `files[i] == dir + "/" + names[i] + ".html"` in order |
| Pages.NewPages | pages/pages.go:17-32 | base name and directory are stored unchanged; the template list has the input's length, with element `i` the file of name `i`; an empty list gives an empty list |
| Root.Status | root.go:34-38 | the context comes back with `code` stored and nothing else changed; a positive code is what `Send` will write |
| Root.OK | root.go:43-46 | stores 200, which `Send` writes; nothing else changes |
| Root.Created | root.go:48-51 | stores 201, which `Send` writes; nothing else changes |
| Root.BadRequest | root.go:55-58 | stores 400, which `Send` writes; nothing else changes |
| Root.Unauthorized | root.go:60-63 | stores 401, which `Send` writes; nothing else changes |
| Root.Forbidden | root.go:65-68 | stores 403, which `Send` writes; nothing else changes |
| Root.NotFound | root.go:70-73 | stores 404, which `Send` writes; nothing else changes |
| Root.MethodNotAllowed | root.go:75-78 | stores 405, which `Send` writes; nothing else changes |
| Root.InternalServerError | root.go:82-85 | stores 500, which `Send` writes; nothing else changes |
| Root.NotImplemented | root.go:87-90 | stores 501, which `Send` writes; nothing else changes |
| Root.Send | root.go:95-107 | writes the stored status when it is positive and 200 otherwise, then exactly the given body |
| Root.LastStatusWins | root.go:34-38 | after a chain of status calls only the last code is stored and observed by `Send`; nothing else changes |
| Root.Json | root.go:113-133 | failed encoding stores and writes 500 with an empty body. Otherwise the positive-else-200 rule applies and the payload is the body. The content type header comes first |
| Root.TemplateFiles | root.go:139-142 | the configured template files, in order, followed by `TemplatesPath/file.html` |
| Root.TemplateFilesOfNewPages | root.go:141-142 | with pages from `NewPages`, the parsed files are the template files of the configured names followed by the requested one |
| Router.Conclude | router.go:133-150 | 404 exactly when the path was not found, 405 exactly when it was found without the method, otherwise one call of the middleware-wrapped handler with the bound parameters |
| Router.Respond | router.go:130-150 | every possible lookup gives an outcome, and every outcome comes from one |
| Router.ServeHTTP | router.go:99-151 | every outcome starts with the three CORS headers in order; OPTIONS gives those headers and nothing else; there is always an outcome |
| Router.ServeOutcomes | router.go:130-150 | for non-OPTIONS requests the outcomes are exactly the CORS headers followed by the conclusion of one possible resolution |
| Router.OptionsInvokesNothing | router.go:108-110 | no outcome of an OPTIONS request invokes a handler |
| Router.InvokedAtMostOnce | router.go:130-150 | every outcome of any other request comes from a possible lookup. It invokes a handler exactly once iff the method was found, and otherwise none. It writes 404 iff the path was not found, and 405 iff the path was found without the method |
| Router.LiteralRequestDispatch | router.go:99-151 | a request on a literal route invokes that route's handler for the method, wrapped in the global middlewares, with no parameters, or gets 405 |
| Router.UnambiguousServeIsDeterministic | router.go:99-151 | with at most one parameter child per node, every request has a single outcome |
| Scenarios.ParameterIsExtracted | router.go:50-56 | `GET /users/42` against `/users/{userId}` invokes that handler with `userId` bound to `42` |
| Scenarios.LiteralBeatsParameter | router.go:37-39 | `GET /users/me` takes the literal `/users/me` route and binds nothing |
| Scenarios.MissingMethodIs405 | router.go:142-146 | `POST /users/me` on a GET-only route writes 405 |
| Scenarios.UnknownPathIs404 | router.go:71-74 | `/posts`, with no such child and no parameter child, resolves to `(nil, false, false)` |
| Scenarios.TwoLabelsWithExtraSlashes | router.go:164-179 | `/a//b/` explodes to `[a, b]` for any two labels |
| Scenarios.DoubledSlashesIgnored | router.go:164-179 | `/users//42/` explodes to `users`, `42` |
| Scenarios.WildcardAllowsAnyOrigin | cors/cors.go:22-24 | with origins `["*"]` every request origin is answered with `*` |

## Left out

- Access logging (router.go:116-122): the `log.Printf` line and the fallback from an empty `Origin` to `r.Host` only feed the log. `Request` therefore has no host.
- Network I/O: `Server`, `Default`, `New` and `Listen` in goroot.go.
- responses/responses.go: a thin wrapper over `json.Marshal` and the response writer.
- JSON encoding, template parsing and execution, and reading the request body: `parseJson`, `template.ParseFiles`, `ExecuteTemplate` and `Body` in root.go. `Root.Json` takes the encoding outcome as an `Option` payload. The payload bytes and bodies are modelled as strings.
- What the response writer does with the writes: Go's `WriteHeader` panics for codes outside 100-999, and ignores a second call. The model records the writes in order and does not interpret them.
- Route registration: the code that builds the tree and sets `Node.path` is not part of this model. Trees are built directly, so `Node.path` is an arbitrary field.
- Nil pointers: `actions` holds `*Handler` in Go, and a stored nil pointer would panic on dereference. A nil `pages`, `cors` or `middlewares` pointer would panic too. The model stores values, so none of these can be nil.
- Pointer sharing: `Status` and the named setters mutate the context through a pointer and return it. The model returns the updated context value instead. `RenderTempate` appends to the shared `Templates` slice, which can write into spare capacity of the backing array that concurrent requests share. The value-semantics model cannot express that.
- On a 404 the Go code may already have written parameters into `RequestParams`. The model keeps them in the lookup, but nothing reads them, because no handler runs.
- Cors.ValidateOrigin: its own contract states only the range of answers. The first-match rules are proved about `Cors.FirstMatch`, which it returns unchanged.
- Strings.NonEmpty: its own contract states membership only. Order and multiplicity of the kept pieces are proved in `Strings.NonEmptyConcat` and `Strings.NonEmptyOne`.
- Paths.ExplodePath: its own contract states the shape of each label only. The exact labels, in order, for every path are proved in `Paths.ExplodeConcat` and `Paths.ExplodePiece`.
