/** Concrete routing scenarios on a small tree with the routes
    `GET /users/me` and `GET /users/{userId}`, handlers being numbers. */
module Scenarios {
  import opened Wrappers
  import opened Http
  import opened Paths
  import opened Tree
  import opened Router
  import Cors

  const Me: Node<int> := Node("me", map["GET" := 1], map[])
  const User: Node<int> := Node("{userId}", map["GET" := 2], map[])
  const Users: Node<int> := Node("users", map[], map["me" := Me, "{userId}" := User])
  const Top: Node<int> := Node("/", map[], map["users" := Users])

  function Policy(): Cors.Cors
  {
    Cors.New(Cors.Config(["*"], ["GET", "POST", "PUT", "PATCH", "DELETE"]))
  }

  /** `GET /users/42` binds `userId` to `"42"` and invokes handler 2 with
      that binding, wrapped in the (here empty) middleware list. */
  lemma ParameterIsExtracted()
    ensures ServeHTTP(Router(Top, Policy(), []), Request("GET", "/users/42", "")) ==
      {CorsHeaders(Router(Top, Policy(), []), "") + [Invoke(2, map["userId" := "42"])]}
  {
    var router := Router(Top, Policy(), []);
    var req := Request("GET", "/users/42", "");
    assert ExplodePath("/users/42") == ["users", "42"] by {
      ExplodeJoinPath(["users", "42"]);
      assert JoinPath(["users", "42"]) == "/users/42";
    }
    var bound := map["userId" := "42"];
    var l := AtNode(User, "GET", bound);
    UserBindsFortyTwo();
    assert ["users", "42"][1..] == ["42"];
    assert Walk(Top, ["users", "42"], "GET", map[]) == {l};
    assert FindHandler(Top, "/users/42", "GET") == {l};
    SingleResolution(router, req, l);
    assert Conclude(router, l) == [Invoke(2, bound)];
  }

  lemma UserBindsFortyTwo()
    ensures Walk(Users, ["42"], "GET", map[]) == {AtNode(User, "GET", map["userId" := "42"])}
  {
    UserIsOnlyParameter();
    UserIdName();
    UsersShape();
    ParameterBinds(Users, "{userId}", ["42"], "GET", map[]);
  }

  lemma UserIdName()
    ensures ClearParam("{userId}") == "userId"
  {
    assert "{userId}" == "{" + "userId" + "}";
    ClearParamOfBraced("userId");
  }

  lemma UsersShape()
    ensures "42" !in Users.children && Users.path != "42"
    ensures Users.children["{userId}"] == User && |User.children| == 0
  {
  }

  lemma UserIsOnlyParameter()
    ensures ParamKeys(Users) == {"{userId}"}
  {
    assert "{userId}"[2..][5] == '}';
    assert IsParameter("{userId}") && !IsParameter("me");
    assert Users.children.Keys == {"me", "{userId}"};
  }

  lemma UsersMeLabels()
    ensures ExplodePath("/users/me") == ["users", "me"]
  {
    ExplodeJoinPath(["users", "me"]);
    assert JoinPath(["users", "me"]) == "/users/me";
  }

  /** `GET /users/me` takes the literal child: handler 1, and nothing bound
      to `userId`. */
  lemma LiteralBeatsParameter()
    ensures ServeHTTP(Router(Top, Policy(), []), Request("GET", "/users/me", "")) ==
      {CorsHeaders(Router(Top, Policy(), []), "") + [Invoke(1, map[])]}
  {
    UsersMeLabels();
    assert Descend(Top, ["users", "me"]) == Some(Me);
    LiteralRequestDispatch(Router(Top, Policy(), []), Request("GET", "/users/me", ""));
  }

  /** `POST /users/me` finds the path but not the method: 405. */
  lemma MissingMethodIs405()
    ensures ServeHTTP(Router(Top, Policy(), []), Request("POST", "/users/me", "")) ==
      {CorsHeaders(Router(Top, Policy(), []), "") + [Emit(WriteStatus(405))]}
  {
    UsersMeLabels();
    assert Descend(Top, ["users", "me"]) == Some(Me);
    LiteralRequestDispatch(Router(Top, Policy(), []), Request("POST", "/users/me", ""));
  }

  /** `GET /posts` has no child at the root and no parameter to fall back on:
      404. */
  lemma UnknownPathIs404()
    ensures FindHandler(Top, "/posts", "GET") == {Lookup(None, false, false, map[])}
  {
    assert ExplodePath("/posts") == ["posts"] by {
      ExplodeJoinPath(["posts"]);
      assert JoinPath(["posts"]) == "/posts";
    }
    assert ParamKeys(Top) == {} by {
      assert !IsParameter("rs") && !IsParameter("ers") && !IsParameter("sers");
      assert !IsParameter("users");
      assert Top.children.Keys == {"users"};
    }
    assert "posts" !in Top.children;
    assert Walk(Top, ["posts"], "GET", map[]) == {Lookup(None, false, false, map[])};
  }

  /** Doubled and trailing slashes add no labels: `/users//42/` is looked up
      as `users`, `42`. */
  lemma DoubledSlashesIgnored()
    ensures ExplodePath("/users//42/") == ["users", "42"]
  {
    TwoLabelsWithExtraSlashes("users", "42");
    assert "/" + "users" + "//" + "42" + "/" == "/users//42/";
  }

  lemma TwoLabelsWithExtraSlashes(a: string, b: string)
    requires IsLabel(a) && IsLabel(b)
    ensures ExplodePath("/" + a + "//" + b + "/") == [a, b]
  {
    var e: string := [];
    var none, la, lb := ExplodePath(e), ExplodePath(a), ExplodePath(b);
    ExplodePiece(e);
    ExplodePiece(a);
    ExplodePiece(b);
    var p1 := b + "/" + e;
    ExplodeConcat(b, e);
    assert ExplodePath(p1) == lb + none == [b];
    var p2 := e + "/" + p1;
    ExplodeConcat(e, p1);
    assert ExplodePath(p2) == none + [b] == [b];
    var p3 := a + "/" + p2;
    ExplodeConcat(a, p2);
    assert ExplodePath(p3) == la + [b] == [a, b];
    var p4 := e + "/" + p3;
    ExplodeConcat(e, p3);
    assert ExplodePath(p4) == none + [a, b] == [a, b];
    assert p4 == "/" + a + "//" + b + "/";
  }

  /** With origins `["*"]` every origin is answered with `*`. */
  lemma WildcardAllowsAnyOrigin(origin: string)
    ensures Cors.ValidateOrigin(Policy(), origin) == "*"
  {
    Cors.WildcardFirstWins(["*"], origin, 0);
  }
}
