/** The CORS policy of cors/cors.go: an ordered list of allowed origins (in
    which `*` allows every origin) and an ordered list of allowed methods. */
module Cors {
  import opened Strings

  datatype Config = Config(origins: seq<string>, methods: seq<string>)

  datatype Cors = Cors(config: Config)

  /** `New`: a policy holding the given configuration. */
  function New(config: Config): (c: Cors)
    ensures c.config.origins == config.origins && c.config.methods == config.methods
  {
    Cors(config)
  }

  /** The first-match scan of `ValidateOrigin` over `origins`: at each entry,
      `*` answers `*`, an entry equal to the request origin answers itself,
      and running off the end answers the empty string. */
  function FirstMatch(origins: seq<string>, requestOrigin: string): (allowed: string)
    ensures allowed == "" || allowed == "*" || allowed in origins
    decreases |origins|
  {
    if |origins| == 0 then ""
    else if origins[0] == "*" then "*"
    else if requestOrigin == origins[0] then origins[0]
    else FirstMatch(origins[1..], requestOrigin)
  }

  /** `ValidateOrigin`: the value of the `Access-Control-Allow-Origin`
      header for a request from `requestOrigin`. */
  function ValidateOrigin(cors: Cors, requestOrigin: string): (allowed: string)
    ensures allowed == "" || allowed == "*" || allowed in cors.config.origins
  {
    FirstMatch(cors.config.origins, requestOrigin)
  }

  /** A `*` entry that comes before any entry equal to the request origin
      makes the answer `*`. */
  lemma {:induction false} WildcardFirstWins(origins: seq<string>, requestOrigin: string, i: nat)
    requires i < |origins| && origins[i] == "*"
    requires forall j :: 0 <= j < i ==> origins[j] != requestOrigin
    ensures FirstMatch(origins, requestOrigin) == "*"
    decreases i
  {
    if i > 0 && origins[0] != "*" {
      WildcardFirstWins(origins[1..], requestOrigin, i - 1);
    }
  }

  /** An entry equal to the request origin that comes before any `*` is
      returned as the answer. */
  lemma {:induction false} ExactFirstWins(origins: seq<string>, requestOrigin: string, i: nat)
    requires i < |origins| && origins[i] == requestOrigin
    requires forall j :: 0 <= j < i ==> origins[j] != "*"
    ensures FirstMatch(origins, requestOrigin) == requestOrigin
    decreases i
  {
    if i > 0 && origins[0] != requestOrigin {
      ExactFirstWins(origins[1..], requestOrigin, i - 1);
    }
  }

  /** With neither `*` nor the request origin in the list (in particular
      with an empty list) the answer is the empty string. */
  lemma {:induction false} NoMatchIsEmpty(origins: seq<string>, requestOrigin: string)
    requires "*" !in origins && requestOrigin !in origins
    ensures FirstMatch(origins, requestOrigin) == ""
    decreases |origins|
  {
    if |origins| > 0 {
      assert origins[0] != "*" && origins[0] != requestOrigin;
      NoMatchIsEmpty(origins[1..], requestOrigin);
    }
  }

  /** The value of the `Access-Control-Allow-Methods` header: the methods
      joined by commas. */
  function AllowedMethodsValue(cors: Cors): string
  {
    Join(cors.config.methods, ',')
  }

  /** `AllowedMethods`: the Go loop appending each method, and a comma after
      every method but the last. */
  method AllowedMethods(cors: Cors) returns (methods: string)
    ensures methods == Join(cors.config.methods, ',')
  {
    var list := cors.config.methods;
    methods := "";
    var i := 0;
    while i < |list|
      invariant 0 <= i <= |list|
      invariant i == 0 ==> methods == ""
      invariant 0 < i < |list| ==> methods == Join(list[..i], ',') + ","
      invariant 0 < i == |list| ==> methods == Join(list[..i], ',')
    {
      if i > 0 {
        JoinSnoc(list[..i], list[i], ',');
        assert list[..i + 1] == list[..i] + [list[i]];
      } else {
        assert list[..1] == [list[0]];
      }
      methods := methods + list[i];
      if i < |list| - 1 {
        methods := methods + ",";
      }
      i := i + 1;
    }
    assert list[..i] == list;
  }

  /** No methods give the empty header value and one method gives itself;
      otherwise the value starts with the first method and ends with the
      last, with no comma before or after. */
  lemma AllowedMethodsShape(cors: Cors)
    ensures |cors.config.methods| == 0 ==> AllowedMethodsValue(cors) == ""
    ensures |cors.config.methods| == 1 ==> AllowedMethodsValue(cors) == cors.config.methods[0]
    ensures |cors.config.methods| > 0 ==>
      var value, ms := AllowedMethodsValue(cors), cors.config.methods;
      ms[0] <= value && |ms[|ms| - 1]| <= |value| && value[|value| - |ms[|ms| - 1]|..] == ms[|ms| - 1]
  {
    if |cors.config.methods| > 0 {
      JoinEnds(cors.config.methods, ',');
    }
  }

  /** When no method contains a comma, splitting the header value on commas
      recovers the configured list, in order. */
  lemma AllowedMethodsRoundTrip(cors: Cors)
    requires |cors.config.methods| > 0
    requires forall i :: 0 <= i < |cors.config.methods| ==> ',' !in cors.config.methods[i]
    ensures Split(AllowedMethodsValue(cors), ',') == cors.config.methods
  {
    SplitJoin(cors.config.methods, ',');
  }
}
