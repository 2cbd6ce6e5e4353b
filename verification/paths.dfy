/** The path helpers of the router (router.go): cutting a request path into
    segment labels, recognising a `{name}` parameter label, and stripping its
    braces. */
module Paths {
  import opened Strings

  /** A label is what the tree is keyed by: non-empty, no `/` inside. */
  predicate IsLabel(s: string)
  {
    s != "" && '/' !in s
  }

  /** `explodePath`: split on `/` and drop the empty pieces. */
  function ExplodePath(path: string): (labels: seq<string>)
    ensures forall i :: 0 <= i < |labels| ==> IsLabel(labels[i])
  {
    var pieces := Split(path, '/');
    var labels := NonEmpty(pieces);
    assert forall i :: 0 <= i < |labels| ==> labels[i] in pieces;
    labels
  }

  /** The canonical path of a label sequence: a leading `/` and the labels
      separated by `/`. */
  function JoinPath(labels: seq<string>): string
  {
    "/" + Join(labels, '/')
  }

  /** Exploding the canonical path of well-formed labels gives the labels
      back, in order. */
  lemma ExplodeJoinPath(labels: seq<string>)
    requires forall i :: 0 <= i < |labels| ==> IsLabel(labels[i])
    ensures ExplodePath(JoinPath(labels)) == labels
  {
    var path := JoinPath(labels);
    if |labels| == 0 {
      assert path == [] + ['/'] + "";
      SplitAfterPiece([], '/', "");
      assert Split("", '/') == [""];
      assert Split(path, '/') == ["", ""];
      assert NonEmpty(["", ""]) == NonEmpty([""]) == NonEmpty([]);
    } else {
      assert path == [] + ['/'] + Join(labels, '/');
      SplitAfterPiece([], '/', Join(labels, '/'));
      SplitJoin(labels, '/');
      assert Split(path, '/') == [""] + labels;
      NonEmptyKeepsNonEmpty(labels);
    }
  }

  /** Exploding works segment by segment: a path cut at any `/` explodes
      to the labels of the part before it followed by those of the part
      after it. So doubled, leading and trailing slashes contribute nothing
      and the labels keep their order, whatever the shape of the path. */
  lemma ExplodeConcat(x: string, y: string)
    ensures ExplodePath(x + "/" + y) == ExplodePath(x) + ExplodePath(y)
  {
    assert x + "/" + y == x + ['/'] + y;
    SplitConcat(x, y, '/');
    NonEmptyConcat(Split(x, '/'), Split(y, '/'));
  }

  /** A slash-free piece explodes to itself, or to nothing when it is
      empty; with `ExplodeConcat` this fixes the labels of every path. */
  lemma ExplodePiece(s: string)
    requires '/' !in s
    ensures ExplodePath(s) == if s == "" then [] else [s]
  {
    SplitWithoutSeparator(s, '/');
    NonEmptyOne(s);
  }

  /** A path has no labels exactly when it consists of slashes only (the
      empty path and `/` included). */
  lemma {:induction false} ExplodeEmptyIffSlashes(path: string)
    ensures ExplodePath(path) == [] <==> forall i :: 0 <= i < |path| ==> path[i] == '/'
    decreases |path|
  {
    if |path| > 0 {
      var rest := Split(path[1..], '/');
      ExplodeEmptyIffSlashes(path[1..]);
      if path[0] == '/' {
        assert Split(path, '/') == [""] + rest;
        assert ([""] + rest)[1..] == rest;
        assert ExplodePath(path) == ExplodePath(path[1..]);
        assert (forall i :: 0 <= i < |path| ==> path[i] == '/') <==>
               (forall i :: 0 <= i < |path[1..]| ==> path[1..][i] == '/');
      } else {
        var head := [path[0]] + rest[0];
        assert Split(path, '/') == [head] + rest[1..];
        assert head != "";
        assert ExplodePath(path) == [head] + NonEmpty(rest[1..]);
      }
    }
  }

  /** The root path `/` has no labels. */
  lemma RootPathHasNoLabels()
    ensures ExplodePath("/") == []
  {
    ExplodeEmptyIffSlashes("/");
  }

  /** The regular expression `{([^}]+)}` occurs somewhere in `s`: an opening
      brace, at least one character other than `}`, then a closing brace. */
  ghost predicate MatchesParamPattern(s: string)
  {
    exists i, j :: 0 <= i && i + 1 < j < |s| && s[i] == '{' && s[j] == '}' &&
      '}' !in s[i + 1..j]
  }

  /** `isParameter`: scans `s` for an opening brace that is followed by a
      non-`}` character and, somewhere after that, a `}`. */
  function IsParameter(s: string): bool
    decreases |s|
  {
    if |s| < 3 then false
    else (s[0] == '{' && s[1] != '}' && '}' in s[2..]) || IsParameter(s[1..])
  }

  /** The first position at or after `from` where `c` occurs. */
  function IndexFrom(s: string, c: char, from: nat): (j: nat)
    requires from <= |s| && c in s[from..]
    ensures from <= j < |s| && s[j] == c
    ensures forall k :: from <= k < j ==> s[k] != c
    decreases |s| - from
  {
    if s[from] == c then from
    else
      assert s[from..] == [s[from]] + s[from + 1..];
      IndexFrom(s, c, from + 1)
  }

  /** The scan recognises exactly the strings the regular expression
      matches. */
  lemma {:induction false} IsParameterMatchesPattern(s: string)
    ensures IsParameter(s) <==> MatchesParamPattern(s)
  {
    if IsParameter(s) {
      IsParameterSound(s);
    }
    if MatchesParamPattern(s) {
      var i, j :| 0 <= i && i + 1 < j < |s| && s[i] == '{' && s[j] == '}' &&
        '}' !in s[i + 1..j];
      assert forall k :: i < k < j ==> s[k] == s[i + 1..j][k - i - 1];
      IsParameterComplete(s, i, j);
    }
  }

  lemma {:induction false} IsParameterSound(s: string)
    requires IsParameter(s)
    ensures MatchesParamPattern(s)
    decreases |s|
  {
    if s[0] == '{' && s[1] != '}' && '}' in s[2..] {
      var j := IndexFrom(s, '}', 2);
      assert '}' !in s[1..j];
    } else {
      var t := s[1..];
      IsParameterSound(t);
      var i, j :| 0 <= i && i + 1 < j < |t| && t[i] == '{' && t[j] == '}' &&
        '}' !in t[i + 1..j];
      assert s[i + 1] == '{' && s[j + 1] == '}';
      assert forall k :: i + 2 <= k < j + 1 ==> s[k] == t[k - 1];
      assert s[i + 2..j + 1] == t[i + 1..j];
    }
  }

  lemma {:induction false} IsParameterComplete(s: string, i: nat, j: nat)
    requires i + 1 < j < |s| && s[i] == '{' && s[j] == '}'
    requires forall k :: i < k < j ==> s[k] != '}'
    ensures IsParameter(s)
    decreases i
  {
    if i == 0 {
      assert s[2..][j - 2] == '}';
    } else {
      var t := s[1..];
      assert forall k :: i - 1 < k < j - 1 ==> t[k] == s[k + 1];
      IsParameterComplete(t, i - 1, j - 1);
    }
  }

  predicate IsBrace(c: char)
  {
    c == '{' || c == '}'
  }

  /** How many braces `s` starts with: what `strings.TrimLeft(s, "{}")`
      removes. */
  function LeadingBraces(s: string): (n: nat)
    ensures n <= |s|
    ensures forall k :: 0 <= k < n ==> IsBrace(s[k])
    ensures n < |s| ==> !IsBrace(s[n])
    decreases |s|
  {
    if |s| > 0 && IsBrace(s[0]) then 1 + LeadingBraces(s[1..]) else 0
  }

  /** How many braces `s` ends with: what `strings.TrimRight(s, "{}")`
      removes. */
  function TrailingBraces(s: string): (n: nat)
    ensures n <= |s|
    ensures forall k :: |s| - n <= k < |s| ==> IsBrace(s[k])
    ensures n < |s| ==> !IsBrace(s[|s| - 1 - n])
    decreases |s|
  {
    if |s| > 0 && IsBrace(s[|s| - 1]) then 1 + TrailingBraces(s[..|s| - 1]) else 0
  }

  /** `clearParam`, i.e. `strings.Trim(s, "{}")`: the part of `s` left after
      removing every leading and then every trailing brace. */
  function ClearParam(s: string): (name: string)
    ensures var a := LeadingBraces(s);
      a + |name| <= |s| && name == s[a..a + |name|] &&
      forall k :: a + |name| <= k < |s| ==> IsBrace(s[k])
    ensures |name| > 0 ==> !IsBrace(name[0]) && !IsBrace(name[|name| - 1])
  {
    var a := LeadingBraces(s);
    var rest := s[a..];
    var name := rest[..|rest| - TrailingBraces(rest)];
    assert forall k :: a + |name| <= k < |s| ==> s[k] == rest[k - a];
    name
  }

  /** Brace-wrapping a name that neither starts nor ends with a brace is
      undone by ClearParam: `ClearParam("{userId}") == "userId"`. */
  lemma ClearParamOfBraced(name: string)
    requires |name| > 0 ==> !IsBrace(name[0]) && !IsBrace(name[|name| - 1])
    ensures ClearParam("{" + name + "}") == name
  {
    var s := "{" + name + "}";
    if |name| == 0 {
      assert s[1..] == "}" && "}"[1..] == "";
      assert LeadingBraces(s) == 2;
    } else {
      assert s[1..] == name + "}";
      assert LeadingBraces(s) == 1;
      var rest := name + "}";
      assert rest[..|rest| - 1] == name;
      assert TrailingBraces(rest) == 1;
    }
  }
}
