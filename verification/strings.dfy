/** Splitting and joining on a one-character separator, with the meaning
    Go's `strings.Split` and `strings.Join` give them for such a separator. */
module Strings {

  /** The pieces of `s` between consecutive occurrences of `sep`, as
      `strings.Split(s, string(sep))`: never empty, and one more piece than
      there are separators. */
  function Split(s: string, sep: char): (pieces: seq<string>)
    ensures |pieces| >= 1
    ensures forall i :: 0 <= i < |pieces| ==> sep !in pieces[i]
    decreases |s|
  {
    if |s| == 0 then [""]
    else
      var rest := Split(s[1..], sep);
      if s[0] == sep then [""] + rest
      else [[s[0]] + rest[0]] + rest[1..]
  }

  /** The parts glued together with `sep` between neighbours, as
      `strings.Join(parts, string(sep))`: no separator before the first
      part or after the last one. */
  function Join(parts: seq<string>, sep: char): (s: string)
    decreases |parts|
  {
    if |parts| == 0 then ""
    else if |parts| == 1 then parts[0]
    else parts[0] + [sep] + Join(parts[1..], sep)
  }

  /** There is one more piece than there are separators. */
  lemma {:induction false} SplitCount(s: string, sep: char)
    ensures |Split(s, sep)| == multiset(s)[sep] + 1
    decreases |s|
  {
    if |s| > 0 {
      SplitCount(s[1..], sep);
      assert s == [s[0]] + s[1..];
      assert multiset(s) == multiset{s[0]} + multiset(s[1..]);
    }
  }

  /** A join starts with the first part and ends with the last one: the
      separator never leads or trails. */
  lemma {:induction false} JoinEnds(parts: seq<string>, sep: char)
    requires |parts| > 0
    ensures parts[0] <= Join(parts, sep)
    ensures var s, last := Join(parts, sep), parts[|parts| - 1];
            |last| <= |s| && s[|s| - |last|..] == last
    decreases |parts|
  {
    if |parts| > 1 {
      JoinEnds(parts[1..], sep);
      var s := Join(parts, sep);
      var t := Join(parts[1..], sep);
      assert s == parts[0] + [sep] + t;
      assert s[|s| - |t|..] == t;
    }
  }

  /** The parts that are not the empty string, in their original order. */
  function NonEmpty(parts: seq<string>): (kept: seq<string>)
    ensures forall i :: 0 <= i < |kept| ==> kept[i] != ""
    ensures forall x :: x in kept <==> x in parts && x != ""
    decreases |parts|
  {
    if |parts| == 0 then []
    else if parts[0] == "" then NonEmpty(parts[1..])
    else [parts[0]] + NonEmpty(parts[1..])
  }

  lemma {:induction false} NonEmptyKeepsNonEmpty(parts: seq<string>)
    requires forall i :: 0 <= i < |parts| ==> parts[i] != ""
    ensures NonEmpty(parts) == parts
    decreases |parts|
  {
    if |parts| > 0 {
      NonEmptyKeepsNonEmpty(parts[1..]);
      assert parts == [parts[0]] + parts[1..];
    }
  }

  /** Dropping empty parts works part by part: the kept parts of a
      concatenation are the kept parts of each half, in order and with their
      multiplicity. */
  lemma {:induction false} NonEmptyConcat(a: seq<string>, b: seq<string>)
    ensures NonEmpty(a + b) == NonEmpty(a) + NonEmpty(b)
    decreases |a|
  {
    if |a| == 0 {
      assert a + b == b;
    } else {
      assert (a + b)[0] == a[0];
      assert (a + b)[1..] == a[1..] + b;
      NonEmptyConcat(a[1..], b);
    }
  }

  /** A single part is dropped when it is empty and kept otherwise. */
  lemma NonEmptyOne(x: string)
    ensures NonEmpty([x]) == if x == "" then [] else [x]
  {
    assert [x][1..] == [];
  }

  /** A string without the separator is a single piece. */
  lemma {:induction false} SplitWithoutSeparator(x: string, sep: char)
    requires sep !in x
    ensures Split(x, sep) == [x]
    decreases |x|
  {
    if |x| > 0 {
      SplitWithoutSeparator(x[1..], sep);
      assert x == [x[0]] + x[1..];
    }
  }

  /** A separator-free head followed by a separator contributes exactly one
      piece. */
  lemma {:induction false} SplitAfterPiece(x: string, sep: char, rest: string)
    requires sep !in x
    ensures Split(x + [sep] + rest, sep) == [x] + Split(rest, sep)
    decreases |x|
  {
    var s := x + [sep] + rest;
    if |x| == 0 {
      assert s[0] == sep && s[1..] == rest;
    } else {
      assert s[0] == x[0] && s[0] != sep;
      assert s[1..] == x[1..] + [sep] + rest;
      SplitAfterPiece(x[1..], sep, rest);
      assert [x[0]] + x[1..] == x;
    }
  }

  /** Splitting at one separator: the pieces of `x + [sep] + y` are the
      pieces of `x` followed by the pieces of `y`. */
  lemma {:induction false} SplitConcat(x: string, y: string, sep: char)
    ensures Split(x + [sep] + y, sep) == Split(x, sep) + Split(y, sep)
    decreases |x|
  {
    var s := x + [sep] + y;
    if |x| == 0 {
      assert s[0] == sep && s[1..] == y;
    } else {
      assert s[0] == x[0];
      assert s[1..] == x[1..] + [sep] + y;
      SplitConcat(x[1..], y, sep);
      var front, back := Split(x[1..], sep), Split(y, sep);
      if x[0] == sep {
        assert Split(s, sep) == [""] + (front + back);
      } else {
        var r := front + back;
        assert r[0] == front[0];
        assert r[1..] == front[1..] + back;
        assert Split(s, sep) == [[x[0]] + front[0]] + (front[1..] + back);
      }
    }
  }

  /** Splitting undoes joining, as long as there is at least one part and no
      part contains the separator. */
  lemma {:induction false} SplitJoin(parts: seq<string>, sep: char)
    requires |parts| > 0
    requires forall i :: 0 <= i < |parts| ==> sep !in parts[i]
    ensures Split(Join(parts, sep), sep) == parts
    decreases |parts|
  {
    if |parts| == 1 {
      SplitWithoutSeparator(parts[0], sep);
    } else {
      SplitJoin(parts[1..], sep);
      SplitAfterPiece(parts[0], sep, Join(parts[1..], sep));
      assert parts == [parts[0]] + parts[1..];
    }
  }

  /** Prefixing a string to the first part prefixes it to the whole join. */
  lemma JoinExtendHead(x: string, parts: seq<string>, sep: char)
    requires |parts| > 0
    ensures Join([x + parts[0]] + parts[1..], sep) == x + Join(parts, sep)
  {
    var extended := [x + parts[0]] + parts[1..];
    if |parts| > 1 {
      assert extended[1..] == parts[1..];
    }
  }

  /** Joining undoes splitting, for every string. */
  lemma {:induction false} JoinSplit(s: string, sep: char)
    ensures Join(Split(s, sep), sep) == s
    decreases |s|
  {
    if |s| > 0 {
      var tail := s[1..];
      var rest := Split(tail, sep);
      JoinSplit(tail, sep);
      if s[0] == sep {
        JoinSplitSeparatorFirst(s, sep, rest);
      } else {
        assert Split(s, sep) == [[s[0]] + rest[0]] + rest[1..];
        JoinExtendHead([s[0]], rest, sep);
        assert s == [s[0]] + tail;
      }
    }
  }

  lemma JoinSplitSeparatorFirst(s: string, sep: char, rest: seq<string>)
    requires |s| > 0 && s[0] == sep && rest == Split(s[1..], sep)
    requires Join(rest, sep) == s[1..]
    ensures Join(Split(s, sep), sep) == s
  {
    var pieces := [""] + rest;
    assert Split(s, sep) == pieces;
    assert pieces[1..] == rest;
    assert Join(pieces, sep) == "" + [sep] + Join(rest, sep);
    assert s == [s[0]] + s[1..];
  }

  /** Appending one part adds the separator and that part at the end. */
  lemma {:induction false} JoinSnoc(parts: seq<string>, x: string, sep: char)
    requires |parts| > 0
    ensures Join(parts + [x], sep) == Join(parts, sep) + [sep] + x
    decreases |parts|
  {
    if |parts| == 1 {
      assert (parts + [x])[1..] == [x];
    } else {
      assert (parts + [x])[1..] == parts[1..] + [x];
      JoinSnoc(parts[1..], x, sep);
    }
  }
}
