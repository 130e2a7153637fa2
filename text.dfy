/// The string splitting the path parsers are built on: `str::split`,
/// `str::split_once`, joining with a separator, and skipping leading empty
/// pieces (`Iterator::skip_while`).
module Text {
  import opened Wrappers

  /// `s.split(sep)`: the pieces between the occurrences of `sep`, in order.
  /// There is always at least one piece, and no piece contains `sep`.
  function Split(s: string, sep: char): (r: seq<string>)
    ensures |r| >= 1
    ensures forall k :: 0 <= k < |r| ==> sep !in r[k]
    decreases |s|
  {
    if s == [] then [""]
    else
      var rest := Split(s[1..], sep);
      if s[0] == sep then [""] + rest
      else [[s[0]] + rest[0]] + rest[1..]
  }

  /// The pieces written out with `sep` between consecutive ones.
  function Join(parts: seq<string>, sep: char): string
    decreases |parts|
  {
    if parts == [] then ""
    else if |parts| == 1 then parts[0]
    else parts[0] + [sep] + Join(parts[1..], sep)
  }

  lemma Associate<T>(a: seq<T>, b: seq<T>, c: seq<T>)
    ensures (a + b) + c == a + (b + c)
  {
  }

  /// Joining the pieces of a split gives the string back.
  lemma {:induction false} JoinSplit(s: string, sep: char)
    ensures Join(Split(s, sep), sep) == s
    decreases |s|
  {
    if s != [] {
      var rest := Split(s[1..], sep);
      JoinSplit(s[1..], sep);
      if s[0] == sep {
        assert ([""] + rest)[1..] == rest;
        assert s == [sep] + s[1..];
      } else if |rest| == 1 {
        assert s == [s[0]] + s[1..];
      } else {
        var r := Split(s, sep);
        assert r[1..] == rest[1..];
        Associate([s[0]], rest[0], [sep]);
        Associate([s[0]], rest[0] + [sep], Join(rest[1..], sep));
        assert s == [s[0]] + s[1..];
      }
    }
  }

  /// Joining one more piece adds a separator and the piece.
  lemma {:induction false} JoinAppend(parts: seq<string>, sep: char, p: string)
    requires parts != []
    ensures Join(parts + [p], sep) == Join(parts, sep) + [sep] + p
    decreases |parts|
  {
    var q := parts + [p];
    assert q[0] == parts[0];
    if |parts| == 1 {
      assert q[1..] == [p];
    } else {
      assert q[1..] == parts[1..] + [p];
      JoinAppend(parts[1..], sep, p);
      Associate(parts[0] + [sep], Join(parts[1..], sep), [sep] + p);
      Associate(parts[0] + [sep] + Join(parts[1..], sep), [sep], p);
      Associate(Join(parts[1..], sep), [sep], p);
    }
  }

  /// A string without the separator is a single piece.
  lemma {:induction false} SplitWhole(u: string, sep: char)
    requires sep !in u
    ensures Split(u, sep) == [u]
    decreases |u|
  {
    if u != [] {
      SplitWhole(u[1..], sep);
      assert [u[0]] + u[1..] == u;
    }
  }

  /// A separator after a piece without one ends that piece.
  lemma {:induction false} SplitAfter(u: string, sep: char, t: string)
    requires sep !in u
    ensures Split(u + [sep] + t, sep) == [u] + Split(t, sep)
    decreases |u|
  {
    var s := u + [sep] + t;
    if u == [] {
      assert s[1..] == t;
    } else {
      assert s[1..] == u[1..] + [sep] + t;
      SplitAfter(u[1..], sep, t);
      assert [u[0]] + u[1..] == u;
    }
  }

  /// Two separators in a row after `u` leave an empty piece between them.
  lemma SplitDoubled(u: string, sep: char, t: string)
    requires sep !in u
    ensures Split(u + [sep, sep] + t, sep) == [u, ""] + Split(t, sep)
  {
    Regroup(u, sep, t);
    SplitAfter(u, sep, [sep] + t);
    SplitLeading(sep, t);
    Prepend2(u, "", Split(t, sep));
  }

  /// A leading separator splits off an empty piece.
  lemma SplitLeading(sep: char, t: string)
    ensures Split([sep] + t, sep) == [""] + Split(t, sep)
  {
    assert ([sep] + t)[1..] == t;
  }

  lemma Regroup<T>(u: seq<T>, x: T, t: seq<T>)
    ensures u + [x, x] + t == u + [x] + ([x] + t)
  {
  }

  lemma Prepend2<T>(x: T, y: T, t: seq<T>)
    ensures [x] + ([y] + t) == [x, y] + t
  {
  }

  /// Splitting joined pieces that hold no separator gives them back.
  lemma {:induction false} SplitJoin(parts: seq<string>, sep: char)
    requires |parts| >= 1
    requires forall k :: 0 <= k < |parts| ==> sep !in parts[k]
    ensures Split(Join(parts, sep), sep) == parts
    decreases |parts|
  {
    if |parts| == 1 {
      SplitWhole(parts[0], sep);
    } else {
      SplitJoin(parts[1..], sep);
      SplitAfter(parts[0], sep, Join(parts[1..], sep));
      assert [parts[0]] + parts[1..] == parts;
    }
  }

  /// `skip_while(|part| part.is_empty())`: the pieces from the first
  /// non-empty one on.
  function SkipEmpty(parts: seq<string>): (r: seq<string>)
    ensures |r| <= |parts| && r == parts[|parts| - |r|..]
    ensures r == [] || r[0] != ""
    ensures forall k :: 0 <= k < |parts| - |r| ==> parts[k] == ""
    decreases |parts|
  {
    if parts == [] then []
    else if parts[0] == "" then SkipEmpty(parts[1..])
    else parts
  }

  /// `s` with its leading `c` characters removed.
  function TrimStart(s: string, c: char): (r: string)
    ensures |r| <= |s| && r == s[|s| - |r|..]
    ensures r == [] || r[0] != c
    ensures forall k :: 0 <= k < |s| - |r| ==> s[k] == c
    decreases |s|
  {
    if s != [] && s[0] == c then TrimStart(s[1..], c) else s
  }

  /// Splitting, skipping the leading empty pieces and joining again removes
  /// exactly the leading separators.
  lemma {:induction false} JoinSkipSplit(s: string, sep: char)
    ensures Join(SkipEmpty(Split(s, sep)), sep) == TrimStart(s, sep)
    decreases |s|
  {
    if s != [] {
      if s[0] == sep {
        var rest := Split(s[1..], sep);
        assert Split(s, sep) == [""] + rest;
        assert ([""] + rest)[1..] == rest;
        JoinSkipSplit(s[1..], sep);
      } else {
        assert Split(s, sep)[0] != "";
        JoinSplit(s, sep);
      }
    }
  }

  /// Pieces without separators, the first of them not empty, come back
  /// from joining, splitting and skipping.
  lemma SkipSplitJoin(parts: seq<string>, sep: char)
    requires parts == [] || parts[0] != ""
    requires forall k :: 0 <= k < |parts| ==> sep !in parts[k]
    ensures SkipEmpty(Split(Join(parts, sep), sep)) == parts
  {
    if parts != [] {
      SplitJoin(parts, sep);
    }
  }

  /// `s.split_once(sep)`: the text before the first `sep` and the text
  /// after it, or `None` when `s` has no `sep`.
  function SplitOnce(s: string, sep: char): (r: Option<(string, string)>)
    ensures r.None? <==> sep !in s
    ensures r.Some? ==> sep !in r.value.0 && r.value.0 + [sep] + r.value.1 == s
    decreases |s|
  {
    if s == [] then None
    else if s[0] == sep then Some(([], s[1..]))
    else
      match SplitOnce(s[1..], sep)
      case None => None
      case Some((before, after)) => Some(([s[0]] + before, after))
  }

  /// The split is at the first separator: a prefix without `sep` followed
  /// by `sep` is what `SplitOnce` returns.
  lemma {:induction false} SplitOnceAt(u: string, sep: char, t: string)
    requires sep !in u
    ensures SplitOnce(u + [sep] + t, sep) == Some((u, t))
    decreases |u|
  {
    var s := u + [sep] + t;
    if u == [] {
      assert s[1..] == t;
    } else {
      assert s[1..] == u[1..] + [sep] + t;
      SplitOnceAt(u[1..], sep, t);
      assert [u[0]] + u[1..] == u;
    }
  }
}
