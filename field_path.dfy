/// `FieldPath` of `path/field.rs`: the tokenizer and parser for reflection
/// paths such as `a.0[3]`, and their rendering. Paths are sequences of
/// ASCII characters, so a character position is also a byte offset.
module PathField {
  import opened Wrappers
  import opened Numeric

  /// `Access`: one step of a path.
  datatype Access = Field(name: string) | TupleIndex(index: Usize) | ListIndex(index: Usize)

  /// The parse errors of `ReflectPathError`; `index` is a parser position.
  /// `IndexParseError` stands for the wrapped `ParseIntError`.
  datatype ReflectPathError =
    | ExpectedIdent(index: nat)
    | UnexpectedToken(index: nat, token: string)
    | ExpectedToken(index: nat, token: string)
    | IndexParseError

  /// `Token`.
  datatype Token = Dot | OpenBracket | CloseBracket | Ident(text: string)

  /// `FieldPath`: the accesses, each with the parser position right after
  /// the token that started it.
  datatype FieldPath = FieldPath(parts: seq<(Access, nat)>)

  predicate IsDelimiter(c: char) {
    c == '.' || c == '[' || c == ']'
  }

  predicate NoDelimiter(s: string) {
    forall k :: 0 <= k < |s| ==> !IsDelimiter(s[k])
  }

  // ---------------------------------------------------------------------
  // `usize::from_str`

  predicate IsDigit(c: char) {
    '0' <= c <= '9'
  }

  predicate AllDigits(s: string) {
    forall k :: 0 <= k < |s| ==> IsDigit(s[k])
  }

  function DigitOf(c: char): nat
    requires IsDigit(c)
  {
    c as int - '0' as int
  }

  /// The number the digits `d` denote when read after the value `acc`,
  /// most significant digit first.
  function DigitValue(d: string, acc: nat): nat
    requires AllDigits(d)
    decreases |d|
  {
    if d == [] then acc else DigitValue(d[1..], acc * 10 + DigitOf(d[0]))
  }

  /// The digit loop of `usize::from_str`: each digit multiplies what was
  /// read so far by ten and adds itself, and a value beyond `usize` or a
  /// character that is not a digit is an error.
  function Accumulate(d: string, acc: Usize): Option<Usize>
    decreases |d|
  {
    if d == [] then Some(acc)
    else if !IsDigit(d[0]) then None
    else
      var next := acc * 10 + DigitOf(d[0]);
      if next > USIZE_MAX then None else Accumulate(d[1..], next)
  }

  /// `s.parse::<usize>()`: an optional `+`, then at least one decimal
  /// digit and nothing else, denoting a value that fits in a `usize`.
  function ParseUsize(s: string): Option<Usize> {
    var digits := if s != [] && s[0] == '+' then s[1..] else s;
    if digits == [] then None else Accumulate(digits, 0)
  }

  lemma {:induction false} DigitValueAtLeast(d: string, acc: nat)
    requires AllDigits(d)
    ensures DigitValue(d, acc) >= acc
    decreases |d|
  {
    if d != [] {
      DigitValueAtLeast(d[1..], acc * 10 + DigitOf(d[0]));
    }
  }

  /// The digit loop succeeds exactly on digit strings whose value fits,
  /// with that value.
  lemma {:induction false} AccumulateValue(d: string, acc: Usize)
    ensures Accumulate(d, acc).Some? <==> AllDigits(d) && DigitValue(d, acc) <= USIZE_MAX
    ensures Accumulate(d, acc).Some? ==> Accumulate(d, acc).value == DigitValue(d, acc)
    decreases |d|
  {
    if d != [] && IsDigit(d[0]) {
      var next := acc * 10 + DigitOf(d[0]);
      assert AllDigits(d) <==> AllDigits(d[1..]) by {
        assert forall k :: 0 < k < |d| ==> d[k] == d[1..][k - 1];
      }
      if next > USIZE_MAX {
        if AllDigits(d) {
          DigitValueAtLeast(d[1..], next);
        }
      } else {
        AccumulateValue(d[1..], next);
      }
    }
  }

  /// What `ParseUsize` accepts: an optional `+` followed by a non-empty
  /// digit string whose value fits, read with that value.
  lemma ParseUsizeShape(s: string)
    ensures var digits := if s != [] && s[0] == '+' then s[1..] else s;
      ParseUsize(s).Some? <==> digits != [] && AllDigits(digits) && DigitValue(digits, 0) <= USIZE_MAX
    ensures var digits := if s != [] && s[0] == '+' then s[1..] else s;
      ParseUsize(s).Some? ==> ParseUsize(s).value == DigitValue(digits, 0)
  {
    var digits := if s != [] && s[0] == '+' then s[1..] else s;
    AccumulateValue(digits, 0);
  }

  /// A string that starts with neither a digit nor `+` is not a number.
  lemma NotNumber(s: string)
    requires s != [] && !IsDigit(s[0]) && s[0] != '+'
    ensures ParseUsize(s).None?
  {
  }

  /// `usize` `Display`: the decimal digits of `n`, without leading zeros.
  function Digits(n: nat): (s: string)
    ensures s != []
    decreases n
  {
    if n < 10 then [('0' as int + n) as char]
    else Digits(n / 10) + [('0' as int + n % 10) as char]
  }

  lemma {:induction false} DigitValueAppend(d: string, c: char, acc: nat)
    requires AllDigits(d) && IsDigit(c)
    ensures AllDigits(d + [c])
    ensures DigitValue(d + [c], acc) == DigitValue(d, acc) * 10 + DigitOf(c)
    decreases |d|
  {
    if d != [] {
      assert (d + [c])[1..] == d[1..] + [c];
      DigitValueAppend(d[1..], c, acc * 10 + DigitOf(d[0]));
    }
  }

  /// Printing a number and reading its digits back gives the number.
  lemma {:induction false} DigitsRoundTrip(n: nat)
    ensures AllDigits(Digits(n)) && DigitValue(Digits(n), 0) == n
    decreases n
  {
    if n >= 10 {
      DigitsRoundTrip(n / 10);
      DigitValueAppend(Digits(n / 10), ('0' as int + n % 10) as char, 0);
    }
  }

  lemma ParseDigits(n: Usize)
    ensures ParseUsize(Digits(n)) == Some(n)
  {
    DigitsRoundTrip(n);
    ParseUsizeShape(Digits(n));
  }

  // ---------------------------------------------------------------------
  // `PathParser`, as functions of the path and a position

  /// Where an identifier starting at `i` ends: the first delimiter at or
  /// after `i`, or the end of the path.
  function IdentEnd(path: string, i: nat): (j: nat)
    requires i <= |path|
    ensures i <= j <= |path|
    ensures forall k :: i <= k < j ==> !IsDelimiter(path[k])
    ensures j == |path| || IsDelimiter(path[j])
    decreases |path| - i
  {
    if i == |path| || IsDelimiter(path[i]) then i else IdentEnd(path, i + 1)
  }

  /// `next_token` at position `i`: the token and the position after it.
  function NextTokenAt(path: string, i: nat): (r: Option<(Token, nat)>)
    ensures r.None? <==> i >= |path|
    ensures r.Some? ==> i < r.value.1 <= |path|
  {
    if i >= |path| then None
    else if path[i] == '.' then Some((Dot, i + 1))
    else if path[i] == '[' then Some((OpenBracket, i + 1))
    else if path[i] == ']' then Some((CloseBracket, i + 1))
    else
      var j := IdentEnd(path, i);
      Some((Ident(path[i..j]), j))
  }

  /// Each delimiter is a token of one character; anything else starts an
  /// identifier that runs up to the next delimiter or the end.
  lemma NextTokenShape(path: string, i: nat)
    requires i < |path|
    ensures var (t, j) := NextTokenAt(path, i).value;
      (t == Dot <==> path[i] == '.') &&
      (t == OpenBracket <==> path[i] == '[') &&
      (t == CloseBracket <==> path[i] == ']') &&
      (IsDelimiter(path[i]) ==> j == i + 1) &&
      (t.Ident? ==>
         t.text == path[i..j] && t.text != [] && NoDelimiter(t.text) && (j == |path| || IsDelimiter(path[j])))
  {
    if !IsDelimiter(path[i]) {
      var j := IdentEnd(path, i);
      assert path[i..j][0] == path[i];
      assert forall k :: 0 <= k < j - i ==> path[i..j][k] == path[i + k];
    }
  }

  /// An identifier: a number is a tuple index, anything else a field name.
  function IdentAccess(v: string): Access {
    match ParseUsize(v)
    case Some(n) => TupleIndex(n)
    case None => Field(v)
  }

  /// `token_to_access(token)` with the parser at `i`: the access or error,
  /// and the position after the tokens it consumed.
  function TokenToAccessAt(path: string, i: nat, token: Token): (r: (Result<Access, ReflectPathError>, nat))
    requires i <= |path|
    ensures i <= r.1 <= |path|
    ensures r.0.Err? && !r.0.error.IndexParseError? ==> r.0.error.index == i
  {
    match token
    case Dot => DotAccess(path, i)
    case OpenBracket => BracketAccess(path, i)
    case CloseBracket => (Err(UnexpectedToken(i, "]")), i)
    case Ident(v) => (Ok(IdentAccess(v)), i)
  }

  /// After a dot: an identifier, else `ExpectedIdent` at the position of
  /// the dot's successor.
  function DotAccess(path: string, i: nat): (r: (Result<Access, ReflectPathError>, nat))
    requires i <= |path|
    ensures i <= r.1 <= |path|
    ensures r.0.Err? ==> r.0.error == ExpectedIdent(i)
  {
    var next := NextTokenAt(path, i);
    if next.None? then (Err(ExpectedIdent(i)), i)
    else if next.value.0.Ident? then (Ok(IdentAccess(next.value.0.text)), next.value.1)
    else (Err(ExpectedIdent(i)), next.value.1)
  }

  /// After `[`: a number and `]`, else the first thing that went wrong.
  function BracketAccess(path: string, i: nat): (r: (Result<Access, ReflectPathError>, nat))
    requires i <= |path|
    ensures i <= r.1 <= |path|
    ensures r.0.Ok? ==> r.0.value.ListIndex?
    ensures r.0.Err? ==> r.0.error in {ExpectedIdent(i), IndexParseError, ExpectedToken(i, "]")}
  {
    var next := NextTokenAt(path, i);
    if next.None? then (Err(ExpectedIdent(i)), i)
    else if !next.value.0.Ident? then (Err(ExpectedIdent(i)), next.value.1)
    else
      var j := next.value.1;
      var n := ParseUsize(next.value.0.text);
      if n.None? then (Err(IndexParseError), j)
      else
        var close := NextTokenAt(path, j);
        if close.None? then (Err(ExpectedToken(i, "]")), j)
        else if close.value.0 != CloseBracket then (Err(ExpectedToken(i, "]")), close.value.1)
        else (Ok(ListIndex(n.value)), close.value.1)
  }

  /// A bracketed access is accepted exactly when a number that fits a
  /// `usize` is followed by `]`, and then it ends right after the `]`.
  lemma BracketAccessShape(path: string, i: nat)
    requires i <= |path|
    ensures var (res, k) := BracketAccess(path, i);
      res.Ok? <==>
        (exists j :: i < j < |path| && NextTokenAt(path, i) == Some((Ident(path[i..j]), j)) &&
           ParseUsize(path[i..j]).Some? && path[j] == ']')
    ensures var (res, k) := BracketAccess(path, i);
      res.Ok? ==> k >= i + 2 && path[k - 1] == ']'
  {
    var next := NextTokenAt(path, i);
    if next.Some? {
      NextTokenShape(path, i);
      var j := next.value.1;
      if j < |path| {
        NextTokenShape(path, j);
      }
    }
  }

  /// `Iterator::next` at `i`: the access or error, the position right
  /// after the leading token, and the position after the whole item.
  function NextAt(path: string, i: nat): (r: Option<(Result<Access, ReflectPathError>, nat, nat)>)
    ensures r.None? <==> i >= |path|
    ensures r.Some? ==> i < r.value.1 <= r.value.2 <= |path|
  {
    var next := NextTokenAt(path, i);
    if next.None? then None
    else
      var item := TokenToAccessAt(path, next.value.1, next.value.0);
      Some((item.0, next.value.1, item.1))
  }

  /// The items from position `i` on, up to the first error.
  function ParseFrom(path: string, i: nat): Result<seq<(Access, nat)>, ReflectPathError>
    requires i <= |path|
    decreases |path| - i
  {
    var next := NextAt(path, i);
    if next.None? then Ok([])
    else if next.value.0.Err? then Err(next.value.0.error)
    else Prepend((next.value.0.value, next.value.1), ParseFrom(path, next.value.2))
  }

  function Prepend(x: (Access, nat), r: Result<seq<(Access, nat)>, ReflectPathError>): Result<seq<(Access, nat)>, ReflectPathError> {
    match r
    case Ok(rest) => Ok([x] + rest)
    case Err(e) => Err(e)
  }

  /// `FieldPath::parse(string)`: the accesses of the whole string, or the
  /// first error.
  function Parsed(s: string): Result<FieldPath, ReflectPathError> {
    match ParseFrom(s, 0)
    case Ok(parts) => Ok(FieldPath(parts))
    case Err(e) => Err(e)
  }

  function Accesses(parts: seq<(Access, nat)>): (r: seq<Access>)
    ensures |r| == |parts| && forall k :: 0 <= k < |parts| ==> r[k] == parts[k].0
  {
    seq(|parts|, k requires 0 <= k < |parts| => parts[k].0)
  }

  // ---------------------------------------------------------------------
  // `Display`

  /// How one access is written: a field by its name, a tuple index by its
  /// number, a list index by its number in brackets.
  function Body(a: Access): string {
    match a
    case Field(name) => name
    case TupleIndex(n) => Digits(n)
    case ListIndex(n) => "[" + Digits(n) + "]"
  }

  /// One access with the dot that may precede it.
  /// The dot written before an access, if any.
  function DotBefore(dotted: bool): string {
    if dotted then "." else ""
  }

  function Segment(a: Access, dotted: bool): string {
    DotBefore(dotted) + Body(a)
  }

  /// `Display` as written: every access after the first is preceded by a
  /// dot, a list index included.
  function Written(p: seq<Access>, first: bool): string
    decreases |p|
  {
    if p == [] then "" else Segment(p[0], !first) + Written(p[1..], false)
  }

  function Display(fp: FieldPath): string {
    Written(Accesses(fp.parts), true)
  }

  /// `Display` as the parser reads paths: a list index follows the
  /// previous access directly (`a[3]`), as in the path syntax.
  function Rendered(p: seq<Access>, first: bool): string
    decreases |p|
  {
    if p == [] then "" else Segment(p[0], !first && !p[0].ListIndex?) + Rendered(p[1..], false)
  }

  function DisplayIntended(fp: FieldPath): string {
    Rendered(Accesses(fp.parts), true)
  }

  /// An access that the parser can produce: a field name is a non-empty
  /// identifier that does not read as a number.
  predicate ValidAccess(a: Access) {
    a.Field? ==> a.name != [] && NoDelimiter(a.name) && ParseUsize(a.name).None?
  }

  predicate AllValid(p: seq<Access>) {
    forall k :: 0 <= k < |p| ==> ValidAccess(p[k])
  }

  /// Only the first access may be a list index: there the two renderings
  /// agree.
  predicate Dotted(p: seq<Access>) {
    forall k :: 1 <= k < |p| ==> !p[k].ListIndex?
  }

  lemma {:induction false} WrittenIsRendered(p: seq<Access>, first: bool)
    requires forall k :: 0 <= k < |p| ==> !p[k].ListIndex? || (k == 0 && first)
    ensures Written(p, first) == Rendered(p, first)
    decreases |p|
  {
    if p != [] {
      WrittenIsRendered(p[1..], false);
    }
  }

  // ---------------------------------------------------------------------
  // Parsing what `Display` writes

  /// `IdentEnd` is the first delimiter at or after `i`.
  lemma {:induction false} IdentEndAt(path: string, i: nat, j: nat)
    requires i <= j <= |path|
    requires forall k :: i <= k < j ==> !IsDelimiter(path[k])
    requires j == |path| || IsDelimiter(path[j])
    ensures IdentEnd(path, i) == j
    decreases j - i
  {
    if i < j {
      assert !IsDelimiter(path[i]);
      IdentEndAt(path, i + 1, j);
    }
  }

  /// An identifier followed by a delimiter or the end is read whole.
  lemma IdentAt(s: string, i: nat, v: string)
    requires i + |v| <= |s| && v != [] && NoDelimiter(v) && s[i..i + |v|] == v
    requires i + |v| == |s| || IsDelimiter(s[i + |v|])
    ensures NextTokenAt(s, i) == Some((Ident(v), i + |v|))
  {
    assert s[i] == v[0];
    forall k | i <= k < i + |v|
      ensures !IsDelimiter(s[k])
    {
      assert s[k] == v[k - i];
    }
    IdentEndAt(s, i, i + |v|);
  }

  /// The item at `i` is read as the access `a` and ends at `k`.
  predicate ReadsAt(s: string, i: nat, a: Access, k: nat) {
    NextAt(s, i).Some? && NextAt(s, i).value.0 == Ok(a) && NextAt(s, i).value.2 == k
  }

  /// `s` holds `part` at `x`.
  predicate HoldsAt(s: string, x: nat, part: string) {
    x + |part| <= |s| && s[x..x + |part|] == part
  }

  /// `s` holds `seg` at `x`, and `seg` is followed by the end of `s` or
  /// by a dot or bracket that starts the next access.
  predicate Placed(s: string, x: nat, seg: string) {
    HoldsAt(s, x, seg) && (x + |seg| == |s| || s[x + |seg|] == '.' || s[x + |seg|] == '[')
  }

  /// A slice holding `u + v` holds `u` and then `v`.
  lemma SliceParts(s: string, i: nat, u: string, v: string)
    requires i + |u| + |v| <= |s| && s[i..i + |u| + |v|] == u + v
    ensures s[i..i + |u|] == u && s[i + |u|..i + |u| + |v|] == v
    ensures forall k :: 0 <= k < |u| ==> s[i + k] == u[k]
  {
    assert s[i..i + |u|] == (u + v)[..|u|];
    assert s[i + |u|..i + |u| + |v|] == (u + v)[|u|..];
    forall k | 0 <= k < |u|
      ensures s[i + k] == u[k]
    {
      assert s[i + k] == (u + v)[k];
    }
  }

  /// An identifier token is read as its access.
  lemma ReadsIdent(s: string, x: nat, v: string, k: nat)
    requires NextTokenAt(s, x) == Some((Ident(v), k))
    ensures ReadsAt(s, x, IdentAccess(v), k)
  {
  }

  /// A dot token followed by an identifier token is read as the
  /// identifier's access.
  lemma ReadsDotIdent(s: string, x: nat, v: string, k: nat)
    requires NextTokenAt(s, x) == Some((Dot, x + 1))
    requires NextTokenAt(s, x + 1) == Some((Ident(v), k))
    ensures ReadsAt(s, x, IdentAccess(v), k)
  {
  }

  lemma DotTokenAt(s: string, x: nat)
    requires x < |s| && s[x] == '.'
    ensures NextTokenAt(s, x) == Some((Dot, x + 1))
  {
  }

  /// An identifier, after a dot or at the start of an item, is read as
  /// its access.
  lemma IdentPlaced(s: string, x: nat, dotted: bool, v: string, a: Access)
    requires v != [] && NoDelimiter(v) && IdentAccess(v) == a
    requires Placed(s, x, DotBefore(dotted) + v)
    ensures ReadsAt(s, x, a, x + |DotBefore(dotted) + v|)
  {
    var k := x + |DotBefore(dotted) + v|;
    IdentTokens(s, x, dotted, v);
    if dotted {
      ReadsDotIdent(s, x, v, k);
    } else {
      ReadsIdent(s, x, v, k);
    }
  }

  lemma DotBeforeLength(dotted: bool, v: string)
    ensures |DotBefore(dotted)| == if dotted then 1 else 0
    ensures |DotBefore(dotted) + v| == |DotBefore(dotted)| + |v|
  {
  }

  /// The tokens of a placed identifier: the dot, if any, then the
  /// identifier itself.
  lemma IdentTokens(s: string, x: nat, dotted: bool, v: string)
    requires v != [] && NoDelimiter(v)
    requires Placed(s, x, DotBefore(dotted) + v)
    ensures dotted ==> NextTokenAt(s, x) == Some((Dot, x + 1))
    ensures dotted ==> NextTokenAt(s, x + 1) == Some((Ident(v), x + |DotBefore(dotted) + v|))
    ensures !dotted ==> NextTokenAt(s, x) == Some((Ident(v), x + |DotBefore(dotted) + v|))
  {
    var y := x + |DotBefore(dotted)|;
    DotBeforeLength(dotted, v);
    SliceParts(s, x, DotBefore(dotted), v);
    IdentAt(s, y, v);
    if dotted {
      DotTokenAt(s, x);
    }
  }

  /// A bracketed number is read as a list index.
  lemma ListPlaced(s: string, x: nat, d: string, n: Usize)
    requires d != [] && NoDelimiter(d) && ParseUsize(d) == Some(n)
    requires x + |d| + 2 <= |s| && s[x] == '[' && s[x + 1..x + 1 + |d|] == d && s[x + 1 + |d|] == ']'
    ensures ReadsAt(s, x, ListIndex(n), x + |d| + 2)
  {
    IdentAt(s, x + 1, d);
    assert NextTokenAt(s, x) == Some((OpenBracket, x + 1));
    assert NextTokenAt(s, x + 1 + |d|) == Some((CloseBracket, x + 2 + |d|));
    assert BracketAccess(s, x + 1) == (Ok(ListIndex(n)), x + 2 + |d|);
  }

  /// The digits of a number form an identifier that reads back as it.
  lemma DigitsIdent(n: Usize)
    ensures Digits(n) != [] && NoDelimiter(Digits(n)) && ParseUsize(Digits(n)) == Some(n)
  {
    ParseDigits(n);
  }

  lemma FieldPlaced(s: string, x: nat, name: string, dotted: bool)
    requires ValidAccess(Field(name)) && Placed(s, x, DotBefore(dotted) + name)
    ensures ReadsAt(s, x, Field(name), x + |DotBefore(dotted) + name|)
  {
    IdentPlaced(s, x, dotted, name, Field(name));
  }

  lemma TuplePlaced(s: string, x: nat, n: Usize, dotted: bool)
    requires Placed(s, x, DotBefore(dotted) + Digits(n))
    ensures ReadsAt(s, x, TupleIndex(n), x + |DotBefore(dotted) + Digits(n)|)
  {
    DigitsIdent(n);
    IdentPlaced(s, x, dotted, Digits(n), TupleIndex(n));
  }

  lemma ListIndexPlaced(s: string, x: nat, n: Usize)
    requires HoldsAt(s, x, "[" + Digits(n) + "]")
    ensures ReadsAt(s, x, ListIndex(n), x + |Digits(n)| + 2)
  {
    var d := Digits(n);
    DigitsIdent(n);
    assert "[" + d + "]" == "[" + (d + "]");
    SliceParts(s, x, "[", d + "]");
    SliceParts(s, x + 1, d, "]");
    ListPlaced(s, x, d, n);
  }

  /// One written access, placed in a path, is read back as that access.
  lemma SegmentPlaced(s: string, x: nat, a: Access, dotted: bool)
    requires ValidAccess(a) && !(dotted && a.ListIndex?)
    requires Placed(s, x, Segment(a, dotted))
    ensures ReadsAt(s, x, a, x + |Segment(a, dotted)|)
  {
    match a
    case Field(name) => FieldPlaced(s, x, name, dotted);
    case TupleIndex(n) => TuplePlaced(s, x, n, dotted);
    case ListIndex(n) =>
      assert Segment(a, dotted) == "[" + Digits(n) + "]";
      ListIndexPlaced(s, x, n);
  }

  // The layout of a rendered path: the segments of its accesses one after
  // the other.

  function Concat(parts: seq<string>): string
    decreases |parts|
  {
    if parts == [] then "" else parts[0] + Concat(parts[1..])
  }

  /// Where each of `parts` starts when they are laid out from `i`, and,
  /// last, where the layout ends.
  function Offsets(parts: seq<string>, i: nat): (e: seq<nat>)
    ensures |e| == |parts| + 1 && e[0] == i
    decreases |parts|
  {
    if parts == [] then [i] else [i] + Offsets(parts[1..], i + |parts[0]|)
  }

  lemma Associate<T>(a: seq<T>, b: seq<T>, c: seq<T>)
    ensures (a + b) + c == a + (b + c)
  {
  }

  /// `s[i..]` split after `u`.
  lemma SplitAt(s: string, i: nat, u: string, v: string)
    requires i <= |s| && s[i..] == u + v
    ensures i + |u| <= |s| && s[i..i + |u|] == u && s[i + |u|..] == v
  {
    assert s[i..i + |u|] == (u + v)[..|u|];
    assert s[i + |u|..] == (u + v)[|u|..];
  }

  /// Parts laid out from `i` in `s`, followed by `after`: each part lies
  /// at its offset.
  lemma {:induction false} ConcatSlices(s: string, i: nat, parts: seq<string>, after: string)
    requires i <= |s| && s[i..] == Concat(parts) + after
    ensures var e := Offsets(parts, i);
      e[|parts|] <= |s| && s[e[|parts|]..] == after &&
      forall j :: 0 <= j < |parts| ==> e[j + 1] == e[j] + |parts[j]| && HoldsAt(s, e[j], parts[j])
    decreases |parts|
  {
    if parts == [] {
      assert Concat(parts) + after == after;
    } else {
      var e := Offsets(parts, i);
      var rest := Offsets(parts[1..], i + |parts[0]|);
      assert e == [i] + rest;
      Associate(parts[0], Concat(parts[1..]), after);
      SplitAt(s, i, parts[0], Concat(parts[1..]) + after);
      ConcatSlices(s, i + |parts[0]|, parts[1..], after);
      forall j | 0 <= j < |parts|
        ensures e[j + 1] == e[j] + |parts[j]| && HoldsAt(s, e[j], parts[j])
      {
        if j > 0 {
          assert e[j] == rest[j - 1] && e[j + 1] == rest[j] && parts[j] == parts[1..][j - 1];
        }
      }
      assert e[|parts|] == rest[|parts[1..]|];
    }
  }

  /// Whether the access at `j` is written after a dot: every access but
  /// the first and the list indexes.
  function DottedAt(p: seq<Access>, first: bool, j: nat): bool
    requires j < |p|
  {
    !(first && j == 0) && !p[j].ListIndex?
  }

  /// The segments `seg` writes for the accesses of `p`, each told whether
  /// it follows a dot.
  function SegmentsOf(p: seq<Access>, first: bool, seg: (Access, bool) -> string): (r: seq<string>)
    ensures |r| == |p|
    decreases |p|
  {
    if p == [] then [] else [seg(p[0], !first && !p[0].ListIndex?)] + SegmentsOf(p[1..], false, seg)
  }

  lemma {:induction false} SegmentsOfAt(p: seq<Access>, first: bool, seg: (Access, bool) -> string, j: nat)
    requires j < |p|
    ensures SegmentsOf(p, first, seg)[j] == seg(p[j], DottedAt(p, first, j))
    decreases j
  {
    if j > 0 {
      SegmentsOfAt(p[1..], false, seg, j - 1);
      assert p[1..][j - 1] == p[j];
    }
  }

  /// The written segments of the accesses of `p`.
  function Segments(p: seq<Access>, first: bool): (r: seq<string>)
    ensures |r| == |p|
  {
    SegmentsOf(p, first, Segment)
  }

  lemma SegmentsAt(p: seq<Access>, first: bool, j: nat)
    requires j < |p|
    ensures Segments(p, first)[j] == Segment(p[j], DottedAt(p, first, j))
  {
    SegmentsOfAt(p, first, Segment, j);
  }

  lemma {:induction false} RenderedSegments(p: seq<Access>, first: bool)
    ensures Rendered(p, first) == Concat(Segments(p, first))
    decreases |p|
  {
    if p != [] {
      RenderedSegments(p[1..], false);
      assert Segments(p, first)[1..] == Segments(p[1..], false);
    }
  }

  /// After the first access, every written access starts with a dot or a
  /// bracket.
  lemma SegmentStart(p: seq<Access>, first: bool, j: nat)
    requires 0 < j < |p|
    ensures Segment(p[j], DottedAt(p, first, j)) != []
    ensures Segment(p[j], DottedAt(p, first, j))[0] in {'.', '['}
  {
    if p[j].ListIndex? {
      assert Segment(p[j], false) == "[" + Digits(p[j].index) + "]";
    }
  }

  /// Of parts laid out at the offsets `e` and followed by `after`, part
  /// `j` is placed at its offset when the part after it, or `after`,
  /// starts with a dot or a bracket.
  lemma PlacedPart(s: string, parts: seq<string>, e: seq<nat>, after: string, j: nat)
    requires |e| == |parts| + 1 && j < |parts|
    requires after == [] || after[0] == '.' || after[0] == '['
    requires e[|parts|] <= |s| && s[e[|parts|]..] == after
    requires forall k :: 0 <= k < |parts| ==> e[k + 1] == e[k] + |parts[k]| && HoldsAt(s, e[k], parts[k])
    requires j + 1 < |parts| ==> parts[j + 1] != [] && (parts[j + 1][0] == '.' || parts[j + 1][0] == '[')
    ensures Placed(s, e[j], parts[j])
  {
    if j + 1 < |parts| {
      assert HoldsAt(s, e[j + 1], parts[j + 1]);
      assert s[e[j + 1]..e[j + 1] + |parts[j + 1]|][0] == s[e[j + 1]];
    } else if after != [] {
      assert s[e[|parts|]..][0] == s[e[|parts|]];
    }
  }

  /// The segment of the access at `j` of a rendered path is placed at
  /// its offset.
  lemma PlacedSegment(s: string, p: seq<Access>, first: bool, e: seq<nat>, after: string, j: nat)
    requires |e| == |p| + 1 && j < |p|
    requires after == [] || after[0] == '.' || after[0] == '['
    requires e[|p|] <= |s| && s[e[|p|]..] == after
    requires var parts := Segments(p, first);
      forall k :: 0 <= k < |parts| ==> e[k + 1] == e[k] + |parts[k]| && HoldsAt(s, e[k], parts[k])
    ensures Placed(s, e[j], Segment(p[j], DottedAt(p, first, j)))
    ensures e[j + 1] == e[j] + |Segment(p[j], DottedAt(p, first, j))|
  {
    var parts := Segments(p, first);
    NextSegmentStarts(p, first, j);
    PlacedPart(s, parts, e, after, j);
    SegmentsAt(p, first, j);
  }

  /// The segment after the one at `j`, if any, starts a new access.
  lemma NextSegmentStarts(p: seq<Access>, first: bool, j: nat)
    requires j < |p|
    ensures j + 1 < |p| ==>
              Segments(p, first)[j + 1] != [] &&
              (Segments(p, first)[j + 1][0] == '.' || Segments(p, first)[j + 1][0] == '[')
  {
    if j + 1 < |p| {
      SegmentsAt(p, first, j + 1);
      SegmentStart(p, first, j + 1);
    }
  }

  /// A rendered path followed by `after`, which is empty or starts a new
  /// access, is read access by access, each at its offset.
  lemma RenderedReads(s: string, i: nat, p: seq<Access>, first: bool, after: string) returns (e: seq<nat>)
    requires AllValid(p) && i <= |s| && s[i..] == Rendered(p, first) + after
    requires after == [] || after[0] == '.' || after[0] == '['
    ensures |e| == |p| + 1 && e[0] == i && e[|p|] + |after| == |s|
    ensures forall j :: 0 <= j < |p| ==> ReadsAt(s, e[j], p[j], e[j + 1])
  {
    RenderedSegments(p, first);
    ConcatSlices(s, i, Segments(p, first), after);
    e := Offsets(Segments(p, first), i);
    forall j | 0 <= j < |p|
      ensures ReadsAt(s, e[j], p[j], e[j + 1])
    {
      PlacedSegment(s, p, first, e, after, j);
      assert ValidAccess(p[j]);
      SegmentPlaced(s, e[j], p[j], DottedAt(p, first, j));
    }
  }

  /// `ParseFrom` one item at a time.
  lemma ParseFromStep(s: string, i: nat)
    requires i <= |s|
    ensures var next := NextAt(s, i);
      ParseFrom(s, i) ==
        if next.None? then Ok([])
        else if next.value.0.Err? then Err(next.value.0.error)
        else Prepend((next.value.0.value, next.value.1), ParseFrom(s, next.value.2))
  {
  }

  lemma AccessesCons(x: (Access, nat), rest: seq<(Access, nat)>)
    ensures Accesses([x] + rest) == [x.0] + Accesses(rest)
  {
  }

  /// Parsing from `i` reads the accesses `p` and reaches `m`: it fails
  /// as parsing from `m` does, or succeeds with `p` followed by what is
  /// read from `m` on.
  predicate ReadsThrough(s: string, i: nat, m: nat, p: seq<Access>)
    requires i <= m <= |s|
  {
    var r := ParseFrom(s, i);
    var q := ParseFrom(s, m);
    (q.Err? ==> r == q) && (q.Ok? ==> r.Ok? && Accesses(r.value) == p + Accesses(q.value))
  }

  lemma ReadsThroughCons(s: string, i: nat, a: Access, k: nat, m: nat, p: seq<Access>)
    requires i <= k <= m <= |s|
    requires ReadsAt(s, i, a, k) && ReadsThrough(s, k, m, p)
    ensures ReadsThrough(s, i, m, [a] + p)
  {
    var j := NextAt(s, i).value.1;
    assert ParseFrom(s, i) == Prepend((a, j), ParseFrom(s, k));
    var q := ParseFrom(s, m);
    if q.Ok? {
      AccessesCons((a, j), ParseFrom(s, k).value);
      assert [a] + (p + Accesses(q.value)) == [a] + p + Accesses(q.value);
    }
  }

  /// Items read one after the other at the offsets `e` are what
  /// `ParseFrom` collects between the first and the last offset.
  lemma {:induction false} ReadsAll(s: string, e: seq<nat>, p: seq<Access>)
    requires |e| == |p| + 1 && e[|p|] <= |s|
    requires forall j :: 0 <= j < |p| ==> ReadsAt(s, e[j], p[j], e[j + 1])
    ensures e[0] <= e[|p|] && ReadsThrough(s, e[0], e[|p|], p)
    decreases |p|
  {
    if p == [] {
      ReadsNothing(s, e[0]);
    } else {
      ReadsRest(s, e, p);
      ReadsAll(s, e[1..], p[1..]);
      ReadsThroughCons(s, e[0], p[0], e[1], e[|p|], p[1..]);
      HeadTail(p);
    }
  }

  lemma HeadTail<T>(s: seq<T>)
    requires s != []
    ensures [s[0]] + s[1..] == s
  {
  }

  /// From `i` to `i` nothing is read.
  lemma ReadsNothing(s: string, i: nat)
    requires i <= |s|
    ensures ReadsThrough(s, i, i, [])
  {
    var r := ParseFrom(s, i);
    if r.Ok? {
      assert [] + Accesses(r.value) == Accesses(r.value);
    }
  }

  /// The first read, and the reads after it shifted by one.
  lemma ReadsRest(s: string, e: seq<nat>, p: seq<Access>)
    requires p != [] && |e| == |p| + 1 && e[|p|] <= |s|
    requires forall j :: 0 <= j < |p| ==> ReadsAt(s, e[j], p[j], e[j + 1])
    ensures ReadsAt(s, e[0], p[0], e[1])
    ensures |e[1..]| == |p[1..]| + 1 && e[1..][|p[1..]|] == e[|p|]
    ensures forall j :: 0 <= j < |p[1..]| ==> ReadsAt(s, e[1..][j], p[1..][j], e[1..][j + 1])
  {
    assert ReadsAt(s, e[0], p[0], e[1]);
    forall j | 0 <= j < |p| - 1
      ensures ReadsAt(s, e[1..][j], p[1..][j], e[1..][j + 1])
    {
      assert ReadsAt(s, e[j + 1], p[j + 1], e[j + 2]);
    }
  }

  /// Rendering then parsing gives back every path the parser can produce.
  lemma RenderedRoundTrip(p: seq<Access>)
    requires AllValid(p)
    ensures Parsed(Rendered(p, true)).Ok?
    ensures Accesses(Parsed(Rendered(p, true)).value.parts) == p
  {
    var s := Rendered(p, true);
    assert s[0..] == s + [];
    var e := RenderedReads(s, 0, p, true, []);
    ReadsAll(s, e, p);
    assert ParseFrom(s, |s|) == Ok([]);
    assert p + [] == p;
  }

  /// `Display` as written round-trips a dotted path (no list index after
  /// the first access).
  lemma DottedRoundTrip(fp: FieldPath)
    requires AllValid(Accesses(fp.parts)) && Dotted(Accesses(fp.parts))
    ensures Parsed(Display(fp)).Ok?
    ensures Accesses(Parsed(Display(fp)).value.parts) == Accesses(fp.parts)
  {
    WrittenIsRendered(Accesses(fp.parts), true);
    RenderedRoundTrip(Accesses(fp.parts));
  }

  /// `Display` as written puts a dot before a list index: the path `a[3]`
  /// is written `a.[3]`.
  lemma ListIndexWritten()
    ensures Display(FieldPath([(Field("a"), 1), (ListIndex(3), 2)])) == "a.[3]"
  {
    var p := [Field("a"), ListIndex(3)];
    assert Accesses([(Field("a"), 1), (ListIndex(3), 2)]) == p;
    assert p[1..] == [ListIndex(3)] && p[1..][1..] == [];
    assert Digits(3) == "3";
  }

  /// The path syntax reads `a[3]` as a field followed by a list index.
  lemma ListIndexParsed()
    ensures Parsed("a[3]").Ok?
    ensures Accesses(Parsed("a[3]").value.parts) == [Field("a"), ListIndex(3)]
  {
    var p := [Field("a"), ListIndex(3)];
    assert p[1..] == [ListIndex(3)] && p[1..][1..] == [];
    assert Digits(3) == "3";
    assert Rendered(p, true) == "a[3]";
    NotNumber("a");
    RenderedRoundTrip(p);
  }

  /// A dot directly followed by another delimiter is refused: an
  /// identifier was expected right after the dot.
  lemma DotWithoutIdent(s: string, i: nat)
    requires i + 1 < |s| && s[i] == '.' && IsDelimiter(s[i + 1])
    ensures NextAt(s, i).Some? && NextAt(s, i).value.0 == Err(ExpectedIdent(i + 1))
  {
    assert NextTokenAt(s, i) == Some((Dot, i + 1));
  }

  /// After any well-formed prefix, a dot followed by another delimiter
  /// ends the parse with `ExpectedIdent` at the position after the dot.
  lemma EmptyFieldRejected(p: seq<Access>, c: char, after: string)
    requires AllValid(p) && IsDelimiter(c)
    ensures Parsed(Rendered(p, true) + "." + [c] + after) == Err(ExpectedIdent(|Rendered(p, true)| + 1))
  {
    var prefix := Rendered(p, true);
    var s := prefix + "." + [c] + after;
    var rest := "." + [c] + after;
    Associate(prefix, ".", [c]);
    Associate(prefix, "." + [c], after);
    assert s[0..] == prefix + rest;
    var e := RenderedReads(s, 0, p, true, rest);
    ReadsAll(s, e, p);
    var i := |prefix|;
    assert s[i] == '.' && s[i + 1] == c;
    DotWithoutIdent(s, i);
    ParseFromStep(s, i);
  }

  /// `a.[3]`, which `Display` writes for `a[3]`, does not parse.
  lemma DottedListIndexRejected()
    ensures Parsed("a.[3]") == Err(ExpectedIdent(2))
  {
    NotNumber("a");
    assert Rendered([Field("a")], true) == "a";
    EmptyFieldRejected([Field("a")], '[', "3]");
    assert "a" + "." + ['['] + "3]" == "a.[3]";
  }

  /// A one-letter name that is neither a digit, a sign nor a delimiter.
  predicate Letter(a: Access) {
    a.Field? && |a.name| == 1 && !IsDigit(a.name[0]) && a.name[0] != '+' && !IsDelimiter(a.name[0])
  }

  /// One-letter fields are fields the parser can produce.
  lemma LettersValid(p: seq<Access>)
    requires forall k :: 0 <= k < |p| ==> Letter(p[k])
    ensures AllValid(p)
  {
    forall k | 0 <= k < |p|
      ensures ValidAccess(p[k])
    {
      NotNumber(p[k].name);
    }
  }

  /// Rendering an extended list extends the rendering by one segment.
  lemma {:induction false} RenderedAppend(p: seq<Access>, a: Access, first: bool)
    ensures Rendered(p + [a], first) == Rendered(p, first) + Segment(a, !(first && p == []) && !a.ListIndex?)
    decreases |p|
  {
    if p != [] {
      var head := Segment(p[0], !first && !p[0].ListIndex?);
      assert (p + [a])[0] == p[0];
      assert (p + [a])[1..] == p[1..] + [a];
      RenderedAppend(p[1..], a, false);
      Associate(head, Rendered(p[1..], false), Segment(a, !a.ListIndex?));
    }
  }

  /// One-letter fields render as their letters joined by dots.
  lemma LettersRendered(p: seq<Access>, a: Access)
    requires p != [] && Letter(a)
    ensures Rendered(p + [a], true) == Rendered(p, true) + "." + a.name
  {
    RenderedAppend(p, a, true);
  }

  lemma FiveValid(p: seq<Access>)
    requires p == [Field("b"), Field("c"), Field("d"), Field("e"), Field("f")]
    ensures AllValid(p)
  {
    LettersValid(p);
  }

  /// The five one-letter fields of the doubled-dot example, rendered.
  lemma FiveLetters(p: seq<Access>)
    requires p == [Field("b"), Field("c"), Field("d"), Field("e"), Field("f")]
    ensures Rendered(p, true) == "b.c.d.e.f"
  {
    var p1 := [Field("b")];
    var p2 := p1 + [Field("c")];
    var p3 := p2 + [Field("d")];
    var p4 := p3 + [Field("e")];
    assert p4 + [Field("f")] == p;
    assert Rendered(p1, true) == "b";
    LettersRendered(p1, Field("c"));
    assert Rendered(p2, true) == "b.c";
    LettersRendered(p2, Field("d"));
    assert Rendered(p3, true) == "b.c.d";
    LettersRendered(p3, Field("e"));
    assert Rendered(p4, true) == "b.c.d.e";
    LettersRendered(p4, Field("f"));
    assert Rendered(p, true) == "b.c.d.e.f";
  }

  /// A doubled dot after valid accesses is refused right after the first
  /// dot.
  lemma DoubledDotAfter(s: string, p: seq<Access>, after: string)
    requires AllValid(p) && s == Rendered(p, true) + ".." + after
    ensures Parsed(s) == Err(ExpectedIdent(|Rendered(p, true)| + 1))
  {
    EmptyFieldRejected(p, '.', after);
    DoubledDot(Rendered(p, true), after);
  }

  lemma DoubledDot(prefix: string, after: string)
    ensures prefix + "." + ['.'] + after == prefix + ".." + after
  {
  }

  /// The doubled dot of `b.c.d.e.f..g` is refused at position 10, right
  /// after the first of the two dots.
  lemma DoubledDotRejected()
    ensures Parsed("b.c.d.e.f..g") == Err(ExpectedIdent(10))
  {
    var p := [Field("b"), Field("c"), Field("d"), Field("e"), Field("f")];
    FiveValid(p);
    FiveLetters(p);
    DoubledDotText();
    DoubledDotAfter("b.c.d.e.f..g", p, "g");
  }

  lemma DoubledDotText()
    ensures "b.c.d.e.f..g" == "b.c.d.e.f" + ".." + "g"
  {
  }

  // ---------------------------------------------------------------------
  // The parser object

  /// `PathParser`: the path and the position reached.
  class PathParser {
    const path: string
    var index: nat

    predicate Valid()
      reads this
    {
      index <= |path|
    }

    /// `PathParser::new`.
    constructor (path: string)
      ensures this.path == path && index == 0 && Valid()
    {
      this.path := path;
      index := 0;
    }

    /// `next_token`: at the end, nothing and the position stays; else the
    /// token at the position, which moves past it.
    method NextToken() returns (t: Option<Token>)
      requires Valid()
      modifies this
      ensures Valid()
      ensures var expected := NextTokenAt(path, old(index));
        (expected.None? ==> t.None? && index == old(index)) &&
        (expected.Some? ==> t == Some(expected.value.0) && index == expected.value.1)
    {
      if index >= |path| {
        return None;
      }
      var c := path[index];
      if c == '.' {
        index := index + 1;
        return Some(Dot);
      } else if c == '[' {
        index := index + 1;
        return Some(OpenBracket);
      } else if c == ']' {
        index := index + 1;
        return Some(CloseBracket);
      }
      var k := index;
      while k < |path|
        invariant index <= k <= |path|
        invariant forall m :: index <= m < k ==> !IsDelimiter(path[m])
      {
        if IsDelimiter(path[k]) {
          IdentEndAt(path, index, k);
          t := Some(Ident(path[index..k]));
          index := k;
          return;
        }
        k := k + 1;
      }
      IdentEndAt(path, index, |path|);
      t := Some(Ident(path[index..|path|]));
      index := |path|;
    }

    /// `token_to_access(token)`.
    method TokenToAccess(token: Token) returns (r: Result<Access, ReflectPathError>)
      requires Valid()
      modifies this
      ensures Valid()
      ensures (r, index) == TokenToAccessAt(path, old(index), token)
    {
      var current := index;
      match token
      case Dot =>
        var next := NextToken();
        if next.Some? && next.value.Ident? {
          r := Ok(IdentAccess(next.value.text));
        } else {
          r := Err(ExpectedIdent(current));
        }
      case OpenBracket =>
        var next := NextToken();
        if !(next.Some? && next.value.Ident?) {
          return Err(ExpectedIdent(current));
        }
        var n := ParseUsize(next.value.text);
        if n.None? {
          return Err(IndexParseError);
        }
        var close := NextToken();
        if close != Some(CloseBracket) {
          return Err(ExpectedToken(current, "]"));
        }
        r := Ok(ListIndex(n.value));
      case CloseBracket =>
        r := Err(UnexpectedToken(current, "]"));
      case Ident(v) =>
        r := Ok(IdentAccess(v));
    }

    /// `Iterator::next`: the next item with the position after its
    /// leading token, or nothing at the end.
    method Next() returns (item: Option<(Result<Access, ReflectPathError>, nat)>)
      requires Valid()
      modifies this
      ensures Valid()
      ensures var expected := NextAt(path, old(index));
        (expected.None? ==> item.None? && index == old(index)) &&
        (expected.Some? ==> item == Some((expected.value.0, expected.value.1)) && index == expected.value.2)
    {
      var token := NextToken();
      if token.None? {
        return None;
      }
      var at := index;
      var access := TokenToAccess(token.value);
      item := Some((access, at));
    }
  }

  /// `FieldPath::parse`: items are collected until the parser runs out,
  /// and the first error ends the parse.
  method Parse(s: string) returns (r: Result<FieldPath, ReflectPathError>)
    ensures r == Parsed(s)
  {
    var parser := new PathParser(s);
    var parts: seq<(Access, nat)> := [];
    JoinedNone(ParseFrom(s, 0));
    while true
      invariant parser.path == s && parser.Valid()
      invariant Joined(parts, ParseFrom(s, parser.index)) == ParseFrom(s, 0)
      decreases |s| - parser.index
    {
      ghost var before := parser.index;
      var item := parser.Next();
      if item.None? {
        assert parts + [] == parts;
        break;
      }
      var (access, at) := item.value;
      ParseFromStep(s, before);
      if access.Err? {
        return Err(access.error);
      }
      JoinedStep(parts, (access.value, at), ParseFrom(s, parser.index));
      parts := parts + [(access.value, at)];
    }
    r := Ok(FieldPath(parts));
  }

  /// The items collected so far ahead of what is still to be parsed.
  function Joined(parts: seq<(Access, nat)>, r: Result<seq<(Access, nat)>, ReflectPathError>): Result<seq<(Access, nat)>, ReflectPathError> {
    match r
    case Ok(rest) => Ok(parts + rest)
    case Err(e) => Err(e)
  }

  lemma JoinedNone(r: Result<seq<(Access, nat)>, ReflectPathError>)
    ensures Joined([], r) == r
  {
    if r.Ok? {
      assert [] + r.value == r.value;
    }
  }

  lemma JoinedStep(parts: seq<(Access, nat)>, x: (Access, nat), r: Result<seq<(Access, nat)>, ReflectPathError>)
    ensures Joined(parts + [x], r) == Joined(parts, Prepend(x, r))
  {
    if r.Ok? {
      assert (parts + [x]) + r.value == parts + ([x] + r.value);
    }
  }
}
