/// Rust's `std::cmp::Ordering` and the comparisons the path types use:
/// integers, characters, and the lexicographic order of slices and strings
/// that `#[derive(Ord)]` and `str::cmp` produce.
module Order {

  datatype Ordering = Less | Equal | Greater

  /// `Ordering::reverse`.
  function Flip(o: Ordering): Ordering {
    match o
    case Less => Greater
    case Equal => Equal
    case Greater => Less
  }

  /// `Ordering::then`: the second comparison decides only a tie.
  function Then(o: Ordering, next: Ordering): (r: Ordering)
    ensures r == Equal <==> o == Equal && next == Equal
    ensures o != Equal ==> r == o
  {
    if o == Equal then next else o
  }

  lemma ThenFlip(o: Ordering, next: Ordering)
    ensures Then(Flip(o), Flip(next)) == Flip(Then(o, next))
  {
  }

  function CmpNat(a: nat, b: nat): (r: Ordering)
    ensures r == Less <==> a < b
    ensures r == Equal <==> a == b
    ensures r == Greater <==> a > b
  {
    if a < b then Less else if a == b then Equal else Greater
  }

  /// Characters compare by code point, which for the UTF-8 strings of the
  /// source is also their byte order.
  function CmpChar(a: char, b: char): (r: Ordering)
    ensures r == Less <==> a < b
    ensures r == Equal <==> a == b
  {
    if a < b then Less else if a == b then Equal else Greater
  }

  /// A comparison whose arguments may be swapped by flipping its answer.
  ghost predicate Antisymmetric<T(!new)>(cmp: (T, T) -> Ordering) {
    forall x, y :: cmp(x, y) == Flip(cmp(y, x))
  }

  /// A comparison that answers `Equal` exactly on equal values.
  ghost predicate EqualOnlyOnEqual<T(!new)>(cmp: (T, T) -> Ordering) {
    forall x, y :: cmp(x, y) == Equal <==> x == y
  }

  /// Lexicographic order: the first differing element decides, and a
  /// proper prefix comes first.
  function CmpSeq<T>(a: seq<T>, b: seq<T>, cmp: (T, T) -> Ordering): Ordering
    decreases |a|
  {
    if a == [] then (if b == [] then Equal else Less)
    else if b == [] then Greater
    else Then(cmp(a[0], b[0]), CmpSeq(a[1..], b[1..], cmp))
  }

  lemma {:induction false} CmpSeqFlip<T(!new)>(a: seq<T>, b: seq<T>, cmp: (T, T) -> Ordering)
    requires Antisymmetric(cmp)
    ensures CmpSeq(a, b, cmp) == Flip(CmpSeq(b, a, cmp))
    decreases |a|
  {
    if a != [] && b != [] {
      CmpSeqFlip(a[1..], b[1..], cmp);
      ThenFlip(cmp(b[0], a[0]), CmpSeq(b[1..], a[1..], cmp));
    }
  }

  lemma {:induction false} CmpSeqEqual<T(!new)>(a: seq<T>, b: seq<T>, cmp: (T, T) -> Ordering)
    requires EqualOnlyOnEqual(cmp)
    ensures CmpSeq(a, b, cmp) == Equal <==> a == b
    decreases |a|
  {
    if a != [] && b != [] {
      CmpSeqEqual(a[1..], b[1..], cmp);
      assert a == [a[0]] + a[1..] && b == [b[0]] + b[1..];
    }
  }

  /// A proper prefix comes before the sequences that extend it.
  lemma {:induction false} CmpSeqPrefix<T(!new)>(a: seq<T>, b: seq<T>, cmp: (T, T) -> Ordering)
    requires EqualOnlyOnEqual(cmp) && b != []
    ensures CmpSeq(a, a + b, cmp) == Less
    decreases |a|
  {
    if a != [] {
      assert (a + b)[1..] == a[1..] + b;
      CmpSeqPrefix(a[1..], b, cmp);
    }
  }

  /// Strings compare lexicographically by character (`str::cmp`).
  function CmpString(a: string, b: string): Ordering {
    CmpSeq(a, b, CmpChar)
  }

  lemma CmpStringFlip(a: string, b: string)
    ensures CmpString(a, b) == Flip(CmpString(b, a))
  {
    CmpSeqFlip(a, b, CmpChar);
  }

  lemma CmpStringEqual(a: string, b: string)
    ensures CmpString(a, b) == Equal <==> a == b
  {
    CmpSeqEqual(a, b, CmpChar);
  }
}
