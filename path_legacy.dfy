/// The older path types of `src/path.rs`: an entity path that can grow and
/// shrink in place, and a field path kept as the dotted text itself with
/// the byte range of every segment, checked against a type registry.
module PathLegacy {
  import opened Wrappers
  import opened Text
  import opened Order
  import Path

  datatype ParsePathError =
    | MissingDelimiter
    | ContainsEmptyField
    | FieldContainsWhitespace
    | InvalidComponentType
    | NoComponentName

  // ---------------------------------------------------------------------
  // Entity paths

  class EntityPath {
    var parts: seq<string>

    /// `EntityPath::from_str`, as in the newer path types.
    constructor FromStr(src: string)
      ensures parts == Path.EntityFromStr(src).parts
    {
      parts := Path.EntityFromStr(src).parts;
    }

    /// `push`: one more name at the end.
    method Push(part: string)
      modifies this
      ensures parts == old(parts) + [part]
    {
      parts := parts + [part];
    }

    /// `pop`: removes and returns the last name, if any; pushing it back
    /// restores the path.
    method Pop() returns (r: Option<string>)
      modifies this
      ensures old(parts) == [] ==> r == None && parts == []
      ensures old(parts) != [] ==> r == Some(old(parts)[|old(parts)| - 1]) && parts + [r.value] == old(parts)
    {
      if parts == [] {
        r := None;
      } else {
        r := Some(parts[|parts| - 1]);
        parts := parts[..|parts| - 1];
      }
    }
  }

  // ---------------------------------------------------------------------
  // Segment checks

  /// `char::is_whitespace`: the Unicode White_Space property.
  predicate IsWhitespace(c: char) {
    ('\U{0009}' <= c <= '\U{000D}') || c == '\U{0020}' || c == '\U{0085}' || c == '\U{00A0}' ||
    c == '\U{1680}' || ('\U{2000}' <= c <= '\U{200A}') || c == '\U{2028}' || c == '\U{2029}' ||
    c == '\U{202F}' || c == '\U{205F}' || c == '\U{3000}'
  }

  predicate HasWhitespace(s: string) {
    exists k :: 0 <= k < |s| && IsWhitespace(s[k])
  }

  /// What is wrong with segment `idx` on its own: an empty segment, then
  /// whitespace, then (for the first segment) an unregistered component.
  function SegmentError(registry: Path.Registry, part: string, idx: nat): Option<ParsePathError> {
    if part == [] then Some(ContainsEmptyField)
    else if HasWhitespace(part) then Some(FieldContainsWhitespace)
    else if idx == 0 && part !in registry then Some(InvalidComponentType)
    else None
  }

  /// The error of the first offending segment from `from` on, if any.
  function FirstError(registry: Path.Registry, parts: seq<string>, from: nat): Option<ParsePathError>
    requires from <= |parts|
    decreases |parts| - from
  {
    if from == |parts| then None
    else
      match SegmentError(registry, parts[from], from)
      case Some(e) => Some(e)
      case None => FirstError(registry, parts, from + 1)
  }

  /// There is an error exactly when some segment has one, and then it is
  /// the error of the first such segment.
  lemma {:induction false} FirstErrorSpec(registry: Path.Registry, parts: seq<string>, from: nat)
    requires from <= |parts|
    ensures FirstError(registry, parts, from).None? <==>
      forall j :: from <= j < |parts| ==> SegmentError(registry, parts[j], j).None?
    ensures FirstError(registry, parts, from).Some? ==>
      exists j :: from <= j < |parts| && SegmentError(registry, parts[j], j) == FirstError(registry, parts, from) &&
        (forall i :: from <= i < j ==> SegmentError(registry, parts[i], i).None?)
    decreases |parts| - from
  {
    if from < |parts| && SegmentError(registry, parts[from], from).None? {
      FirstErrorSpec(registry, parts, from + 1);
    }
  }

  /// A first segment that is neither empty nor spaced out but unregistered
  /// decides, whatever follows it.
  lemma UnregisteredFirst(registry: Path.Registry, parts: seq<string>)
    requires parts != [] && parts[0] != [] && !HasWhitespace(parts[0]) && parts[0] !in registry
    ensures FirstError(registry, parts, 0) == Some(InvalidComponentType)
  {
  }

  /// The checks never report a missing delimiter or a missing component
  /// name.
  lemma {:induction false} FirstErrorKinds(registry: Path.Registry, parts: seq<string>, from: nat)
    requires from <= |parts|
    ensures FirstError(registry, parts, from) != Some(MissingDelimiter)
    ensures FirstError(registry, parts, from) != Some(NoComponentName)
    decreases |parts| - from
  {
    if from < |parts| && SegmentError(registry, parts[from], from).None? {
      FirstErrorKinds(registry, parts, from + 1);
    }
  }

  // ---------------------------------------------------------------------
  // The text of a field path and its segment ranges

  /// The dotted text and the range `start..end` of each segment in it.
  datatype Layout = Layout(text: string, ranges: seq<(nat, nat)>)

  predicate InBounds(l: Layout) {
    forall i :: 0 <= i < |l.ranges| ==> l.ranges[i].0 <= l.ranges[i].1 <= |l.text|
  }

  /// The ranges start at 0, follow each other with one `.` in between,
  /// and the last one ends the text.
  ghost predicate WellFormed(l: Layout) {
    |l.ranges| >= 1 && InBounds(l) &&
    l.ranges[0].0 == 0 && l.ranges[|l.ranges| - 1].1 == |l.text| &&
    (forall i :: 0 <= i < |l.ranges| - 1 ==> l.ranges[i + 1].0 == l.ranges[i].1 + 1 && l.text[l.ranges[i].1] == '.') &&
    (forall i, j :: 0 <= i < j < |l.ranges| ==> l.ranges[i].1 < l.ranges[j].0)
  }

  /// The segments the ranges cut out of the text (`iter`).
  function Slices(l: Layout): (r: seq<string>)
    requires InBounds(l)
    ensures |r| == |l.ranges|
  {
    seq(|l.ranges|, i requires 0 <= i < |l.ranges| => l.text[l.ranges[i].0..l.ranges[i].1])
  }

  /// `push(part)`: a dot, then `part`, whose range covers exactly it.
  function Pushed(l: Layout, part: string): Layout {
    Layout(l.text + "." + part, l.ranges + [(|l.text| + 1, |l.text| + 1 + |part|)])
  }

  /// `pop()`: with more than one segment, drop the last range and cut the
  /// text at the end of the one before; otherwise nothing changes.
  function Popped(l: Layout): Layout
    requires |l.ranges| > 1 ==> l.ranges[|l.ranges| - 2].1 <= |l.text|
  {
    if |l.ranges| > 1 then Layout(l.text[..l.ranges[|l.ranges| - 2].1], l.ranges[..|l.ranges| - 1])
    else l
  }

  /// Pushing keeps the earlier segments and adds `part`.
  lemma PushedSlices(l: Layout, part: string)
    requires InBounds(l)
    ensures InBounds(Pushed(l, part))
    ensures Slices(Pushed(l, part)) == Slices(l) + [part]
  {
    var p := Pushed(l, part);
    var n := |l.ranges|;
    assert p.text[..|l.text|] == l.text;
    forall i | 0 <= i < n + 1
      ensures p.ranges[i].0 <= p.ranges[i].1 <= |p.text|
    {
      if i < n {
        assert p.ranges[i] == l.ranges[i];
      }
    }
    forall i | 0 <= i < n + 1
      ensures Slices(p)[i] == (Slices(l) + [part])[i]
    {
      if i < n {
        assert p.ranges[i] == l.ranges[i];
      } else {
        assert p.text[|l.text| + 1..] == part;
      }
    }
  }

  lemma PushedWellFormed(l: Layout, part: string)
    requires WellFormed(l)
    ensures WellFormed(Pushed(l, part))
  {
    var p := Pushed(l, part);
    var n := |l.ranges|;
    PushedSlices(l, part);
    forall i | 0 <= i < n
      ensures p.ranges[i + 1].0 == p.ranges[i].1 + 1 && p.text[p.ranges[i].1] == '.'
    {
      assert p.ranges[i] == l.ranges[i];
      if i < n - 1 {
        assert p.ranges[i + 1] == l.ranges[i + 1];
        assert p.text[..|l.text|] == l.text;
      }
    }
    forall i, j | 0 <= i < j < n + 1
      ensures p.ranges[i].1 < p.ranges[j].0
    {
      assert p.ranges[i] == l.ranges[i];
      if j < n {
        assert p.ranges[j] == l.ranges[j];
      }
    }
  }

  /// Popping right after pushing restores the text and the ranges.
  lemma PopPushed(l: Layout, part: string)
    requires l.ranges != [] && l.ranges[|l.ranges| - 1].1 == |l.text|
    ensures Popped(Pushed(l, part)) == l
  {
    var p := Pushed(l, part);
    assert p.ranges[|p.ranges| - 2] == l.ranges[|l.ranges| - 1];
    assert p.text[..|l.text|] == l.text;
    assert p.ranges[..|p.ranges| - 1] == l.ranges;
  }

  /// The layout `parse` builds for its segments: the first one at 0, each
  /// later one pushed.
  function LayoutOf(parts: seq<string>): (l: Layout)
    requires parts != []
    ensures |l.ranges| == |parts| && l.ranges[|l.ranges| - 1].1 == |l.text|
    decreases |parts|
  {
    if |parts| == 1 then Layout(parts[0], [(0, |parts[0]|)])
    else Pushed(LayoutOf(parts[..|parts| - 1]), parts[|parts| - 1])
  }

  /// The layout of some segments cuts out exactly those segments.
  lemma {:induction false} LayoutOfSlices(parts: seq<string>)
    requires parts != []
    ensures InBounds(LayoutOf(parts)) && Slices(LayoutOf(parts)) == parts
    decreases |parts|
  {
    var n := |parts|;
    if n == 1 {
      assert parts[0][0..|parts[0]|] == parts[0];
    } else {
      var init := parts[..n - 1];
      LayoutOfSlices(init);
      PushedSlices(LayoutOf(init), parts[n - 1]);
      assert init + [parts[n - 1]] == parts;
    }
  }

  /// The ranges of a layout delimit its segments.
  lemma {:induction false} LayoutOfWellFormed(parts: seq<string>)
    requires parts != []
    ensures WellFormed(LayoutOf(parts))
    decreases |parts|
  {
    if |parts| > 1 {
      LayoutOfWellFormed(parts[..|parts| - 1]);
      PushedWellFormed(LayoutOf(parts[..|parts| - 1]), parts[|parts| - 1]);
    }
  }

  /// The text of a layout is its segments joined with dots.
  lemma {:induction false} LayoutOfText(parts: seq<string>)
    requires parts != []
    ensures LayoutOf(parts).text == Join(parts, '.')
    decreases |parts|
  {
    var n := |parts|;
    if n > 1 {
      var init := parts[..n - 1];
      LayoutOfText(init);
      JoinAppend(init, '.', parts[n - 1]);
      assert init + [parts[n - 1]] == parts;
    }
  }

  /// One more segment is one more push.
  lemma LayoutOfAppend(parts: seq<string>, part: string)
    requires parts != []
    ensures LayoutOf(parts + [part]) == Pushed(LayoutOf(parts), part)
  {
    assert (parts + [part])[..|parts|] == parts;
  }

  /// Popping a layout of several segments gives the layout without the
  /// last one.
  lemma LayoutOfPopped(parts: seq<string>)
    requires |parts| > 1
    ensures Popped(LayoutOf(parts)) == LayoutOf(parts[..|parts| - 1])
  {
    PopPushed(LayoutOf(parts[..|parts| - 1]), parts[|parts| - 1]);
  }

  // ---------------------------------------------------------------------
  // Field paths

  class FieldPath {
    var componentTypeId: nat
    var componentName: string
    var fieldPath: string
    var ranges: seq<(nat, nat)>
    /// The segments, the component name first.
    ghost var segments: seq<string>

    function State(): Layout
      reads this
    {
      Layout(fieldPath, ranges)
    }

    /// The text and ranges are the layout of the segments, the first of
    /// which is the component name.
    ghost predicate Valid()
      reads this
    {
      segments != [] && State() == LayoutOf(segments) && componentName == segments[0]
    }

    /// `iter`: the segments the ranges cut out of the text.
    function Iter(): (r: seq<string>)
      requires Valid()
      reads this
      ensures r == segments
    {
      LayoutOfSlices(segments);
      Slices(State())
    }

    constructor (typeId: nat, name: string, path: string, spans: seq<(nat, nat)>, ghost parts: seq<string>)
      ensures componentTypeId == typeId && componentName == name
      ensures fieldPath == path && ranges == spans && segments == parts
    {
      componentTypeId := typeId;
      componentName := name;
      fieldPath := path;
      ranges := spans;
      segments := parts;
    }

    /// `FieldPath::parse`: the segments between dots are checked in order
    /// and the first offending one decides the error. On success the text
    /// is the input itself and the ranges cut out its segments.
    static method Parse(registry: Path.Registry, path: string) returns (r: Result<FieldPath, ParsePathError>)
      ensures r.Err? <==> FirstError(registry, Split(path, '.'), 0).Some?
      ensures r.Err? ==> Some(r.error) == FirstError(registry, Split(path, '.'), 0)
      ensures r.Ok? ==> fresh(r.value) && r.value.Valid() && r.value.segments == Split(path, '.')
      ensures r.Ok? ==> r.value.fieldPath == path
      ensures r.Ok? ==> r.value.componentName in registry && r.value.componentTypeId == registry[r.value.componentName]
    {
      var parts := Split(path, '.');
      var typeId: Option<nat> := None;
      var componentName: Option<string> := None;
      var fieldPath := "";
      var ranges: seq<(nat, nat)> := [];
      var start := 0;
      var idx := 0;
      while idx < |parts|
        invariant 0 <= idx <= |parts|
        invariant FirstError(registry, parts, 0) == FirstError(registry, parts, idx)
        invariant idx == 0 ==> fieldPath == [] && ranges == [] && start == 0
        invariant idx > 0 ==> parts[0] in registry && typeId == Some(registry[parts[0]]) && componentName == Some(parts[0])
        invariant idx > 0 ==> Layout(fieldPath, ranges) == LayoutOf(parts[..idx]) && start == |fieldPath|
      {
        var part := parts[idx];
        if part == [] {
          return Err(ContainsEmptyField);
        } else if HasWhitespace(part) {
          return Err(FieldContainsWhitespace);
        }
        if idx == 0 {
          if part in registry {
            typeId := Some(registry[part]);
            componentName := Some(part);
          } else {
            return Err(InvalidComponentType);
          }
        } else {
          LayoutOfAppend(parts[..idx], part);
          assert parts[..idx] + [part] == parts[..idx + 1];
          fieldPath := fieldPath + ".";
          start := start + 1;
        }
        fieldPath := fieldPath + part;
        ranges := ranges + [(start, |fieldPath|)];
        start := |fieldPath|;
        idx := idx + 1;
      }
      assert parts[..idx] == parts;
      LayoutOfText(parts);
      JoinSplit(path, '.');
      if typeId.Some? && componentName.Some? {
        var fp := new FieldPath(typeId.value, componentName.value, fieldPath, ranges, parts);
        r := Ok(fp);
      } else {
        assert false;
        r := Err(NoComponentName);
      }
    }

    /// `push(part)`: appends `.part` and a range covering exactly `part`.
    method Push(part: string)
      requires Valid()
      modifies this
      ensures Valid() && State() == Pushed(old(State()), part)
      ensures segments == old(segments) + [part]
      ensures componentName == old(componentName) && componentTypeId == old(componentTypeId)
    {
      LayoutOfAppend(segments, part);
      fieldPath := fieldPath + ".";
      var start := |fieldPath|;
      fieldPath := fieldPath + part;
      ranges := ranges + [(start, |fieldPath|)];
      segments := segments + [part];
    }

    /// `pop()`: removes the last segment when there is more than one.
    method Pop()
      requires Valid()
      modifies this
      ensures Valid() && State() == Popped(old(State()))
      ensures segments == if |old(segments)| > 1 then old(segments)[..|old(segments)| - 1] else old(segments)
      ensures componentName == old(componentName) && componentTypeId == old(componentTypeId)
    {
      if |ranges| > 1 {
        LayoutOfPopped(segments);
        ranges := ranges[..|ranges| - 1];
        fieldPath := fieldPath[..ranges[|ranges| - 1].1];
        segments := segments[..|segments| - 1];
      }
    }

    /// `Display` as written: the component name, a dot, then the text,
    /// which already starts with the component name.
    function Display(): string
      reads this
    {
      componentName + "." + fieldPath
    }

    /// `Display` as evidently intended: the text itself.
    function DisplayIntended(): string
      reads this
    {
      fieldPath
    }

    /// `Ord`: component name first, then the text.
    function Cmp(other: FieldPath): Ordering
      reads this, other
    {
      Then(CmpString(componentName, other.componentName), CmpString(fieldPath, other.fieldPath))
    }
  }

  /// The ranges of a valid field path delimit its segments.
  lemma ValidWellFormed(fp: FieldPath)
    requires fp.Valid()
    ensures WellFormed(fp.State())
  {
    LayoutOfWellFormed(fp.segments);
  }

  /// Pushing a segment and popping it again restores the field path.
  lemma PushThenPop(l: Layout, parts: seq<string>, part: string)
    requires parts != [] && l == LayoutOf(parts)
    ensures Popped(Pushed(l, part)) == l
  {
    PopPushed(l, part);
  }

  /// Segments without dots, as `parse` produces them.
  ghost predicate Undotted(parts: seq<string>) {
    forall k :: 0 <= k < |parts| ==> '.' !in parts[k]
  }

  /// Reading the written display back gives the component name twice: one
  /// segment more than the path has.
  lemma DisplayRepeatsName(fp: FieldPath)
    requires fp.Valid() && Undotted(fp.segments)
    ensures Split(fp.Display(), '.') == [fp.componentName] + fp.segments
    ensures Split(fp.Display(), '.') != fp.segments
  {
    LayoutOfText(fp.segments);
    SplitAfter(fp.componentName, '.', fp.fieldPath);
    SplitJoin(fp.segments, '.');
  }

  /// The intended display parses back to the same segments, text and
  /// ranges.
  lemma DisplayIntendedRoundTrip(fp: FieldPath)
    requires fp.Valid() && Undotted(fp.segments)
    ensures Split(fp.DisplayIntended(), '.') == fp.segments
    ensures LayoutOf(Split(fp.DisplayIntended(), '.')) == fp.State()
  {
    LayoutOfText(fp.segments);
    SplitJoin(fp.segments, '.');
  }

  lemma CmpFlip(a: FieldPath, b: FieldPath)
    ensures a.Cmp(b) == Flip(b.Cmp(a))
  {
    CmpStringFlip(a.componentName, b.componentName);
    CmpStringFlip(a.fieldPath, b.fieldPath);
    ThenFlip(CmpString(b.componentName, a.componentName), CmpString(b.fieldPath, a.fieldPath));
  }

  /// Two field paths tie exactly when name and text agree; the type id and
  /// the ranges are not compared.
  lemma CmpEqual(a: FieldPath, b: FieldPath)
    ensures a.Cmp(b) == Equal <==> a.componentName == b.componentName && a.fieldPath == b.fieldPath
  {
    CmpStringEqual(a.componentName, b.componentName);
    CmpStringEqual(a.fieldPath, b.fieldPath);
  }

  // ---------------------------------------------------------------------
  // Property paths

  class PropertyPath {
    const entity: EntityPath
    const field: FieldPath

    constructor (e: EntityPath, f: FieldPath)
      ensures entity == e && field == f
    {
      entity := e;
      field := f;
    }

    /// `PropertyPath::parse`: the entity path runs up to the first `@`,
    /// the field path is the rest.
    static method Parse(registry: Path.Registry, path: string) returns (r: Result<PropertyPath, ParsePathError>)
      ensures r == Err(MissingDelimiter) <==> '@' !in path
      ensures '@' in path ==> var access := SplitOnce(path, '@').value.1;
        (r.Err? <==> FirstError(registry, Split(access, '.'), 0).Some?) &&
        (r.Err? ==> Some(r.error) == FirstError(registry, Split(access, '.'), 0))
      ensures r.Ok? ==> var (entity, access) := SplitOnce(path, '@').value;
        fresh(r.value) && fresh(r.value.entity) && fresh(r.value.field) &&
        r.value.entity.parts == Path.EntityFromStr(entity).parts &&
        r.value.field.Valid() && r.value.field.segments == Split(access, '.') && r.value.field.fieldPath == access
    {
      var split := SplitOnce(path, '@');
      if split.None? {
        r := Err(MissingDelimiter);
      } else {
        var (entity, access) := split.value;
        var e := new EntityPath.FromStr(entity);
        var f := FieldPath.Parse(registry, access);
        FirstErrorKinds(registry, Split(access, '.'), 0);
        if f.Err? {
          r := Err(f.error);
        } else {
          var p := new PropertyPath(e, f.value);
          r := Ok(p);
        }
      }
    }
  }
}
