/// The path types of `src/path/mod.rs`: an entity path through the
/// hierarchy (`root/a/b`), an access path into a component
/// (`Component.field[0].x`) and the property path joining the two with `@`.
module Path {
  import opened Wrappers
  import opened Text
  import opened Order
  import PathField

  // ---------------------------------------------------------------------
  // Entity paths

  /// The names of the entities from the root down; a name may be empty.
  datatype EntityPath = EntityPath(parts: seq<string>)

  /// `EntityPath::from_str`: split on `/`, skip the leading empty pieces.
  /// Parsing never fails.
  function EntityFromStr(src: string): (p: EntityPath)
    ensures p.parts == [] || p.parts[0] != ""
    ensures forall k :: 0 <= k < |p.parts| ==> '/' !in p.parts[k]
  {
    EntityPath(SkipEmpty(Split(src, '/')))
  }

  /// `Display for EntityPath`: the names joined with `/`.
  function EntityDisplay(p: EntityPath): string {
    Join(p.parts, '/')
  }

  /// Only the leading empty pieces are dropped: the parts are the pieces of
  /// the split from some point on, and everything before is empty.
  lemma EntityParts(src: string)
    ensures var pieces := Split(src, '/');
      var parts := EntityFromStr(src).parts;
      |parts| <= |pieces| && parts == pieces[|pieces| - |parts|..] &&
      forall k :: 0 <= k < |pieces| - |parts| ==> pieces[k] == ""
  {
  }

  /// Displaying a parsed entity path gives the text back without its
  /// leading slashes.
  lemma EntityDisplayFromStr(src: string)
    ensures EntityDisplay(EntityFromStr(src)) == TrimStart(src, '/')
  {
    JoinSkipSplit(src, '/');
  }

  /// A path whose names hold no `/` and whose first name is not empty
  /// parses back from its display.
  lemma EntityFromStrDisplay(p: EntityPath)
    requires p.parts == [] || p.parts[0] != ""
    requires forall k :: 0 <= k < |p.parts| ==> '/' !in p.parts[k]
    ensures EntityFromStr(EntityDisplay(p)) == p
  {
    SkipSplitJoin(p.parts, '/');
  }

  /// A leading slash changes nothing: any number of them is skipped.
  lemma EntitySkipsSlash(src: string)
    ensures EntityFromStr("/" + src) == EntityFromStr(src)
  {
    assert ("/" + src)[1..] == src;
  }

  /// An interior `//` after a name is kept as an empty name.
  lemma EntityKeepsEmpty(name: string, rest: string)
    requires name != [] && '/' !in name
    ensures EntityFromStr(name + "//" + rest).parts == [name, ""] + Split(rest, '/')
  {
    SplitDoubled(name, '/', rest);
  }

  /// The empty text is the empty path.
  lemma EntityEmpty()
    ensures EntityFromStr("").parts == []
  {
  }

  // ---------------------------------------------------------------------
  // Access paths

  /// The names a component type is registered under and the type id each
  /// one stands for (`TypeRegistry::get_with_name`).
  type Registry = map<string, nat>

  datatype AccessPath = AccessPath(componentTypeId: nat, componentName: string, fieldPath: PathField.FieldPath)

  datatype ParsePathError =
    | MissingDelimiter
    | InvalidComponentType
    | NoComponentName
    | InvalidFieldPath(error: PathField.ReflectPathError)

  /// `AccessPath::parse`: the component name runs up to the first `.`; it
  /// must be registered, and the rest must parse as a field path.
  function AccessParse(registry: Registry, path: string): (r: Result<AccessPath, ParsePathError>)
    ensures r == Err(NoComponentName) <==> '.' !in path
    ensures r.Ok? ==> '.' !in r.value.componentName && r.value.componentName in registry
    ensures r.Ok? ==> registry[r.value.componentName] == r.value.componentTypeId
  {
    match SplitOnce(path, '.')
    case None => Err(NoComponentName)
    case Some((component, field)) =>
      if component !in registry then Err(InvalidComponentType)
      else
        match PathField.Parsed(field)
        case Err(e) => Err(InvalidFieldPath(e))
        case Ok(fp) => Ok(AccessPath(registry[component], component, fp))
  }

  /// The outcome for a component name and the field text after it: an
  /// unregistered name is refused before the field path is looked at, and
  /// a field path error comes back wrapped.
  lemma AccessParseAt(registry: Registry, name: string, field: string)
    requires '.' !in name
    ensures AccessParse(registry, name + "." + field) ==
      if name !in registry then Err(InvalidComponentType)
      else match PathField.Parsed(field)
        case Err(e) => Err(InvalidFieldPath(e))
        case Ok(fp) => Ok(AccessPath(registry[name], name, fp))
  {
    SplitOnceAt(name, '.', field);
  }

  /// `Display for AccessPath`: component name, `.`, field path.
  function AccessDisplay(ap: AccessPath): string {
    ap.componentName + "." + PathField.Display(ap.fieldPath)
  }

  /// A registered name followed by a dotted field path parses, and the
  /// parsed path displays as the text it came from.
  lemma AccessRoundTrip(registry: Registry, name: string, p: seq<PathField.Access>)
    requires '.' !in name && name in registry
    requires PathField.AllValid(p) && PathField.Dotted(p)
    ensures var r := AccessParse(registry, name + "." + PathField.Rendered(p, true));
      r.Ok? && r.value.componentName == name && r.value.componentTypeId == registry[name] &&
      PathField.Accesses(r.value.fieldPath.parts) == p &&
      AccessDisplay(r.value) == name + "." + PathField.Rendered(p, true)
  {
    var field := PathField.Rendered(p, true);
    AccessParseAt(registry, name, field);
    PathField.RenderedRoundTrip(p);
    PathField.WrittenIsRendered(p, true);
  }

  /// A field path error after a registered component name comes back
  /// wrapped.
  lemma AccessFieldError(registry: Registry, name: string, field: string, e: PathField.ReflectPathError)
    requires '.' !in name && name in registry && PathField.Parsed(field) == Err(e)
    ensures AccessParse(registry, name + "." + field) == Err(InvalidFieldPath(e))
  {
    AccessParseAt(registry, name, field);
  }

  /// An empty field after a registered component name is refused at the
  /// position of the missing name within the field path.
  lemma AccessEmptyField(registry: Registry, name: string)
    requires '.' !in name && name in registry
    ensures AccessParse(registry, name + "." + "b.c.d.e.f..g") == Err(InvalidFieldPath(PathField.ExpectedIdent(10)))
  {
    PathField.DoubledDotRejected();
    AccessFieldError(registry, name, "b.c.d.e.f..g", PathField.ExpectedIdent(10));
  }

  /// With nothing registered, every path with a `.` is refused for its
  /// component type, whatever follows.
  lemma AccessUnregistered(path: string)
    requires '.' in path
    ensures AccessParse(map[], path) == Err(InvalidComponentType)
  {
  }

  // ---------------------------------------------------------------------
  // Ordering of access paths

  /// The derived order on field accesses: `Field` before `TupleIndex`
  /// before `ListIndex`, then by payload.
  function CmpAccess(a: PathField.Access, b: PathField.Access): Ordering {
    match (a, b)
    case (Field(x), Field(y)) => CmpString(x, y)
    case (Field(_), _) => Less
    case (TupleIndex(_), Field(_)) => Greater
    case (TupleIndex(x), TupleIndex(y)) => CmpNat(x, y)
    case (TupleIndex(_), ListIndex(_)) => Less
    case (ListIndex(x), ListIndex(y)) => CmpNat(x, y)
    case (ListIndex(_), _) => Greater
  }

  /// The derived order on recorded items: access, then position.
  function CmpItem(x: (PathField.Access, nat), y: (PathField.Access, nat)): Ordering {
    Then(CmpAccess(x.0, y.0), CmpNat(x.1, y.1))
  }

  /// The derived order on field paths: their items lexicographically.
  function CmpFieldPath(a: PathField.FieldPath, b: PathField.FieldPath): Ordering {
    CmpSeq(a.parts, b.parts, CmpItem)
  }

  /// `Ord for AccessPath`: type id first, then field path; the component
  /// name is not compared.
  function CmpAccessPath(a: AccessPath, b: AccessPath): Ordering {
    Then(CmpNat(a.componentTypeId, b.componentTypeId), CmpFieldPath(a.fieldPath, b.fieldPath))
  }

  lemma CmpAccessFlip(a: PathField.Access, b: PathField.Access)
    ensures CmpAccess(a, b) == Flip(CmpAccess(b, a))
  {
    if a.Field? && b.Field? {
      CmpStringFlip(a.name, b.name);
    }
  }

  lemma CmpAccessEqual(a: PathField.Access, b: PathField.Access)
    ensures CmpAccess(a, b) == Equal <==> a == b
  {
    if a.Field? && b.Field? {
      CmpStringEqual(a.name, b.name);
    }
  }

  lemma CmpItemLaws()
    ensures Antisymmetric(CmpItem) && EqualOnlyOnEqual(CmpItem)
  {
    forall x: (PathField.Access, nat), y: (PathField.Access, nat)
      ensures CmpItem(x, y) == Flip(CmpItem(y, x))
      ensures CmpItem(x, y) == Equal <==> x == y
    {
      CmpAccessFlip(x.0, y.0);
      CmpAccessEqual(x.0, y.0);
      ThenFlip(CmpAccess(y.0, x.0), CmpNat(y.1, x.1));
    }
  }

  /// Swapping the operands flips the answer.
  lemma CmpAccessPathFlip(a: AccessPath, b: AccessPath)
    ensures CmpAccessPath(a, b) == Flip(CmpAccessPath(b, a))
  {
    CmpItemLaws();
    CmpSeqFlip(a.fieldPath.parts, b.fieldPath.parts, CmpItem);
    ThenFlip(CmpNat(b.componentTypeId, a.componentTypeId), CmpFieldPath(b.fieldPath, a.fieldPath));
  }

  /// Two access paths tie exactly when type id and field path agree; the
  /// component names may differ.
  lemma CmpAccessPathEqual(a: AccessPath, b: AccessPath)
    ensures CmpAccessPath(a, b) == Equal <==>
      a.componentTypeId == b.componentTypeId && a.fieldPath == b.fieldPath
  {
    CmpItemLaws();
    CmpSeqEqual(a.fieldPath.parts, b.fieldPath.parts, CmpItem);
  }

  /// A smaller type id decides, whatever the field paths.
  lemma CmpAccessPathTypeFirst(a: AccessPath, b: AccessPath)
    requires a.componentTypeId < b.componentTypeId
    ensures CmpAccessPath(a, b) == Less
  {
  }

  // ---------------------------------------------------------------------
  // Property paths

  datatype PropertyPath = PropertyPath(entity: EntityPath, access: AccessPath)

  /// `PropertyPath::parse`: the entity path runs up to the first `@`, the
  /// access path is the rest.
  function PropertyParse(registry: Registry, path: string): (r: Result<PropertyPath, ParsePathError>)
    ensures r == Err(MissingDelimiter) <==> '@' !in path
  {
    match SplitOnce(path, '@')
    case None => Err(MissingDelimiter)
    case Some((entity, access)) =>
      match AccessParse(registry, access)
      case Err(e) => Err(e)
      case Ok(ap) => Ok(PropertyPath(EntityFromStr(entity), ap))
  }

  /// The outcome for an entity text without `@` and the access text after
  /// the `@`: the access path's error, or both parts parsed.
  lemma PropertyParseAt(registry: Registry, entity: string, access: string)
    requires '@' !in entity
    ensures PropertyParse(registry, entity + "@" + access) ==
      match AccessParse(registry, access)
      case Err(e) => Err(e)
      case Ok(ap) => Ok(PropertyPath(EntityFromStr(entity), ap))
  {
    SplitOnceAt(entity, '@', access);
  }

  /// An empty entity part is allowed and gives the empty entity path.
  lemma PropertyEmptyEntity(registry: Registry, access: string)
    requires AccessParse(registry, access).Ok?
    ensures PropertyParse(registry, "@" + access) == Ok(PropertyPath(EntityPath([]), AccessParse(registry, access).value))
  {
    var s := "@" + access;
    assert s[1..] == access;
    assert SplitOnce(s, '@') == Some(([], access));
    EntityEmpty();
  }

  /// An empty field in the access part is reported as for the access path
  /// alone.
  lemma PropertyEmptyField(registry: Registry, entity: string, name: string)
    requires '@' !in entity && '.' !in name && name in registry
    ensures PropertyParse(registry, entity + "@" + (name + "." + "b.c.d.e.f..g")) ==
      Err(InvalidFieldPath(PathField.ExpectedIdent(10)))
  {
    PropertyParseAt(registry, entity, name + "." + "b.c.d.e.f..g");
    AccessEmptyField(registry, name);
  }
}
