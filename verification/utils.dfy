/** Field resolution and projection (utils.go).

    Go reflection over an entity's struct type is replaced by an explicit
    description of the type: its declared fields in order, each with its
    `bson` and `json` struct tags. A tag that is absent reads as "", which is
    what reflect.StructTag.Get reports. */
module Utils {
  import opened Results
  import opened Bson

  /** A declared struct field: its Go name and its `bson` and `json` tags. */
  datatype FieldDecl = FieldDecl(name: string, bsonTag: string, jsonTag: string)

  /** The static type of an entity: a struct, a pointer to some type, or any
      other kind of type. */
  datatype TypeDesc = Struct(fields: seq<FieldDecl>) | Pointer(elem: TypeDesc) | NonStruct

  /** The panics of the resolvers: the entity is not a struct, or it has
      neither an `ID` nor an `Id` field. */
  datatype ShapeError = NotAStruct | NoIdField

  /** One field of an entity value: its declaration, its current value and
      whether that value is the zero value of the field's Go type. */
  datatype FieldValue = FieldValue(decl: FieldDecl, value: Value, isZero: bool)

  /** contract.Order: a sort key and a signed direction. */
  datatype Order = Order(key: string, value: int)

  /** The resolvers look through one level of pointer, no more. */
  function Deref(t: TypeDesc): TypeDesc
  {
    if t.Pointer? then t.elem else t
  }

  ghost predicate HasField(fs: seq<FieldDecl>, name: string)
  {
    exists i :: 0 <= i < |fs| && fs[i].name == name
  }

  /** reflect.Type.FieldByName: the index of the first field declared with
      that name, if any. */
  function FieldByName(fs: seq<FieldDecl>, name: string): (r: Option<nat>)
    ensures r.Some? ==> r.value < |fs| && fs[r.value].name == name
    ensures r.Some? ==> forall j :: 0 <= j < r.value ==> fs[j].name != name
    ensures r.None? <==> !HasField(fs, name)
  {
    if fs == [] then None
    else if fs[0].name == name then Some(0)
    else
      match FieldByName(fs[1..], name)
      case None =>
        assert forall j :: 1 <= j < |fs| ==> fs[j] == fs[1..][j - 1];
        None
      case Some(k) => Some(k + 1)
  }

  /** strings.Split(tag, ",")[0]: the text before the first comma, or the
      whole tag when it has none. */
  function FirstSegment(tag: string): (r: string)
    ensures r <= tag
    ensures ',' !in r
    ensures r == tag || tag[|r|] == ','
  {
    if tag == [] || tag[0] == ',' then [] else [tag[0]] + FirstSegment(tag[1..])
  }

  /** The tag that names a field: `bson` if set, else `json`. */
  function TagName(f: FieldDecl): string
  {
    if f.bsonTag != "" then f.bsonTag else f.jsonTag
  }

  /** The storage name both resolvers give a field: the first segment of its
      tag, or the resolver's default when the field has no tag. */
  function StorageName(f: FieldDecl, default: string): string
  {
    var tag := TagName(f);
    if tag != "" then FirstSegment(tag) else default
  }

  /** getIDField: the storage name of the `ID` field, else of the `Id` field,
      with default "_id"; a panic when the type is not a struct (after one
      pointer) or has neither field. */
  function ResolveIdField(t: TypeDesc): (r: Result<string, ShapeError>)
    ensures !Deref(t).Struct? ==> r == Err(NotAStruct)
    ensures Deref(t).Struct? ==>
      (r.Err? <==> !HasField(Deref(t).fields, "ID") && !HasField(Deref(t).fields, "Id"))
    ensures r.Err? ==> r.error == NotAStruct || r.error == NoIdField
  {
    var s := Deref(t);
    if !s.Struct? then Err(NotAStruct)
    else
      match FieldByName(s.fields, "ID")
      case Some(i) => Ok(StorageName(s.fields[i], "_id"))
      case None =>
        match FieldByName(s.fields, "Id")
        case Some(i) => Ok(StorageName(s.fields[i], "_id"))
        case None => Err(NoIdField)
  }

  /** getDeletedAtField: "" when there is no `DeletedAt` field, otherwise its
      storage name with default "deleted_at"; a panic only when the type is
      not a struct. */
  function ResolveDeletedAtField(t: TypeDesc): (r: Result<string, ShapeError>)
    ensures r.Err? <==> !Deref(t).Struct?
    ensures r.Err? ==> r.error == NotAStruct
    ensures Deref(t).Struct? && !HasField(Deref(t).fields, "DeletedAt") ==> r == Ok("")
  {
    var s := Deref(t);
    if !s.Struct? then Err(NotAStruct)
    else
      match FieldByName(s.fields, "DeletedAt")
      case None => Ok("")
      case Some(i) => Ok(StorageName(s.fields[i], "deleted_at"))
  }

  /** A tag written as `name,options` names the field `name`; a tag without a
      comma names the field by the whole tag. */
  lemma FirstSegmentOfTag(name: string, options: string)
    requires ',' !in name
    ensures FirstSegment(name) == name
    ensures FirstSegment(name + "," + options) == name
  {
    var tag := name + "," + options;
    var r := FirstSegment(tag);
    assert tag[|name|] == ',';
    assert forall j :: 0 <= j < |name| ==> tag[j] == name[j] && tag[j] != ',';
    assert forall j :: 0 <= j < |r| ==> r[j] == tag[j] && r[j] != ',';
  }

  /** A field whose tag has no options is stored under the whole tag. */
  lemma StorageNameOfPlainTag(f: FieldDecl, default: string)
    requires TagName(f) != "" && ',' !in TagName(f)
    ensures StorageName(f, default) == TagName(f)
  {
  }

  /** Taking the first segment twice changes nothing. */
  lemma FirstSegmentIdempotent(tag: string)
    ensures FirstSegment(FirstSegment(tag)) == FirstSegment(tag)
  {
  }

  /** `ID` wins over `Id`: whenever a field named `ID` exists, the first such
      field names the identifier, whatever `Id` fields there are. */
  lemma IdFieldPrefersID(fs: seq<FieldDecl>, i: nat)
    requires i < |fs| && fs[i].name == "ID"
    requires forall j :: 0 <= j < i ==> fs[j].name != "ID"
    ensures ResolveIdField(Struct(fs)) == Ok(StorageName(fs[i], "_id"))
    ensures ResolveIdField(Pointer(Struct(fs))) == ResolveIdField(Struct(fs))
  {
  }

  /** Without an `ID` field the first `Id` field names the identifier. */
  lemma IdFieldFallsBackToId(fs: seq<FieldDecl>, i: nat)
    requires !HasField(fs, "ID")
    requires i < |fs| && fs[i].name == "Id"
    requires forall j :: 0 <= j < i ==> fs[j].name != "Id"
    ensures ResolveIdField(Struct(fs)) == Ok(StorageName(fs[i], "_id"))
  {
    var k := FieldByName(fs, "Id").value;
    assert k == i;
  }

  /** The pointer is dereferenced once: a pointer to a pointer, or to a
      non-struct, is rejected like a non-struct. */
  lemma ResolversDerefOnce(t: TypeDesc)
    ensures ResolveIdField(Pointer(Pointer(t))) == Err(NotAStruct)
    ensures ResolveDeletedAtField(Pointer(Pointer(t))) == Err(NotAStruct)
    ensures t.Struct? ==> ResolveIdField(Pointer(t)) == ResolveIdField(t)
    ensures t.Struct? ==> ResolveDeletedAtField(Pointer(t)) == ResolveDeletedAtField(t)
  {
  }

  /** The first `DeletedAt` field names the soft-delete field. */
  lemma DeletedAtField(fs: seq<FieldDecl>, i: nat)
    requires i < |fs| && fs[i].name == "DeletedAt"
    requires forall j :: 0 <= j < i ==> fs[j].name != "DeletedAt"
    ensures ResolveDeletedAtField(Struct(fs)) == Ok(StorageName(fs[i], "deleted_at"))
  {
  }

  /** The first `DeletedAt` field yields "" (soft delete off) exactly when the
      tag that names it starts with a comma, such as `bson:",omitempty"`; an
      untagged `DeletedAt` is stored as "deleted_at". */
  lemma DeletedAtEmptyName(fs: seq<FieldDecl>, i: nat)
    requires i < |fs| && fs[i].name == "DeletedAt"
    requires forall j :: 0 <= j < i ==> fs[j].name != "DeletedAt"
    ensures ResolveDeletedAtField(Struct(fs)) == Ok("") <==>
      TagName(fs[i]) != "" && TagName(fs[i])[0] == ','
    ensures TagName(fs[i]) == "" ==> ResolveDeletedAtField(Struct(fs)) == Ok("deleted_at")
  {
  }

  // The entity shapes of the repository's tests.
  function User1(): TypeDesc
  {
    Pointer(Struct([FieldDecl("ID", "mongo_id", "id"),
                    FieldDecl("DeletedAt", "mongo_deleted_at", "deleted_at")]))
  }

  function User2(): TypeDesc
  {
    Pointer(Struct([FieldDecl("ID", "", "json_id"), FieldDecl("DeletedAt", "", "json_deleted_at")]))
  }

  function User3(): TypeDesc
  {
    Pointer(Struct([FieldDecl("ID", "", "json_id")]))
  }

  // The names the repository's tests expect. The `bson` tag wins (User1);
  // without one the `json` tag names the field (User2); without a
  // `DeletedAt` field soft delete is off, which is no error (User3).

  lemma User1IdField()
    ensures ResolveIdField(User1()) == Ok("mongo_id")
  {
    var fs := User1().elem.fields;
    assert forall j :: 0 <= j < |TagName(fs[0])| ==> TagName(fs[0])[j] != ',';
    IdFieldPrefersID(fs, 0);
    StorageNameOfPlainTag(fs[0], "_id");
  }

  lemma User1SoftDeleteField()
    ensures ResolveDeletedAtField(User1()) == Ok("mongo_deleted_at")
  {
    var fs := User1().elem.fields;
    assert forall j :: 0 <= j < |TagName(fs[1])| ==> TagName(fs[1])[j] != ',';
    DeletedAtField(fs, 1);
    StorageNameOfPlainTag(fs[1], "deleted_at");
  }

  lemma User2IdField()
    ensures ResolveIdField(User2()) == Ok("json_id")
  {
    var fs := User2().elem.fields;
    assert forall j :: 0 <= j < |TagName(fs[0])| ==> TagName(fs[0])[j] != ',';
    IdFieldPrefersID(fs, 0);
    StorageNameOfPlainTag(fs[0], "_id");
  }

  lemma User2SoftDeleteField()
    ensures ResolveDeletedAtField(User2()) == Ok("json_deleted_at")
  {
    var fs := User2().elem.fields;
    assert forall j :: 0 <= j < |TagName(fs[1])| ==> TagName(fs[1])[j] != ',';
    DeletedAtField(fs, 1);
    StorageNameOfPlainTag(fs[1], "deleted_at");
  }

  lemma User3SoftDeleteField()
    ensures ResolveDeletedAtField(User3()) == Ok("")
  {
  }

  /** The element OrdersToSort makes of one order: a negative direction sorts
      descending (-1), anything else, zero included, ascending (1). */
  function SortElem(o: Order): Elem
  {
    E(o.key, Int(if o.value < 0 then -1 else 1))
  }

  /** OrdersToSort: one sort element per order, keys in the same order, each
      direction normalised to -1 or 1. */
  function OrdersToSort(orders: seq<Order>): (r: seq<Elem>)
    ensures |r| == |orders|
    ensures forall i :: 0 <= i < |orders| ==> r[i].key == orders[i].key
    ensures forall i :: 0 <= i < |orders| ==>
      r[i].value.Int? && (r[i].value.i == -1 <==> orders[i].value < 0)
      && (r[i].value.i == 1 <==> orders[i].value >= 0)
  {
    if orders == [] then [] else [SortElem(orders[0])] + OrdersToSort(orders[1..])
  }

  /** OrdersToSort works order by order: converting a concatenation is
      concatenating the conversions. */
  lemma OrdersToSortAppend(a: seq<Order>, b: seq<Order>)
    ensures OrdersToSort(a + b) == OrdersToSort(a) + OrdersToSort(b)
  {
  }

  /** The key getNonZeroFields gives a field: its `bson` tag, else its `json`
      tag, else its declared name, cut at the first comma. */
  function UpdateKey(d: FieldDecl): string
  {
    var tag := TagName(d);
    FirstSegment(if tag != "" then tag else d.name)
  }

  /** Whether reflection may hand out the value of a field: Go exports an
      identifier that starts with an upper-case letter (ASCII here). */
  predicate IsExported(name: string)
  {
    |name| > 0 && 'A' <= name[0] <= 'Z'
  }

  /** The non-zero projection of a struct value, field by field in
      declaration order: a non-zero field is stored under its key (a later
      field overwrites an earlier one with the same key); a non-zero
      unexported field panics (Err with its name). */
  function Projection(fs: seq<FieldValue>): Result<map<string, Value>, string>
  {
    if fs == [] then Ok(map[])
    else
      var f := fs[|fs| - 1];
      match Projection(fs[..|fs| - 1])
      case Err(name) => Err(name)
      case Ok(m) =>
        if f.isZero then Ok(m)
        else if !IsExported(f.decl.name) then Err(f.decl.name)
        else Ok(m[UpdateKey(f.decl) := f.value])
  }

  /** Once a prefix has panicked, the projection of the whole panics the same
      way. */
  lemma {:induction false} ProjectionErrSticks(fs: seq<FieldValue>, k: nat)
    requires k <= |fs|
    requires Projection(fs[..k]).Err?
    ensures Projection(fs) == Projection(fs[..k])
    decreases |fs|
  {
    if k < |fs| {
      var init := fs[..|fs| - 1];
      assert init[..k] == fs[..k];
      ProjectionErrSticks(init, k);
    } else {
      assert fs[..k] == fs;
    }
  }

  ghost predicate PanicsAt(fs: seq<FieldValue>, i: int)
  {
    0 <= i < |fs| && !fs[i].isZero && !IsExported(fs[i].decl.name)
  }

  /** The projection fails exactly when some non-zero field is unexported,
      and then it names the first such field. */
  lemma {:induction false} ProjectionFailsIff(fs: seq<FieldValue>)
    ensures Projection(fs).Err? <==> exists i :: PanicsAt(fs, i)
    ensures Projection(fs).Err? ==>
      exists i :: PanicsAt(fs, i) && Projection(fs).error == fs[i].decl.name
        && forall j :: 0 <= j < i ==> !PanicsAt(fs, j)
    decreases |fs|
  {
    if fs != [] {
      var init := fs[..|fs| - 1];
      ProjectionFailsIff(init);
      forall i | PanicsAt(init, i) ensures PanicsAt(fs, i) { }
      forall i | PanicsAt(fs, i) && i < |fs| - 1 ensures PanicsAt(init, i) { }
      if Projection(init).Err? {
        var i :| PanicsAt(init, i) && Projection(init).error == init[i].decl.name
          && forall j :: 0 <= j < i ==> !PanicsAt(init, j);
        assert PanicsAt(fs, i);
        forall j | 0 <= j < i ensures !PanicsAt(fs, j) {
          assert !PanicsAt(init, j);
        }
      } else if Projection(fs).Err? {
        var i := |fs| - 1;
        assert PanicsAt(fs, i);
        forall j | 0 <= j < i ensures !PanicsAt(fs, j) {
          assert !PanicsAt(init, j);
        }
      }
    }
  }

  ghost predicate StoredUnder(fs: seq<FieldValue>, i: int, k: string)
  {
    0 <= i < |fs| && !fs[i].isZero && UpdateKey(fs[i].decl) == k
  }

  /** A key is in the projection exactly when some non-zero field has it. */
  lemma {:induction false} ProjectionKeys(fs: seq<FieldValue>, k: string)
    requires Projection(fs).Ok?
    ensures k in Projection(fs).value <==> exists i :: StoredUnder(fs, i, k)
    decreases |fs|
  {
    if fs != [] {
      ProjectionKeys(fs[..|fs| - 1], k);
      ProjectionKeysStep(fs, k);
    }
  }

  /** The inductive step of ProjectionKeys: the last field adds its key, if
      it is non-zero, to the keys of the fields before it. */
  lemma ProjectionKeysStep(fs: seq<FieldValue>, k: string)
    requires fs != [] && Projection(fs).Ok?
    requires var init := fs[..|fs| - 1];
      Projection(init).Ok? &&
      (k in Projection(init).value <==> exists i :: StoredUnder(init, i, k))
    ensures k in Projection(fs).value <==> exists i :: StoredUnder(fs, i, k)
  {
    var init, last := fs[..|fs| - 1], |fs| - 1;
    assert forall i :: StoredUnder(init, i, k) <==> StoredUnder(fs, i, k) && i != last;
    if StoredUnder(fs, last, k) {
      assert k in Projection(fs).value;
    } else {
      assert k in Projection(fs).value <==> k in Projection(init).value;
    }
  }

  /** The value stored under a key is that of the last non-zero field with
      that key. */
  lemma {:induction false} ProjectionLastWins(fs: seq<FieldValue>, i: nat)
    requires Projection(fs).Ok?
    requires i < |fs| && !fs[i].isZero
    requires forall j :: i < j < |fs| ==> !StoredUnder(fs, j, UpdateKey(fs[i].decl))
    ensures UpdateKey(fs[i].decl) in Projection(fs).value
    ensures Projection(fs).value[UpdateKey(fs[i].decl)] == fs[i].value
    decreases |fs|
  {
    var init := fs[..|fs| - 1];
    if i < |fs| - 1 {
      forall j | i < j < |init| ensures !StoredUnder(init, j, UpdateKey(fs[i].decl)) {
        assert init[j] == fs[j];
        assert !StoredUnder(fs, j, UpdateKey(fs[i].decl));
      }
      ProjectionLastWins(init, i);
      assert !StoredUnder(fs, |fs| - 1, UpdateKey(fs[i].decl));
    }
  }

  /** The projection is empty (and UpdateNonZero issues nothing) exactly when
      every field is zero. */
  lemma ProjectionEmptyIff(fs: seq<FieldValue>)
    ensures Projection(fs) == Ok(map[]) <==> forall i :: 0 <= i < |fs| ==> fs[i].isZero
  {
    ProjectionFailsIff(fs);
    if forall i :: 0 <= i < |fs| ==> fs[i].isZero {
      assert Projection(fs).Ok?;
      var m := Projection(fs).value;
      forall k | k in m ensures false {
        ProjectionKeys(fs, k);
      }
      assert m == map[];
    } else {
      var i :| 0 <= i < |fs| && !fs[i].isZero;
      if Projection(fs).Ok? {
        ProjectionKeys(fs, UpdateKey(fs[i].decl));
        assert StoredUnder(fs, i, UpdateKey(fs[i].decl));
      }
    }
  }

  /** getNonZeroFields: walks the fields in declaration order, filling the
      result map in place. */
  method NonZeroFields(fields: seq<FieldValue>) returns (r: Result<map<string, Value>, string>)
    ensures r == Projection(fields)
  {
    var result: map<string, Value> := map[];
    var i := 0;
    while i < |fields|
      invariant 0 <= i <= |fields|
      invariant Projection(fields[..i]) == Ok(result)
    {
      var field := fields[i];
      assert fields[..i + 1][..i] == fields[..i];
      if !field.isZero {
        if !IsExported(field.decl.name) {
          // reflect.Value.Interface panics on an unexported field
          ProjectionErrSticks(fields, i + 1);
          return Err(field.decl.name);
        }
        result := result[UpdateKey(field.decl) := field.value];
      }
      i := i + 1;
    }
    assert fields[..i] == fields;
    r := Ok(result);
  }
}
