/** The repository engine (crudrepository.go): its configuration, the filter
    it builds, the driver command each CRUD operation issues (or the result
    it returns without issuing one) and how driver outcomes become
    repository results. */
module CrudRepo {
  import opened Results
  import opened Bson
  import opened Utils
  import opened Store

  /** The repository's errors: repository.ErrNotFound,
      repository.ErrDuplicatedKey, an inserted id of the wrong type, a panic
      of the non-zero projection on an unexported field, and any other driver
      error passed on. */
  datatype RepoError =
    | NotFound
    | DuplicatedKey
    | UnexpectedIdType
    | UnexportedField(name: string)
    | StoreFailure(cause: StoreError)

  /** What an operation does: return at once without a driver call, or issue
      one command whose outcome then decides the result. */
  datatype Plan<T> = Skip(result: Result<T, RepoError>) | Issue(cmd: Command)

  /** The clause that hides soft-deleted documents:
      {"$or": [{"deleted_at": 0}, {"deleted_at": {"$exists": false}}]}.
      It names the literal key "deleted_at", whatever the entity's
      soft-delete field is called. */
  function VisibilityClause(): Elem
  {
    E("$or", Arr([M(map["deleted_at" := Int(0)]),
                  M(map["deleted_at" := M(map["$exists" := Bool(false)])])]))
  }

  /** What the clause lets through: a document whose "deleted_at" is 0 or
      missing. */
  predicate PassesVisibility(doc: map<string, Value>)
  {
    "deleted_at" !in doc || doc["deleted_at"] == Int(0)
  }

  /** The projection of Exists, ExistsByID and ExistsByIDs: the id only. */
  function IdProjection(idField: string): seq<Elem>
  {
    [E(idField, Int(1))]
  }

  /** The filter value {"$in": ids}. */
  function In(ids: seq<Value>): Value
  {
    M(map["$in" := Arr(ids)])
  }

  /** SetSort is called only when orders were given. */
  function SortOption(orders: seq<Order>): (r: Option<seq<Elem>>)
    ensures r.None? <==> orders == []
    ensures r.Some? ==> |r.value| == |orders|
  {
    if |orders| > 0 then Some(OrdersToSort(orders)) else None
  }

  /** `d` lists the pairs of `filter`, each exactly once, in some order. */
  ghost predicate ListsPairs(d: seq<Elem>, filter: map<string, Value>)
  {
    && (forall i :: 0 <= i < |d| ==> d[i].key in filter && d[i].value == filter[d[i].key])
    && (forall i, j :: 0 <= i < j < |d| ==> d[i].key != d[j].key)
    && (forall k :: k in filter ==> exists i :: 0 <= i < |d| && d[i].key == k)
  }

  /** The map an ordered document denotes (a later key overrides). */
  function PairsToMap(d: seq<Elem>): map<string, Value>
  {
    if d == [] then map[]
    else PairsToMap(d[..|d| - 1])[d[|d| - 1].key := d[|d| - 1].value]
  }

  /** Dropping the last element of a listing lists the map without that
      element's key. */
  lemma ListingDropLast(d: seq<Elem>, filter: map<string, Value>)
    requires d != [] && ListsPairs(d, filter)
    ensures d[|d| - 1].key in filter && filter[d[|d| - 1].key] == d[|d| - 1].value
    ensures ListsPairs(d[..|d| - 1], filter - {d[|d| - 1].key})
  {
  }

  /** Listing one more pair of a map: a listing of the pairs outside `rest`,
      extended by the pair of a key taken from `rest`, lists the pairs outside
      the smaller rest. */
  lemma ListingExtend(d: seq<Elem>, filter: map<string, Value>, rest: set<string>, k: string)
    requires ListsPairs(d, filter - rest) && k in rest && k in filter
    ensures ListsPairs(d + [E(k, filter[k])], filter - (rest - {k}))
  {
    var d' := d + [E(k, filter[k])];
    assert forall i :: 0 <= i < |d| ==> d'[i] == d[i];
    assert d'[|d|] == E(k, filter[k]);
    assert filter - (rest - {k}) == (filter - rest)[k := filter[k]];
  }

  /** Reading a listing back as a map gives the caller's map: no pair is
      lost, added or altered, whatever the order. */
  lemma {:induction false} ListingRoundTrip(d: seq<Elem>, filter: map<string, Value>)
    requires ListsPairs(d, filter)
    ensures PairsToMap(d) == filter
    decreases |d|
  {
    if d == [] {
      assert forall k :: k !in filter;
    } else {
      var init, last := d[..|d| - 1], d[|d| - 1];
      ListingDropLast(d, filter);
      ListingRoundTrip(init, filter - {last.key});
      assert filter == (filter - {last.key})[last.key := last.value];
    }
  }

  /** A one-pair map has one listing. */
  lemma SingletonListing(d: seq<Elem>, k: string, v: Value)
    requires |d| == 1 && ListsPairs(d, map[k := v])
    ensures d == [E(k, v)]
  {
  }

  /** The config record of a repository. The collection handle is the
      driver's and is not part of the model. */
  /** The range loop of buildFilter: one element per pair of the map, in the
      map's iteration order, which Go leaves unspecified (any order here). */
  method ListPairs(filter: map<string, Value>) returns (d: seq<Elem>)
    ensures |d| == |filter|
    ensures ListsPairs(d, filter)
    ensures PairsToMap(d) == filter
  {
    d := [];
    var rest := filter.Keys;
    while rest != {}
      invariant rest <= filter.Keys
      invariant |d| + |rest| == |filter|
      invariant ListsPairs(d, filter - rest)
      decreases rest
    {
      var k :| k in rest;
      ListingExtend(d, filter, rest, k);
      d := d + [E(k, filter[k])];
      rest := rest - {k};
    }
    assert filter - rest == filter;
    ListingRoundTrip(d, filter);
  }

  class CrudRepository {
    var unscoped: bool
    var idField: string
    var softDeleteField: string
    var softDeleteEnabled: bool

    /** Soft delete is on exactly when there is a soft-delete field. */
    ghost predicate Valid()
      reads this
    {
      softDeleteEnabled == (softDeleteField != "")
    }

    /** The struct literal. */
    constructor (unscoped: bool, idField: string, softDeleteField: string, softDeleteEnabled: bool)
      ensures this.unscoped == unscoped && this.idField == idField
      ensures this.softDeleteField == softDeleteField && this.softDeleteEnabled == softDeleteEnabled
    {
      this.unscoped := unscoped;
      this.idField := idField;
      this.softDeleteField := softDeleteField;
      this.softDeleteEnabled := softDeleteEnabled;
    }

    function IsUnscoped(): bool reads this { unscoped }

    function IDField(): string reads this { idField }

    function SoftDeleteField(): string reads this { softDeleteField }

    function SoftDeleteEnabled(): bool reads this { softDeleteEnabled }

    /** A fresh repository with the same configuration. */
    method Clone() returns (c: CrudRepository)
      ensures fresh(c)
      ensures c.unscoped == unscoped && c.idField == idField
      ensures c.softDeleteField == softDeleteField && c.softDeleteEnabled == softDeleteEnabled
    {
      c := new CrudRepository(unscoped, idField, softDeleteField, softDeleteEnabled);
    }

    /** A fresh copy that shows soft-deleted documents; the receiver is left
        as it was (the method modifies nothing that existed before). */
    method Unscoped() returns (cc: CrudRepository)
      ensures fresh(cc) && cc.unscoped
      ensures unchanged(this)
      ensures cc.idField == idField && cc.softDeleteField == softDeleteField
      ensures cc.softDeleteEnabled == softDeleteEnabled
      ensures Valid() ==> cc.Valid()
      ensures cc.Scope() == []
    {
      cc := Clone();
      cc.unscoped := true;
    }

    /** Whether this repository hides soft-deleted documents. */
    predicate HidesDeleted()
      reads this
    {
      softDeleteEnabled && !unscoped
    }

    /** What buildFilter appends after the caller's pairs. */
    function Scope(): (s: seq<Elem>)
      reads this
      ensures |s| <= 1
      ensures s != [] <==> HidesDeleted()
    {
      if HidesDeleted() then [VisibilityClause()] else []
    }

    /** `d` is what buildFilter may return for `filter`. */
    ghost predicate IsBuiltFilter(d: seq<Elem>, filter: map<string, Value>)
      reads this
    {
      |d| == |filter| + |Scope()| && ListsPairs(d[..|filter|], filter) && d[|filter|..] == Scope()
    }

    /** buildFilter: every caller pair once, in map-iteration order (any
        order), then the visibility clause when soft-deleted documents are
        hidden. */
    method BuildFilter(filter: map<string, Value>) returns (d: seq<Elem>)
      ensures |d| == |filter| + (if HidesDeleted() then 1 else 0)
      ensures ListsPairs(d[..|filter|], filter)
      ensures PairsToMap(d[..|filter|]) == filter
      ensures HidesDeleted() ==> d[|filter|] == VisibilityClause()
      ensures IsBuiltFilter(d, filter)
    {
      var pairs := ListPairs(filter);
      if softDeleteEnabled && !unscoped {
        d := pairs + [VisibilityClause()];
        assert d[..|filter|] == pairs;
      } else {
        d := pairs;
        assert d[..|filter|] == pairs;
      }
    }

    /** buildFilter(bson.M{idField: id}): the id pair, then the scope. */
    method BuildIdFilter(id: Value) returns (d: seq<Elem>)
      ensures d == [E(idField, id)] + Scope()
    {
      d := BuildFilter(map[idField := id]);
      SingletonListing(d[..1], idField, id);
    }

    /** buildFilter(bson.M{}): the scope alone. */
    method BuildEmptyFilter() returns (d: seq<Elem>)
      ensures d == Scope()
    {
      d := BuildFilter(map[]);
    }

    /** Create: insert the entity as given. */
    method Create(entity: Entity) returns (cmd: Command)
      ensures cmd.InsertOne? && cmd.document == entity
    {
      cmd := InsertOne(entity);
    }

    /** FindOne: the built filter, sorted when orders are given. */
    method FindOne(filter: map<string, Value>, orders: seq<Order>) returns (cmd: Command)
      ensures cmd.FindOne? && IsBuiltFilter(cmd.filter, filter)
      ensures cmd.sort == SortOption(orders) && cmd.projection == None
    {
      var d := BuildFilter(filter);
      cmd := Command.FindOne(d, SortOption(orders), None);
    }

    /** FindByID: FindOne on the id. */
    method FindByID(id: Value) returns (cmd: Command)
      ensures cmd == Command.FindOne([E(idField, id)] + Scope(), None, None)
    {
      var d := BuildIdFilter(id);
      cmd := Command.FindOne(d, None, None);
    }

    /** FindByIDs: no ids, no query and an empty collection; otherwise one
        Find on {idField: {"$in": ids}}. */
    method FindByIDs(ids: seq<Value>) returns (p: Plan<seq<Entity>>)
      ensures p.Skip? <==> ids == []
      ensures p.Skip? ==> p.result == Ok([])
      ensures p.Issue? ==> p.cmd == Find([E(idField, In(ids))] + Scope(), None, None, None)
    {
      if |ids| == 0 {
        return Skip(Ok([]));
      }
      var d := BuildIdFilter(In(ids));
      p := Issue(Find(d, None, None, None));
    }

    /** FindByPage: every visible document, skipped and limited. */
    method FindByPage(limit: int, offset: int, orders: seq<Order>) returns (cmd: Command)
      ensures cmd == Find(Scope(), Some(Page(offset, limit)), SortOption(orders), None)
    {
      var d := BuildEmptyFilter();
      cmd := Find(d, Some(Page(offset, limit)), SortOption(orders), None);
    }

    /** FindByFilter: one Find on the built filter. */
    method FindByFilter(filter: map<string, Value>) returns (cmd: Command)
      ensures cmd.Find? && IsBuiltFilter(cmd.filter, filter)
      ensures cmd.page == None && cmd.sort == None && cmd.projection == None
    {
      var d := BuildFilter(filter);
      cmd := Find(d, None, None, None);
    }

    /** FindByFilterWithPage: the built filter, skipped, limited, sorted when
        orders are given. */
    method FindByFilterWithPage(filter: map<string, Value>, limit: int, offset: int, orders: seq<Order>)
      returns (cmd: Command)
      ensures cmd.Find? && IsBuiltFilter(cmd.filter, filter)
      ensures cmd.page == Some(Page(offset, limit)) && cmd.sort == SortOption(orders)
      ensures cmd.projection == None
    {
      var d := BuildFilter(filter);
      cmd := Find(d, Some(Page(offset, limit)), SortOption(orders), None);
    }

    /** FindAll: every visible document. */
    method FindAll() returns (cmd: Command)
      ensures cmd == Find(Scope(), None, None, None)
    {
      var d := BuildEmptyFilter();
      cmd := Find(d, None, None, None);
    }

    /** Count: the visible documents. */
    method Count() returns (cmd: Command)
      ensures cmd == CountDocuments(Scope())
    {
      var d := BuildEmptyFilter();
      cmd := CountDocuments(d);
    }

    /** CountByFilter: the visible documents that match. */
    method CountByFilter(filter: map<string, Value>) returns (cmd: Command)
      ensures cmd.CountDocuments? && IsBuiltFilter(cmd.filter, filter)
    {
      var d := BuildFilter(filter);
      cmd := CountDocuments(d);
    }

    /** Exists: FindOne on the built filter, fetching the id only. */
    method Exists(filter: map<string, Value>) returns (cmd: Command)
      ensures cmd.FindOne? && IsBuiltFilter(cmd.filter, filter)
      ensures cmd.sort == None && cmd.projection == Some(IdProjection(idField))
    {
      var d := BuildFilter(filter);
      cmd := Command.FindOne(d, None, Some(IdProjection(idField)));
    }

    /** ExistsByID: FindOne on the id, fetching the id only. */
    method ExistsByID(id: Value) returns (cmd: Command)
      ensures cmd == Command.FindOne([E(idField, id)] + Scope(), None, Some(IdProjection(idField)))
    {
      var d := BuildIdFilter(id);
      cmd := Command.FindOne(d, None, Some(IdProjection(idField)));
    }

    /** ExistsByIDs: no ids, no query and an empty dict; otherwise one Find
        on {idField: {"$in": ids}} fetching ids only. */
    method ExistsByIDs(ids: seq<Value>) returns (p: Plan<map<Value, bool>>)
      ensures p.Skip? <==> ids == []
      ensures p.Skip? ==> p.result == Ok(map[])
      ensures p.Issue? ==>
        p.cmd == Find([E(idField, In(ids))] + Scope(), None, None, Some(IdProjection(idField)))
    {
      if |ids| == 0 {
        return Skip(Ok(map[]));
      }
      var d := BuildIdFilter(In(ids));
      p := Issue(Find(d, None, None, Some(IdProjection(idField))));
    }

    /** Update: $set the caller's map, as given, on every visible match. */
    method Update(filter: map<string, Value>, data: map<string, Value>) returns (cmd: Command)
      ensures cmd.UpdateMany? && IsBuiltFilter(cmd.filter, filter) && cmd.update == data
    {
      var d := BuildFilter(filter);
      cmd := UpdateMany(d, data);
    }

    /** UpdateByID: $set the caller's map on the document with that id. */
    method UpdateByID(id: Value, data: map<string, Value>) returns (cmd: Command)
      ensures cmd == UpdateOne([E(idField, id)] + Scope(), data)
    {
      var d := BuildIdFilter(id);
      cmd := UpdateOne(d, data);
    }

    /** UpdateNonZero: $set the entity's non-zero fields on every visible
        match; nothing to set, nothing issued. */
    method UpdateNonZero(filter: map<string, Value>, entity: Entity) returns (p: Plan<()>)
      ensures Projection(entity.fields).Err? ==>
        p == Skip(Err(UnexportedField(Projection(entity.fields).error)))
      ensures Projection(entity.fields) == Ok(map[]) ==> p == Skip(Ok(()))
      ensures p.Issue? <==> Projection(entity.fields).Ok? && Projection(entity.fields).value != map[]
      ensures p.Issue? ==> p.cmd.UpdateMany? && IsBuiltFilter(p.cmd.filter, filter)
      ensures p.Issue? ==> p.cmd.update == Projection(entity.fields).value
    {
      var data := NonZeroFields(entity.fields);
      if data.Err? {
        return Skip(Err(UnexportedField(data.error)));
      }
      if |data.value| == 0 {
        assert data.value == map[];
        return Skip(Ok(()));
      }
      var d := BuildFilter(filter);
      p := Issue(UpdateMany(d, data.value));
    }

    /** UpdateNonZeroByID: as UpdateNonZero, on the document with that id. */
    method UpdateNonZeroByID(id: Value, entity: Entity) returns (p: Plan<()>)
      ensures Projection(entity.fields).Err? ==>
        p == Skip(Err(UnexportedField(Projection(entity.fields).error)))
      ensures Projection(entity.fields) == Ok(map[]) ==> p == Skip(Ok(()))
      ensures p.Issue? <==> Projection(entity.fields).Ok? && Projection(entity.fields).value != map[]
      ensures p.Issue? ==>
        p.cmd == UpdateOne([E(idField, id)] + Scope(), Projection(entity.fields).value)
    {
      var data := NonZeroFields(entity.fields);
      if data.Err? {
        return Skip(Err(UnexportedField(data.error)));
      }
      if |data.value| == 0 {
        assert data.value == map[];
        return Skip(Ok(()));
      }
      var d := BuildIdFilter(id);
      p := Issue(UpdateOne(d, data.value));
    }

    /** softDelete: Update stamping the soft-delete field with `now`
        (time.Now().Unix()). */
    method SoftDelete(filter: map<string, Value>, now: int) returns (cmd: Command)
      ensures cmd.UpdateMany? && IsBuiltFilter(cmd.filter, filter)
      ensures cmd.update == map[softDeleteField := Int(now)]
    {
      cmd := Update(filter, map[softDeleteField := Int(now)]);
    }

    /** Delete: a soft delete when soft-deleted documents are hidden,
        otherwise DeleteMany on the caller's filter as given (no clause). */
    method Delete(filter: map<string, Value>, now: int) returns (cmd: Command)
      ensures HidesDeleted() ==> cmd.UpdateMany? && IsBuiltFilter(cmd.filter, filter)
      ensures HidesDeleted() ==> cmd.update == map[softDeleteField := Int(now)]
      ensures !HidesDeleted() ==> cmd == DeleteMany(filter)
    {
      if softDeleteEnabled && !unscoped {
        cmd := SoftDelete(filter, now);
        return;
      }
      cmd := DeleteMany(filter);
    }

    /** DeleteByID: a soft delete of the id, or DeleteOne on {idField: id}. */
    method DeleteByID(id: Value, now: int) returns (cmd: Command)
      ensures HidesDeleted() ==>
        cmd == UpdateMany([E(idField, id), VisibilityClause()], map[softDeleteField := Int(now)])
      ensures !HidesDeleted() ==> cmd == DeleteOne(map[idField := id])
    {
      var filter := map[idField := id];
      if softDeleteEnabled && !unscoped {
        cmd := SoftDelete(filter, now);
        SingletonListing(cmd.filter[..1], idField, id);
        return;
      }
      cmd := DeleteOne(filter);
    }

    /** DeleteByIDs: no ids, nothing issued; otherwise a soft delete of the
        ids, or DeleteMany on {idField: {"$in": ids}}. */
    method DeleteByIDs(ids: seq<Value>, now: int) returns (p: Plan<()>)
      ensures p.Skip? <==> ids == []
      ensures p.Skip? ==> p.result == Ok(())
      ensures p.Issue? && HidesDeleted() ==>
        p.cmd == UpdateMany([E(idField, In(ids)), VisibilityClause()], map[softDeleteField := Int(now)])
      ensures p.Issue? && !HidesDeleted() ==> p.cmd == DeleteMany(map[idField := In(ids)])
    {
      if |ids| == 0 {
        return Skip(Ok(()));
      }
      var filter := map[idField := In(ids)];
      if softDeleteEnabled && !unscoped {
        var cmd := SoftDelete(filter, now);
        SingletonListing(cmd.filter[..1], idField, In(ids));
        return Issue(cmd);
      }
      p := Issue(DeleteMany(filter));
    }

    /** DeleteAll: a soft delete of every visible document, or DeleteMany on
        the empty filter. */
    method DeleteAll(now: int) returns (cmd: Command)
      ensures HidesDeleted() ==> cmd == UpdateMany([VisibilityClause()], map[softDeleteField := Int(now)])
      ensures !HidesDeleted() ==> cmd == DeleteMany(map[])
    {
      var filter: map<string, Value> := map[];
      if softDeleteEnabled && !unscoped {
        cmd := SoftDelete(filter, now);
        return;
      }
      cmd := DeleteMany(filter);
    }

    /** DeleteAllByFilter: the same dispatch as Delete. */
    method DeleteAllByFilter(filter: map<string, Value>, now: int) returns (cmd: Command)
      ensures HidesDeleted() ==> cmd.UpdateMany? && IsBuiltFilter(cmd.filter, filter)
      ensures HidesDeleted() ==> cmd.update == map[softDeleteField := Int(now)]
      ensures !HidesDeleted() ==> cmd == DeleteMany(filter)
    {
      cmd := Delete(filter, now);
    }
  }

  /** NewCrudRepository: resolve both field names (a panic of either
      resolver aborts construction); the result is scoped and soft delete is
      on exactly when there is a soft-delete field. */
  method NewCrudRepository(entity: TypeDesc) returns (r: Result<CrudRepository, ShapeError>)
    ensures r.Err? <==> ResolveIdField(entity).Err?
    ensures r.Err? ==> r.error == ResolveIdField(entity).error
    ensures r.Ok? ==> fresh(r.value) && r.value.Valid() && !r.value.unscoped
    ensures r.Ok? ==> r.value.idField == ResolveIdField(entity).value
    ensures r.Ok? ==> r.value.softDeleteField == ResolveDeletedAtField(entity).value
    ensures r.Ok? ==> r.value.softDeleteEnabled == (ResolveDeletedAtField(entity).value != "")
  {
    var softDeleteField := ResolveDeletedAtField(entity);
    if softDeleteField.Err? {
      return Err(softDeleteField.error);
    }
    var idField := ResolveIdField(entity);
    if idField.Err? {
      return Err(idField.error);
    }
    var repo := new CrudRepository(false, idField.value, softDeleteField.value, softDeleteField.value != "");
    r := Ok(repo);
  }

  /** Create: a duplicate key becomes DuplicatedKey, an id of another type
      UnexpectedIdType; on success the id is returned and written back. */
  function CreateResult(entity: Entity, o: InsertOutcome): (r: Result<(Value, Entity), RepoError>)
    ensures r.Ok? <==> o.InsertedId?
    ensures r.Ok? ==> r.value.0 == o.id && r.value.1 == entity.(id := o.id)
    ensures r == Err(DuplicatedKey) <==> o == InsertFailed(DuplicateKey)
    ensures r == Err(UnexpectedIdType) <==> o.InsertedOtherType?
    ensures o.InsertFailed? && o.err != DuplicateKey ==> r == Err(StoreFailure(o.err))
  {
    match o
    case InsertedId(id) => Ok((id, entity.(id := id)))
    case InsertedOtherType => Err(UnexpectedIdType)
    case InsertFailed(DuplicateKey) => Err(DuplicatedKey)
    case InsertFailed(e) => Err(StoreFailure(e))
  }

  /** FindOne and FindByID: no document becomes NotFound. */
  function FindOneResult(o: FindOneOutcome): (r: Result<Entity, RepoError>)
    ensures r.Ok? <==> o.Found?
    ensures r.Ok? ==> r.value == o.entity
    ensures r == Err(NotFound) <==> o == FindOneFailed(NoDocuments)
    ensures o.FindOneFailed? && o.err != NoDocuments ==> r == Err(StoreFailure(o.err))
  {
    match o
    case Found(e) => Ok(e)
    case FindOneFailed(NoDocuments) => Err(NotFound)
    case FindOneFailed(e) => Err(StoreFailure(e))
  }

  /** Exists and ExistsByID: a document means true, no document false, and
      any other error stays an error. */
  function ExistsResult(o: FindOneOutcome): (r: Result<bool, RepoError>)
    ensures r == Ok(true) <==> o.Found?
    ensures r == Ok(false) <==> o == FindOneFailed(NoDocuments)
    ensures r.Err? <==> o.FindOneFailed? && o.err != NoDocuments
    ensures r.Err? ==> r.error == StoreFailure(o.err)
  {
    match o
    case Found(_) => Ok(true)
    case FindOneFailed(NoDocuments) => Ok(false)
    case FindOneFailed(e) => Err(StoreFailure(e))
  }

  /** FindByIDs, FindByPage, FindByFilter, FindByFilterWithPage, FindAll:
      the decoded entities in cursor order; every error is passed on. */
  function FindManyResult(o: FindOutcome): (r: Result<seq<Entity>, RepoError>)
    ensures r.Ok? <==> o.Cursor?
    ensures r.Ok? ==> r.value == o.entities
    ensures r.Err? ==> r.error == StoreFailure(o.err)
  {
    match o
    case Cursor(es) => Ok(es)
    case FindFailed(e) => Err(StoreFailure(e))
  }

  /** Count and CountByFilter. */
  function CountResult(o: CountOutcome): (r: Result<int, RepoError>)
    ensures r.Ok? <==> o.Counted?
    ensures r.Ok? ==> r.value == o.n
    ensures r.Err? ==> r.error == StoreFailure(o.err)
  {
    match o
    case Counted(n) => Ok(n)
    case CountFailed(e) => Err(StoreFailure(e))
  }

  /** Update, UpdateByID, UpdateNonZero(ByID), softDelete and every delete. */
  function WriteResult(o: WriteOutcome): (r: Result<(), RepoError>)
    ensures r.Ok? <==> o.Acknowledged?
    ensures r.Err? ==> r.error == StoreFailure(o.err)
  {
    match o
    case Acknowledged => Ok(())
    case WriteFailed(e) => Err(StoreFailure(e))
  }

  ghost predicate Returned(entities: seq<Entity>, id: Value)
  {
    exists i :: 0 <= i < |entities| && entities[i].id == id
  }

  /** The dict ExistsByIDs fills in place: every returned id maps to true,
      and no other id is present. */
  method ExistsDict(entities: seq<Entity>) returns (found: map<Value, bool>)
    ensures forall id :: id in found <==> Returned(entities, id)
    ensures forall id :: id in found ==> found[id]
  {
    found := map[];
    var i := 0;
    while i < |entities|
      invariant 0 <= i <= |entities|
      invariant forall id :: id in found <==> Returned(entities[..i], id)
      invariant forall id :: id in found ==> found[id]
    {
      forall id ensures Returned(entities[..i + 1], id) <==> Returned(entities[..i], id) || entities[i].id == id {
        assert forall j :: 0 <= j < i ==> entities[..i + 1][j] == entities[..i][j];
        if Returned(entities[..i + 1], id) && entities[i].id != id {
          var j :| 0 <= j < i + 1 && entities[..i + 1][j].id == id;
          assert entities[..i][j].id == id;
        }
        if entities[i].id == id {
          assert entities[..i + 1][i].id == id;
        }
      }
      found := found[entities[i].id := true];
      i := i + 1;
    }
    assert entities[..i] == entities;
  }

  /** ExistsByIDs after its Find: the dict of returned ids, or the error. */
  method ExistsByIDsResult(o: FindOutcome) returns (r: Result<map<Value, bool>, RepoError>)
    ensures r.Ok? <==> o.Cursor?
    ensures r.Ok? ==> forall id :: id in r.value <==> Returned(o.entities, id)
    ensures r.Ok? ==> forall id :: id in r.value ==> r.value[id]
    ensures r.Err? ==> r.error == StoreFailure(o.err)
  {
    match o
    case FindFailed(e) =>
      r := Err(StoreFailure(e));
    case Cursor(entities) =>
      var found := ExistsDict(entities);
      r := Ok(found);
  }

  /** NotFound comes only from FindOne and FindByID on no document; every
      other operation passes no-documents on, or (Exists) answers false. */
  lemma NotFoundOnlyFromPointLookups(e: Entity, i: InsertOutcome, f: FindOneOutcome,
                                     m: FindOutcome, c: CountOutcome, w: WriteOutcome)
    ensures FindOneResult(f) == Err(NotFound) <==> f == FindOneFailed(NoDocuments)
    ensures CreateResult(e, i) != Err(NotFound)
    ensures ExistsResult(f) != Err(NotFound)
    ensures FindManyResult(m) != Err(NotFound)
    ensures CountResult(c) != Err(NotFound)
    ensures WriteResult(w) != Err(NotFound)
  {
  }

  /** An error the repository does not recognise reaches the caller
      unchanged, whatever the operation. */
  lemma OtherErrorsPassThrough(e: Entity, err: StoreError)
    requires err != NoDocuments && err != DuplicateKey
    ensures CreateResult(e, InsertFailed(err)) == Err(StoreFailure(err))
    ensures FindOneResult(FindOneFailed(err)) == Err(StoreFailure(err))
    ensures ExistsResult(FindOneFailed(err)) == Err(StoreFailure(err))
    ensures FindManyResult(FindFailed(err)) == Err(StoreFailure(err))
    ensures CountResult(CountFailed(err)) == Err(StoreFailure(err))
    ensures WriteResult(WriteFailed(err)) == Err(StoreFailure(err))
  {
  }

  /** Stamping a soft-delete field with a non-zero time hides a document
      from the visibility clause only when that field is "deleted_at": an
      entity whose soft-delete field has another name (User1's
      "mongo_deleted_at") stays visible after a soft delete. */
  lemma SoftDeleteStampVisibility(doc: map<string, Value>, softDeleteField: string, now: int)
    requires now != 0
    ensures PassesVisibility(doc + map[softDeleteField := Int(now)]) <==>
      softDeleteField != "deleted_at" && PassesVisibility(doc)
  {
  }

  /** The configurations the repository's tests expect. */
  method TestRepositoryConfig()
  {
    User1IdField();
    User1SoftDeleteField();
    User2IdField();
    User2SoftDeleteField();
    User3SoftDeleteField();
    var r1 := NewCrudRepository(User1());
    assert r1.Ok? && r1.value.idField == "mongo_id" && r1.value.softDeleteEnabled;
    var r3 := NewCrudRepository(User3());
    assert r3.Ok? && r3.value.softDeleteField == "" && !r3.value.softDeleteEnabled;
    var u := r1.value.Unscoped();
    assert u.unscoped && !r1.value.unscoped && u.softDeleteField == "mongo_deleted_at";
  }
}
