# go-repository-mongo, modelled in Dafny

go-repository-mongo is a generic CRUD repository over one MongoDB
collection. This project models its deterministic core and proves properties
of that model. The core has two parts.

- **Field resolution and projection** (`utils.go`):
  - the storage name of an entity's identifier (`getIDField`);
  - the storage name of its soft-delete field (`getDeletedAtField`);
  - the conversion of signed orders into a sort document (`OrdersToSort`);
  - the partial update document built from an entity's non-zero fields
    (`getNonZeroFields`).
- **The repository engine** (`crudrepository.go`):
  - the configuration record and its constructor;
  - `clone` and `Unscoped`;
  - the filter every query is built from;
  - the one driver command each CRUD operation issues;
  - the operations that return at once without a command;
  - the split between soft and hard delete;
  - how driver outcomes become the repository's results and errors.

Files:

- `results.dfy`: `Option` and `Result`.
- `bson.dfy`: the BSON values the repository builds. A `D` is an ordered
  document, an `M` an unordered map, an `A` an array.
- `utils.dfy` (module `Utils`): `utils.go`. Go reflection is replaced by an
  explicit description of the entity's type. A `TypeDesc` is a struct, a
  pointer or any other kind. A `FieldDecl` is a declared field with its
  `bson` and `json` tags; an absent tag is `""`, as `StructTag.Get` reports
  it. A `FieldValue` is a field of an entity value, with a flag saying
  whether the value is its type's zero value.
- `store.dfy` (module `Store`): the collection as the repository sees it.
  It holds the commands it issues (`Command`) and the outcomes the driver
  reports. MongoDB itself is abstract.
- `crudrepository.dfy` (module `CrudRepo`): the `CrudRepository` class, with
  the four configuration fields the source updates.
  - Every operation is a method returning the command it issues. When the
    operation can return without a driver call, it returns a `Plan`:
    `Skip` with a result, or `Issue` with a command.
  - A separate function per result type maps the driver's outcome to the
    operation's result.

Modelling choices:

- **Go map iteration.** `buildFilter` appends the caller's pairs in Go's map
  iteration order, which is unspecified. `ListPairs` picks an arbitrary
  remaining key at each step. Its contract holds for every order: every pair
  exactly once, no other element, and reading the elements back as a map
  gives the caller's map.
- **Visibility clause.** The clause that hides soft-deleted documents tests
  the literal key `"deleted_at"`, not the repository's soft-delete field.
  The soft delete, however, stamps the soft-delete field. Both are modelled
  as written. `SoftDeleteStampVisibility` states the consequence: a
  soft-deleted document stays visible when the soft-delete field has another
  name, as for an entity tagged `bson:"mongo_deleted_at"`.
- **Tags with options.** A tag is cut at its first comma. A `DeletedAt` field
  tagged `bson:",omitempty"` therefore resolves to `""`, which turns soft
  delete off. `DeletedAtEmptyName` states when this happens.
- **Panics.** The panics of the resolvers are `Err(ShapeError)`. The panic
  that `errors.Recover` turns into an error inside an operation is
  `Err(RepoError)`.

## Model

| member | source | states |
|---|---|---|
| Utils.FieldByName | utils.go:22-28 | When it finds a field, that field has the name and no earlier field has it. It finds nothing exactly when no field has the name. |
| Utils.FirstSegment | utils.go:33-35 | The result is a prefix of the tag and contains no comma. Either it is the whole tag or the tag continues with a comma. |
| Utils.ResolveIdField | utils.go:12-38 | Fails with "not a struct" when the type, after one pointer, is not a struct. For a struct, it fails exactly when there is neither an `ID` nor an `Id` field. No other failure exists. |
| Utils.ResolveDeletedAtField | utils.go:40-64 | Fails exactly when the type, after one pointer, is not a struct. A struct without a `DeletedAt` field gives `""` and no failure. |
| Utils.ResolversDerefOnce | utils.go:13-20 | Both resolvers look through exactly one pointer. A pointer to a pointer is rejected as not a struct. A pointer to a struct resolves like the struct. |
| Utils.FirstSegmentOfTag | utils.go:29-35 | A tag written `name` or `name,options`, with a comma-free name, names the field `name`. |
| Utils.StorageNameOfPlainTag | utils.go:29-35 | A field whose naming tag is non-empty and comma-free is stored under that whole tag, whatever the default. |
| Utils.FirstSegmentIdempotent | utils.go:34 | Cutting at the first comma twice gives the same result as cutting once. |
| Utils.IdFieldPrefersID | utils.go:22-35 | Whenever an `ID` field exists, the first one names the identifier, whatever `Id` fields exist. The name is its tag's first segment, or `"_id"` when untagged. |
| Utils.IdFieldFallsBackToId | utils.go:22-37 | Without an `ID` field, the first `Id` field names the identifier by the same tag rule, with default `"_id"`. |
| Utils.DeletedAtField | utils.go:50-63 | The first `DeletedAt` field names the soft-delete field: the first segment of its `bson` tag, else of its `json` tag, else `"deleted_at"`. |
| Utils.DeletedAtEmptyName | utils.go:55-63 | A `DeletedAt` field resolves to `""` exactly when its naming tag starts with a comma. An untagged one resolves to `"deleted_at"`. |
| Utils.User1IdField | crud_repository_test.go:102-105 | The test entity `User1` (`bson:"mongo_id"`) has identifier field `mongo_id`. |
| Utils.User2IdField | crud_repository_test.go:106-107 | The test entity `User2` (`json:"json_id"` only) has identifier field `json_id`. |
| Utils.User1SoftDeleteField | crud_repository_test.go:110-113 | `User1`'s soft-delete field is `mongo_deleted_at`. |
| Utils.User2SoftDeleteField | crud_repository_test.go:114-115 | `User2`'s soft-delete field is `json_deleted_at`. |
| Utils.User3SoftDeleteField | crud_repository_test.go:116-117 | `User3`, which has no `DeletedAt` field, resolves to `""` without failing. |
| Utils.OrdersToSort | utils.go:66-73 | One element per order, with keys in the same order. Each direction is -1 exactly when the order's value is negative, and 1 exactly when it is not, so 0 sorts ascending. |
| Utils.OrdersToSortAppend | utils.go:66-73 | The conversion works order by order: converting a concatenation is concatenating the conversions. |
| Utils.ProjectionErrSticks | utils.go:81-95 | Once the walk over a prefix of the fields has panicked, the walk over all the fields panics the same way. |
| Utils.ProjectionFailsIff | utils.go:81-95 | The projection panics exactly when some non-zero field is unexported. It then names the first such field. |
| Utils.ProjectionKeys | utils.go:83-93 | A key is in the update document exactly when some non-zero field resolves to it. |
| Utils.ProjectionLastWins | utils.go:84-93 | Under each key is the value of the last non-zero field that resolves to it; later fields overwrite earlier ones. |
| Utils.ProjectionEmptyIff | utils.go:75-97 | The update document is empty, and no panic occurs, exactly when every field is zero. |
| Utils.NonZeroFields | utils.go:75-97 | The loop that fills the map field by field, and stops at an unexported non-zero field, returns exactly the projection. The lemmas above characterise the projection. |
| CrudRepo.SortOption | crudrepository.go:104-107 | A sort is set exactly when orders are given, with one sort element per order. |
| CrudRepo.ListPairs | crudrepository.go:48-51 | For every iteration order, every caller pair appears exactly once, and nothing else. Reading the elements back as a map gives the caller's map. |
| CrudRepo.ListingRoundTrip | crudrepository.go:48-51 | Any sequence listing each pair of a map exactly once reads back as that map. |
| CrudRepo.SingletonListing | crudrepository.go:118 | A one-pair map has exactly one listing: that pair. |
| CrudRepo.CrudRepository.constructor | crudrepository.go:29-34 | The struct literal: the four fields take the given values. |
| CrudRepo.CrudRepository.Clone | crudrepository.go:37-45 | A fresh repository whose four fields equal the receiver's. |
| CrudRepo.CrudRepository.Unscoped | crudrepository.go:68-72 | A fresh copy that is unscoped, with the other fields equal and the receiver unchanged. The copy keeps the soft-delete invariant and appends no visibility clause. |
| CrudRepo.CrudRepository.Scope | crudrepository.go:52-59 | At most one element follows the caller's pairs. It is present exactly when soft delete is on and the repository is scoped. |
| CrudRepo.CrudRepository.BuildFilter | crudrepository.go:47-62 | The first part lists every caller pair exactly once, in any order, and reads back as the caller's map. Exactly one `$or` clause on the literal key `"deleted_at"` follows it, exactly when soft delete is on and the repository is scoped. |
| CrudRepo.CrudRepository.BuildIdFilter | crudrepository.go:118 | The filter for one id is the id pair, then the visibility clause when scoped. |
| CrudRepo.CrudRepository.BuildEmptyFilter | crudrepository.go:152 | The filter for the empty map is the visibility clause when scoped, otherwise empty. |
| CrudRepo.CrudRepository.Create | crudrepository.go:86-88 | Create inserts the entity as given. |
| CrudRepo.CrudRepository.FindOne | crudrepository.go:102-108 | One FindOne on the built filter, sorted exactly when orders are given. |
| CrudRepo.CrudRepository.FindByID | crudrepository.go:116-119 | One FindOne on the id pair plus the visibility clause when scoped. |
| CrudRepo.CrudRepository.FindByIDs | crudrepository.go:127-136 | No driver call and an empty collection exactly when no ids are given. Otherwise one Find on `{idField: {$in: ids}}` plus the scope. |
| CrudRepo.CrudRepository.FindByPage | crudrepository.go:145-153 | One Find on the scope alone, with skip = offset and limit = limit, sorted exactly when orders are given. |
| CrudRepo.CrudRepository.FindByFilter | crudrepository.go:164-167 | One Find on the built filter, without paging, sort or projection. |
| CrudRepo.CrudRepository.FindByFilterWithPage | crudrepository.go:178-186 | One Find on the built filter, with skip = offset and limit = limit, sorted exactly when orders are given. |
| CrudRepo.CrudRepository.FindAll | crudrepository.go:197-199 | One Find on the scope alone. |
| CrudRepo.CrudRepository.Count | crudrepository.go:210-212 | One CountDocuments on the scope alone. |
| CrudRepo.CrudRepository.CountByFilter | crudrepository.go:218-220 | One CountDocuments on the built filter. |
| CrudRepo.CrudRepository.Exists | crudrepository.go:226-230 | One FindOne on the built filter that fetches the id field only. |
| CrudRepo.CrudRepository.ExistsByID | crudrepository.go:238-242 | One FindOne on the id pair plus the scope, fetching the id field only. |
| CrudRepo.CrudRepository.ExistsByIDs | crudrepository.go:250-259 | No driver call and an empty dict exactly when no ids are given. Otherwise one Find on `{idField: {$in: ids}}` plus the scope, fetching ids only. |
| CrudRepo.CrudRepository.Update | crudrepository.go:274-276 | One UpdateMany on the built filter that sets the caller's map as given. |
| CrudRepo.CrudRepository.UpdateByID | crudrepository.go:281-283 | One UpdateOne on the id pair plus the scope that sets the caller's map. |
| CrudRepo.CrudRepository.UpdateNonZero | crudrepository.go:288-298 | A panic of the projection is the error. An empty projection returns success without a driver call. Otherwise one UpdateMany on the built filter sets exactly the projection. A command is issued exactly when the projection is non-empty. |
| CrudRepo.CrudRepository.UpdateNonZeroByID | crudrepository.go:300-310 | The same as UpdateNonZero, with one UpdateOne on the id pair plus the scope. |
| CrudRepo.CrudRepository.SoftDelete | crudrepository.go:312-317 | One UpdateMany on the built filter that sets the soft-delete field to the given time. |
| CrudRepo.CrudRepository.Delete | crudrepository.go:319-328 | When scoped with soft delete on: the soft-delete UpdateMany on the built filter. Otherwise: DeleteMany on the caller's filter as given, with no clause added. |
| CrudRepo.CrudRepository.DeleteByID | crudrepository.go:330-340 | When scoped with soft delete on: UpdateMany on the id pair plus the clause, stamping the time. Otherwise: DeleteOne on `{idField: id}`. |
| CrudRepo.CrudRepository.DeleteByIDs | crudrepository.go:342-355 | No driver call and success exactly when no ids are given. Otherwise the same split as DeleteByID, on `{idField: {$in: ids}}`, with DeleteMany for the hard delete. |
| CrudRepo.CrudRepository.DeleteAll | crudrepository.go:357-367 | When scoped with soft delete on: UpdateMany on the clause alone, stamping the time. Otherwise: DeleteMany on the empty filter. |
| CrudRepo.CrudRepository.DeleteAllByFilter | crudrepository.go:369-378 | The same dispatch as Delete. |
| CrudRepo.NewCrudRepository | crudrepository.go:26-35 | Fails exactly when the identifier cannot be resolved, with that error. Otherwise returns a fresh, scoped repository holding the resolved names. Soft delete is on exactly when the soft-delete name is non-empty. |
| CrudRepo.CreateResult | crudrepository.go:89-98 | Success exactly when an id of the ID type was inserted; the id is returned and written back into the entity. A duplicate key is exactly `DuplicatedKey`. An id of another type is exactly `UnexpectedIdType`. Every other error passes through. |
| CrudRepo.FindOneResult | crudrepository.go:108-113 | Success exactly when a document was decoded, and it is returned. The error is `NotFound` exactly on no documents. Every other error passes through. |
| CrudRepo.ExistsResult | crudrepository.go:230-235 | True exactly when a document was found. False exactly on no documents. An error exactly on any other error, which passes through. |
| CrudRepo.FindManyResult | crudrepository.go:136-141 | The decoded entities in cursor order, or the driver's error. |
| CrudRepo.CountResult | crudrepository.go:212-215 | The count, or the driver's error. |
| CrudRepo.WriteResult | crudrepository.go:276-278 | Success exactly when the write was acknowledged; otherwise the driver's error. |
| CrudRepo.ExistsDict | crudrepository.go:266-269 | The dict filled id by id maps exactly the ids of the returned entities, each to true. |
| CrudRepo.ExistsByIDsResult | crudrepository.go:259-271 | After the Find: the dict of exactly the returned ids, all true. Requested ids that were not returned are absent. Otherwise the driver's error. |
| CrudRepo.NotFoundOnlyFromPointLookups | crudrepository.go:109-111 | `NotFound` arises only from FindOne and FindByID on no documents. No other operation produces it. |
| CrudRepo.OtherErrorsPassThrough | crudrepository.go:93 | An error that is neither no-documents nor duplicate-key reaches the caller unchanged from every operation. |
| CrudRepo.SoftDeleteStampVisibility | crudrepository.go:53-58 | After the soft-delete stamp with a non-zero time, a document passes the visibility clause exactly when the soft-delete field is not `"deleted_at"` and it passed before. |

## Left out

- **MongoDB.** The driver calls (InsertOne, FindOne, Find, CountDocuments,
  UpdateOne, UpdateMany, DeleteOne, DeleteMany, `cursor.All`, `Decode`) are
  abstract. Each operation is modelled up to the command it issues, and from
  the outcome the driver reports. No query engine is modelled; neither are
  the context, the collection handle or its options beyond skip, limit,
  sort and projection.
- **Go reflection.** `reflect.TypeOf`, `FieldByName`, `IsZero` and struct
  tags are replaced by field descriptions. Zero-ness is an explicit flag on
  each field value.
  - Promoted fields of embedded structs are not modelled.
  - Exported names are judged by an ASCII upper-case first letter; Go also
    accepts other Unicode upper-case letters.
  - The entity given to `getNonZeroFields` is its sequence of fields, so its
    panics on a nil pointer or a non-struct value are not modelled.
- **The clock.** `time.Now().Unix()` is the parameter `now` of the soft
  deletes.
- **Errors.** `errors.Recover`, `errors.Check` and the wrapping with stacks
  and parameters are not modelled: only the error kind is kept.
- **Integer conversions.** The `int64` conversions of offset and limit and
  the `int` conversion of the count are not modelled; integers are
  unbounded.
- **Library types.** `repository.NewCollection` and `NewDict` are a
  sequence and a map. `GetID` and `SetID` are the entity's `id` field.
- **Getters.** `IsUnscoped`, `IDField`, `SoftDeleteField` and
  `SoftDeleteEnabled` return the field they name. Their functions carry no
  contract of their own.
- **Test and example programs.** The container setup and usage examples
  are I/O; only the tests' expected field names are stated, as lemmas.
- **Concurrency.** The source has no locking. `Unscoped` returns a fresh
  copy and leaves the receiver unchanged.
