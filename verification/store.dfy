/** The MongoDB collection as the repository sees it: the commands it issues
    and the outcomes the driver reports. The store itself is not modelled. */
module Store {
  import opened Results
  import opened Bson
  import opened Utils

  /** An entity: the identifier its GetID method reports (and SetID writes)
      and the fields of its struct. */
  datatype Entity = Entity(id: Value, fields: seq<FieldValue>)

  /** options.Find().SetSkip(offset).SetLimit(limit). */
  datatype Page = Page(skip: int, limit: int)

  /** One driver call. Find, count and update filters are the ordered
      documents the repository builds; delete filters are the caller's
      unordered map, passed on unchanged. An update is {"$set": update}. */
  datatype Command =
    | InsertOne(document: Entity)
    | FindOne(filter: seq<Elem>, sort: Option<seq<Elem>>, projection: Option<seq<Elem>>)
    | Find(filter: seq<Elem>, page: Option<Page>, sort: Option<seq<Elem>>, projection: Option<seq<Elem>>)
    | CountDocuments(filter: seq<Elem>)
    | UpdateOne(filter: seq<Elem>, update: map<string, Value>)
    | UpdateMany(filter: seq<Elem>, update: map<string, Value>)
    | DeleteOne(raw: map<string, Value>)
    | DeleteMany(raw: map<string, Value>)

  /** The driver's errors, told apart as far as the repository tells them
      apart: mongo.ErrNoDocuments, a duplicate-key write error, anything else. */
  datatype StoreError = NoDocuments | DuplicateKey | OtherError(code: int)

  /** InsertOne: the inserted id, when it has the repository's ID type or
      when it does not, or an error. */
  datatype InsertOutcome = InsertedId(id: Value) | InsertedOtherType | InsertFailed(err: StoreError)

  /** FindOne followed by Decode (or Err). */
  datatype FindOneOutcome = Found(entity: Entity) | FindOneFailed(err: StoreError)

  /** Find followed by cursor.All: the decoded entities, or the first error. */
  datatype FindOutcome = Cursor(entities: seq<Entity>) | FindFailed(err: StoreError)

  /** CountDocuments. */
  datatype CountOutcome = Counted(n: int) | CountFailed(err: StoreError)

  /** UpdateOne, UpdateMany, DeleteOne, DeleteMany. */
  datatype WriteOutcome = Acknowledged | WriteFailed(err: StoreError)
}
