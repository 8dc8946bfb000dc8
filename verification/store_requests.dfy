/**
 * The requests the store executes: fetches, shaped by their result type, and saves, which insert,
 * update and delete records in one write transaction.
 */
module StoreRequests {
  import opened Wrappers
  import opened Values
  import opened Errors
  import opened Naming
  import opened EntitySchema
  import opened BackingObject
  import opened Predicates
  import opened StoreModel

  // ---------------------------------------------------------------------------------------------
  // Requests and their results

  /** A sort descriptor as the request gives it; its key may be missing. */
  datatype SortDescriptor = SortDescriptor(key: Option<string>, ascending: bool)

  /** A sort descriptor handed to the storage engine. */
  datatype RealmSortDescriptor = RealmSortDescriptor(property: string, ascending: bool)

  datatype ResultType =
    | ManagedObjectResultType
    | ManagedObjectIDResultType
    | DictionaryResultType
    | CountResultType
    | OtherResultType(rawValue: nat)

  /** An element of `propertiesToFetch`: a key path, a property description, or anything else. */
  datatype PropertyToFetch = KeyName(name: string) | PropertyDescription(name: string) | OtherFetchItem

  datatype FetchRequest = FetchRequest(
    entity: Option<Entity>,
    fetchPredicate: Option<Predicate>,
    sortDescriptors: Option<seq<SortDescriptor>>,
    resultType: ResultType,
    propertiesToFetch: Option<seq<PropertyToFetch>>)

  datatype SaveChangesRequest = SaveChangesRequest(
    insertedObjects: Option<seq<ManagedObject>>,
    updatedObjects: Option<seq<ManagedObject>>,
    deletedObjects: Option<seq<ManagedObject>>)

  datatype RequestType = FetchRequestType | SaveRequestType | BatchUpdateRequestType | BatchDeleteRequestType

  /** The request object itself, by its class. */
  datatype RequestBody = FetchBody(fetch: FetchRequest) | SaveBody(save: SaveChangesRequest) | OtherBody

  datatype PersistentStoreRequest = PersistentStoreRequest(requestType: RequestType, body: RequestBody)

  /**
   * What a request returns. Managed objects are given by the IDs the context registered them
   * under.
   */
  datatype RequestResult =
    | ManagedObjects(objects: seq<ObjectID>)
    | ObjectIDs(ids: seq<ObjectID>)
    | Dictionaries(rows: seq<map<string, Value>>)
    | Count(count: nat)
    | EmptyArray

  // ---------------------------------------------------------------------------------------------
  // The storage engine

  /**
   * The storage engine's query evaluation: whether a record satisfies a predicate, and the order
   * in which it lists a set of records for the given sort descriptors (none: its natural order).
   */
  datatype Engine = Engine(
    satisfies: (Predicate, Record) -> bool,
    order: (Option<seq<RealmSortDescriptor>>, map<string, Record>) -> seq<string>)

  /** The resource IDs list every record exactly once. */
  predicate ListsExactly(ids: seq<string>, rows: map<string, Record>) {
    && (forall i, j :: 0 <= i < j < |ids| ==> ids[i] != ids[j])
    && (forall i :: 0 <= i < |ids| ==> ids[i] in rows)
    && (forall k :: k in rows ==> k in ids)
  }

  /** An engine whose ordering is a permutation of the records it is given. */
  ghost predicate SoundEngine(engine: Engine) {
    forall sorts, rows :: ListsExactly(engine.order(sorts, rows), rows)
  }

  // ---------------------------------------------------------------------------------------------
  // Fetching

  /** The records of a table that satisfy the predicate; every record when there is none. */
  function Matching(engine: Engine, table: map<string, Record>, condition: Option<Predicate>): (rows: map<string, Record>)
    ensures forall k :: k in rows <==> k in table && (condition.None? || engine.satisfies(condition.value, table[k]))
    ensures forall k :: k in rows ==> rows[k] == table[k]
  {
    map k | k in table && (condition.None? || engine.satisfies(condition.value, table[k])) :: table[k]
  }

  /** The IDs of an ordering that name records of the result. */
  function Listed(ids: seq<string>, rows: map<string, Record>): (r: seq<string>)
    ensures forall i :: 0 <= i < |r| ==> r[i] in rows
    ensures (forall i :: 0 <= i < |ids| ==> ids[i] in rows) ==> r == ids
    decreases |ids|
  {
    if ids == [] then []
    else (if ids[0] in rows then [ids[0]] else []) + Listed(ids[1..], rows)
  }

  /** The engine's sort descriptors; a descriptor without a key stops the process. */
  function RealmSortDescriptors(sorts: seq<SortDescriptor>): (r: Result<seq<RealmSortDescriptor>, Failure>)
    ensures r.Success? <==> forall i :: 0 <= i < |sorts| ==> sorts[i].key.Some?
    ensures r.Failure? ==> r.error == Trap(MissingSortKey)
    ensures r.Success? ==>
              && |r.value| == |sorts|
              && forall i :: 0 <= i < |sorts| ==> r.value[i] == RealmSortDescriptor(sorts[i].key.value, sorts[i].ascending)
    decreases |sorts|
  {
    if sorts == [] then Success([])
    else if sorts[0].key.None? then Failure(Trap(MissingSortKey))
    else
      var rest :- RealmSortDescriptors(sorts[1..]);
      assert forall i :: 1 <= i < |sorts| ==> sorts[i] == sorts[1..][i - 1];
      Success([RealmSortDescriptor(sorts[0].key.value, sorts[0].ascending)] + rest)
  }

  /** The sort descriptors of a request, if it has any. */
  function RequestSorts(sorts: Option<seq<SortDescriptor>>): (r: Result<Option<seq<RealmSortDescriptor>>, Failure>)
    ensures r.Failure? ==> r.error == Trap(MissingSortKey)
    ensures sorts.None? ==> r == Success(None)
    ensures sorts.Some? ==>
              r == (if RealmSortDescriptors(sorts.value).Success? then Success(Some(RealmSortDescriptors(sorts.value).value))
                    else Failure(Trap(MissingSortKey)))
  {
    match sorts
    case None => Success(None)
    case Some(s) =>
      var realmSorts :- RealmSortDescriptors(s);
      Success(Some(realmSorts))
  }

  /** The keys of `propertiesToFetch`: key paths and property names, in order; anything else is skipped. */
  function FetchKeys(items: seq<PropertyToFetch>): (keys: seq<string>)
    ensures forall k :: k in keys <==> exists i :: 0 <= i < |items| && !items[i].OtherFetchItem? && items[i].name == k
    decreases |items|
  {
    if items == [] then []
    else
      var rest := FetchKeys(items[1..]);
      assert forall i :: 1 <= i < |items| ==> items[i] == items[1..][i - 1];
      (if items[0].OtherFetchItem? then [] else [items[0].name]) + rest
  }

  /** The first key the record class has no accessor for. */
  function FirstUndefinedKey(keys: seq<string>, backingClass: BackingClass): (r: Option<string>)
    ensures r.None? <==> forall i :: 0 <= i < |keys| ==> keys[i] in backingClass.accessors
    ensures r.Some? ==> r.value in keys && r.value !in backingClass.accessors
    decreases |keys|
  {
    if keys == [] then None
    else if keys[0] !in backingClass.accessors then Some(keys[0])
    else
      assert forall i :: 1 <= i < |keys| ==> keys[i] == keys[1..][i - 1];
      FirstUndefinedKey(keys[1..], backingClass)
  }

  /** `dictionaryWithValuesForKeys`: each key's value through its getter, nil as the null value. */
  function Row(backingClass: BackingClass, record: Record, keys: seq<string>): (row: map<string, Value>)
    ensures forall k :: k in row <==> k in keys
    ensures forall k :: k in row && Column(record, k).None? ==> row[k] == NullValue
  {
    map k | k in keys :: ReadColumn(backingClass, record, k).GetOr(NullValue)
  }

  /** The permanent IDs of an entity's records, in order. */
  function ObjectIDsFor(entityName: string, ids: seq<string>): (r: seq<ObjectID>)
    ensures |r| == |ids|
    ensures forall i :: 0 <= i < |ids| ==> r[i] == NewObjectID(entityName, ids[i])
  {
    seq(|ids|, i requires 0 <= i < |ids| => NewObjectID(entityName, ids[i]))
  }

  /** The predicate handed to the engine: the request's, rewritten. */
  function EnginePredicate(condition: Option<Predicate>, lookup: Lookup): Option<Predicate> {
    match condition
    case None => None
    case Some(p) => Some(RealmPredicate(p, lookup))
  }

  /**
   * The ordered resource IDs a fetch yields: the records of the entity's table that satisfy the
   * rewritten predicate, in the engine's order for the request's sort descriptors.
   */
  function ResultIDs(store: Store, engine: Engine, lookup: Lookup, entity: Entity, request: FetchRequest): (r: Result<seq<string>, Failure>)
    ensures r.Failure? ==> r.error == Trap(MissingSortKey)
    ensures r.Success? ==> forall i :: 0 <= i < |r.value| ==>
              r.value[i] in Matching(engine, Table(store.realm, entity.name), EnginePredicate(request.fetchPredicate, lookup))
  {
    var rows := Matching(engine, Table(store.realm, entity.name), EnginePredicate(request.fetchPredicate, lookup));
    var sorts :- RequestSorts(request.sortDescriptors);
    Success(Listed(engine.order(sorts, rows), rows))
  }

  /**
   * `executeFetchRequest`: a request without an entity stops the process. The records are shaped
   * by the result type: managed objects (none without a context), permanent object IDs,
   * dictionaries of the fetched keys, or their count; any other result type stops the process.
   * Fetching changes nothing in the store file.
   */
  function ExecuteFetchRequest(store: Store, engine: Engine, lookup: Lookup, request: FetchRequest, hasContext: bool): (r: Result<(Store, RequestResult), Failure>)
    ensures r.Failure? ==> r.error.Trap?
    ensures request.entity.None? ==> r == Failure(Trap(MissingFetchEntity))
    ensures r.Success? ==> r.value.0.realm == store.realm && r.value.0.sdkVersion == store.sdkVersion
    ensures r.Success? ==> !request.resultType.OtherResultType?
    ensures r.Success? && request.resultType == ManagedObjectResultType && !hasContext ==> r.value.1 == ManagedObjects([])
  {
    if request.entity.None? then Failure(Trap(MissingFetchEntity))
    else
      var entity := request.entity.value;
      var resolved :- RealmBackingClass(entity, store.cache, store.sdkVersion);
      var backingClass := resolved.0;
      var store' := store.(cache := resolved.1);
      var rows := Matching(engine, Table(store.realm, entity.name), EnginePredicate(request.fetchPredicate, lookup));
      var ids :- ResultIDs(store, engine, lookup, entity, request);
      match request.resultType
      case ManagedObjectResultType =>
        Success((store', ManagedObjects(if hasContext then ObjectIDsFor(entity.name, ids) else [])))
      case ManagedObjectIDResultType =>
        Success((store', ObjectIDs(ObjectIDsFor(entity.name, ids))))
      case DictionaryResultType =>
        var keys := FetchKeys(request.propertiesToFetch.GetOr([]));
        var undefined := FirstUndefinedKey(keys, backingClass);
        if |ids| > 0 && undefined.Some? then Failure(Trap(UndefinedKey(undefined.value)))
        else Success((store', Dictionaries(seq(|ids|, i requires 0 <= i < |ids| => Row(backingClass, rows[ids[i]], keys)))))
      case CountResultType =>
        Success((store', Count(|ids|)))
      case OtherResultType(_) =>
        Failure(Trap(UnsupportedResultType))
  }

  // ---------------------------------------------------------------------------------------------
  // What a fetch returns

  /** The same request with another result type. */
  function WithResultType(request: FetchRequest, resultType: ResultType): FetchRequest {
    request.(resultType := resultType)
  }

  /**
   * The result types agree: managed objects (in a context), object IDs and dictionaries list the
   * same records in the same order, and the count is their number.
   */
  lemma FetchResultTypesAgree(store: Store, engine: Engine, lookup: Lookup, request: FetchRequest)
    requires ExecuteFetchRequest(store, engine, lookup, WithResultType(request, ManagedObjectIDResultType), true).Success?
    ensures var ids := ExecuteFetchRequest(store, engine, lookup, WithResultType(request, ManagedObjectIDResultType), true).value.1.ids;
            && ExecuteFetchRequest(store, engine, lookup, WithResultType(request, ManagedObjectResultType), true) ==
                 Success((ExecuteFetchRequest(store, engine, lookup, WithResultType(request, ManagedObjectIDResultType), true).value.0, ManagedObjects(ids)))
            && ExecuteFetchRequest(store, engine, lookup, WithResultType(request, CountResultType), true).Success?
            && ExecuteFetchRequest(store, engine, lookup, WithResultType(request, CountResultType), true).value.1 == Count(|ids|)
            && var dictionaries := ExecuteFetchRequest(store, engine, lookup, WithResultType(request, DictionaryResultType), true);
               dictionaries.Success? ==> |dictionaries.value.1.rows| == |ids|
  {
  }

  /** A distinct sequence has as many elements as the set of its elements. */
  lemma {:induction false} DistinctCardinality(ids: seq<string>)
    requires forall i, j :: 0 <= i < j < |ids| ==> ids[i] != ids[j]
    ensures |set k | k in ids| == |ids|
    decreases |ids|
  {
    if ids != [] {
      var rest := ids[1..];
      assert forall i, j :: 0 <= i < j < |rest| ==> rest[i] != rest[j] by {
        forall i, j | 0 <= i < j < |rest| ensures rest[i] != rest[j] {
          assert rest[i] == ids[i + 1] && rest[j] == ids[j + 1];
        }
      }
      DistinctCardinality(rest);
      assert (set k | k in ids) == {ids[0]} + (set k | k in rest) by {
        assert ids == [ids[0]] + rest;
      }
      assert ids[0] !in rest by {
        forall i | 0 <= i < |rest| ensures rest[i] != ids[0] {
          assert rest[i] == ids[i + 1];
        }
      }
    }
  }

  /**
   * With an engine that lists each record once, a fetch of object IDs returns exactly one
   * permanent ID for every record of the entity that satisfies the rewritten predicate, and the
   * count is the number of those records.
   */
  lemma FetchFindsExactlyTheMatches(store: Store, engine: Engine, lookup: Lookup, request: FetchRequest)
    requires SoundEngine(engine)
    requires ExecuteFetchRequest(store, engine, lookup, WithResultType(request, ManagedObjectIDResultType), true).Success?
    ensures var entity := request.entity.value;
            var rows := Matching(engine, Table(store.realm, entity.name), EnginePredicate(request.fetchPredicate, lookup));
            var ids := ExecuteFetchRequest(store, engine, lookup, WithResultType(request, ManagedObjectIDResultType), true).value.1.ids;
            && (forall i, j :: 0 <= i < j < |ids| ==> ids[i] != ids[j])
            && (forall id :: id in ids <==> id.entityName == entity.name && !id.temporary && id.reference in rows)
            && ExecuteFetchRequest(store, engine, lookup, WithResultType(request, CountResultType), true).value.1 == Count(|rows|)
            && RequestSorts(request.sortDescriptors).Success?
            && ids == ObjectIDsFor(entity.name, engine.order(RequestSorts(request.sortDescriptors).value, rows))
  {
    var entity := request.entity.value;
    var rows := Matching(engine, Table(store.realm, entity.name), EnginePredicate(request.fetchPredicate, lookup));
    var order := FetchedOrder(store, engine, lookup, request);
    ListedIDs(entity.name, order, rows);
    FetchResultTypesAgree(store, engine, lookup, request);
  }

  /** The engine's ordering of the matching records, for a fetch whose sort descriptors all have keys. */
  function FetchedOrder(store: Store, engine: Engine, lookup: Lookup, request: FetchRequest): (order: seq<string>)
    requires ExecuteFetchRequest(store, engine, lookup, WithResultType(request, ManagedObjectIDResultType), true).Success?
    ensures RequestSorts(request.sortDescriptors).Success?
    ensures var entity := request.entity.value;
            var rows := Matching(engine, Table(store.realm, entity.name), EnginePredicate(request.fetchPredicate, lookup));
            order == engine.order(RequestSorts(request.sortDescriptors).value, rows)
    ensures var entity := request.entity.value;
            var rows := Matching(engine, Table(store.realm, entity.name), EnginePredicate(request.fetchPredicate, lookup));
            SoundEngine(engine) ==>
              && ListsExactly(order, rows)
              && ExecuteFetchRequest(store, engine, lookup, WithResultType(request, ManagedObjectIDResultType), true).value.1.ids
                   == ObjectIDsFor(entity.name, order)
  {
    var entity := request.entity.value;
    var rows := Matching(engine, Table(store.realm, entity.name), EnginePredicate(request.fetchPredicate, lookup));
    var sorts := RequestSorts(request.sortDescriptors).value;
    var order := engine.order(sorts, rows);
    assert SoundEngine(engine) ==> ListsExactly(order, rows);
    assert SoundEngine(engine) ==>
             ResultIDs(store, engine, lookup, entity, WithResultType(request, ManagedObjectIDResultType)).value == order;
    order
  }

  /**
   * A fetch lists its records in the engine's order for the request's sort descriptors, each
   * translated to the engine's form, or in the engine's natural order when the request has none.
   */
  lemma FetchFollowsSortDescriptors(store: Store, engine: Engine, lookup: Lookup, request: FetchRequest)
    requires SoundEngine(engine)
    requires ExecuteFetchRequest(store, engine, lookup, WithResultType(request, ManagedObjectIDResultType), true).Success?
    ensures var entity := request.entity.value;
            var rows := Matching(engine, Table(store.realm, entity.name), EnginePredicate(request.fetchPredicate, lookup));
            var ids := ExecuteFetchRequest(store, engine, lookup, WithResultType(request, ManagedObjectIDResultType), true).value.1.ids;
            match request.sortDescriptors
            case None => ids == ObjectIDsFor(entity.name, engine.order(None, rows))
            case Some(s) =>
              && RealmSortDescriptors(s).Success?
              && ids == ObjectIDsFor(entity.name, engine.order(Some(RealmSortDescriptors(s).value), rows))
  {
    var order := FetchedOrder(store, engine, lookup, request);
  }

  /** The permanent IDs of a listing that names every record once are distinct, one per record. */
  lemma ListedIDs(entityName: string, order: seq<string>, rows: map<string, Record>)
    requires ListsExactly(order, rows)
    ensures var ids := ObjectIDsFor(entityName, order);
            && (forall i, j :: 0 <= i < j < |ids| ==> ids[i] != ids[j])
            && (forall id :: id in ids <==> id.entityName == entityName && !id.temporary && id.reference in rows)
            && |ids| == |rows|
  {
    var ids := ObjectIDsFor(entityName, order);
    forall id: ObjectID | id.entityName == entityName && !id.temporary && id.reference in rows ensures id in ids {
      var i :| 0 <= i < |order| && order[i] == id.reference;
      assert ids[i] == id;
    }
    DistinctCardinality(order);
    assert (set k | k in order) == rows.Keys;
  }

  /** A dictionary fetch gives, for each record, the value of every fetched key through its getter. */
  lemma FetchDictionaries(store: Store, engine: Engine, lookup: Lookup, request: FetchRequest, i: nat)
    requires request.resultType == DictionaryResultType
    requires ExecuteFetchRequest(store, engine, lookup, request, true).Success?
    requires i < |ExecuteFetchRequest(store, engine, lookup, request, true).value.1.rows|
    ensures var entity := request.entity.value;
            var rows := Matching(engine, Table(store.realm, entity.name), EnginePredicate(request.fetchPredicate, lookup));
            var backingClass := RealmBackingClass(entity, store.cache, store.sdkVersion).value.0;
            var reference := ExecuteFetchRequest(store, engine, lookup, WithResultType(request, ManagedObjectIDResultType), true).value.1.ids[i].reference;
            var row := ExecuteFetchRequest(store, engine, lookup, request, true).value.1.rows[i];
            && reference in rows
            && (forall k :: k in row <==> k in FetchKeys(request.propertiesToFetch.GetOr([])))
            && (forall k :: k in row ==> k in backingClass.accessors && row[k] == ReadColumn(backingClass, rows[reference], k).GetOr(NullValue))
  {
    var entity := request.entity.value;
    var keys := FetchKeys(request.propertiesToFetch.GetOr([]));
    var backingClass := RealmBackingClass(entity, store.cache, store.sdkVersion).value.0;
    assert FirstUndefinedKey(keys, backingClass).None?;
  }

  // ---------------------------------------------------------------------------------------------
  // Saving

  /** The key of a managed object's record: its entity and the reference of its ID. */
  function KeyOf(managed: ManagedObject): ObjectKey {
    ObjectKey(managed.entity.name, managed.objectID.reference)
  }

  /**
   * Inserting: a new record with the object's reference as resource ID, the class defaults and
   * then the object's values. A record already stored under the key stops the process.
   */
  function InsertObject(store: Store, managed: ManagedObject): (r: Result<Store, Failure>)
    ensures r.Failure? ==> r.error.Trap?
    ensures r.Success? ==> KeepsEntries(store.cache.classes, r.value.cache.classes)
    ensures r.Success? ==> r.value.sdkVersion == store.sdkVersion && r.value.realm.metadata == store.realm.metadata
    ensures r.Success? ==> FindRecord(store.realm, KeyOf(managed)).None? && FindRecord(r.value.realm, KeyOf(managed)).Some?
    ensures r.Success? ==> forall k :: k != KeyOf(managed) ==> FindRecord(r.value.realm, k) == FindRecord(store.realm, k)
    ensures FindRecord(store.realm, KeyOf(managed)).Some? && RealmBackingClass(managed.entity, store.cache, store.sdkVersion).Success? ==>
              r == Failure(Trap(DuplicatePrimaryKey(managed.objectID.reference)))
  {
    var resolved :- RealmBackingClass(managed.entity, store.cache, store.sdkVersion);
    var key := KeyOf(managed);
    if FindRecord(store.realm, key).Some? then Failure(Trap(DuplicatePrimaryKey(key.resourceID)))
    else
      var record :- SetValuesFromManagedObject(resolved.0, CreateBackingObject(resolved.0, key.resourceID), managed);
      Success(Store(store.sdkVersion, PutRecord(store.realm, key, record), resolved.1))
  }

  /** Updating: the stored record takes the object's values; an object without a record is skipped. */
  function UpdateObject(store: Store, managed: ManagedObject): (r: Result<Store, Failure>)
    ensures r.Failure? ==> r.error.Trap?
    ensures r.Success? ==> KeepsEntries(store.cache.classes, r.value.cache.classes)
    ensures r.Success? ==> r.value.sdkVersion == store.sdkVersion && r.value.realm.metadata == store.realm.metadata
    ensures r.Success? && FindRecord(store.realm, KeyOf(managed)).None? ==> r.value.realm == store.realm
    ensures r.Success? ==> (FindRecord(r.value.realm, KeyOf(managed)).Some? <==> FindRecord(store.realm, KeyOf(managed)).Some?)
    ensures r.Success? ==> forall k :: k != KeyOf(managed) ==> FindRecord(r.value.realm, k) == FindRecord(store.realm, k)
  {
    var resolved :- RealmBackingClass(managed.entity, store.cache, store.sdkVersion);
    var key := KeyOf(managed);
    var store' := store.(cache := resolved.1);
    match FindRecord(store.realm, key)
    case None => Success(store')
    case Some(record) =>
      var updated :- SetValuesFromManagedObject(resolved.0, record, managed);
      Success(store'.(realm := PutRecord(store.realm, key, updated)))
  }

  /** Deleting: the stored record is removed; an object without a record is skipped. */
  function DeleteObject(store: Store, managed: ManagedObject): (r: Result<Store, Failure>)
    ensures r.Failure? ==> r.error.Trap?
    ensures r.Success? ==> KeepsEntries(store.cache.classes, r.value.cache.classes)
    ensures r.Success? ==> r.value.sdkVersion == store.sdkVersion && r.value.realm.metadata == store.realm.metadata
    ensures r.Success? ==> FindRecord(r.value.realm, KeyOf(managed)).None?
    ensures r.Success? ==> forall k :: k != KeyOf(managed) ==> FindRecord(r.value.realm, k) == FindRecord(store.realm, k)
  {
    var resolved :- RealmBackingClass(managed.entity, store.cache, store.sdkVersion);
    var key := KeyOf(managed);
    var store' := store.(cache := resolved.1);
    if FindRecord(store.realm, key).Some? then Success(store'.(realm := DeleteRecord(store.realm, key)))
    else Success(store')
  }

  datatype Change = Insertion | Update | Deletion

  function Apply(store: Store, change: Change, managed: ManagedObject): (r: Result<Store, Failure>)
    ensures r.Failure? ==> r.error.Trap?
    ensures r.Success? ==> KeepsEntries(store.cache.classes, r.value.cache.classes)
    ensures r.Success? ==> r.value.sdkVersion == store.sdkVersion && r.value.realm.metadata == store.realm.metadata
    ensures r.Success? ==> forall k :: k != KeyOf(managed) ==> FindRecord(r.value.realm, k) == FindRecord(store.realm, k)
  {
    match change
    case Insertion => InsertObject(store, managed)
    case Update => UpdateObject(store, managed)
    case Deletion => DeleteObject(store, managed)
  }

  /** One kind of change applied to each object in order; the first failure ends the save. */
  function ApplyAll(store: Store, change: Change, objects: seq<ManagedObject>): (r: Result<Store, Failure>)
    ensures r.Failure? ==> r.error.Trap?
    ensures r.Success? ==> KeepsEntries(store.cache.classes, r.value.cache.classes)
    ensures r.Success? ==> r.value.sdkVersion == store.sdkVersion && r.value.realm.metadata == store.realm.metadata
    decreases |objects|
  {
    if objects == [] then Success(store)
    else
      var next :- Apply(store, change, objects[0]);
      ApplyAll(next, change, objects[1..])
  }

  /**
   * `executeSaveRequest`: inserts, then updates, then deletes, in one write transaction; the
   * result is an empty array. The metadata records are left alone.
   */
  function ExecuteSaveRequest(store: Store, request: SaveChangesRequest): (r: Result<(Store, RequestResult), Failure>)
    ensures r.Failure? ==> r.error.Trap?
    ensures r.Success? ==> r.value.1 == EmptyArray
    ensures r.Success? ==> r.value.0.sdkVersion == store.sdkVersion && r.value.0.realm.metadata == store.realm.metadata
  {
    var inserted :- ApplyAll(store, Insertion, request.insertedObjects.GetOr([]));
    var updated :- ApplyAll(inserted, Update, request.updatedObjects.GetOr([]));
    var deleted :- ApplyAll(updated, Deletion, request.deletedObjects.GetOr([]));
    Success((deleted, EmptyArray))
  }

  /** Whether a key is the record key of one of the objects. */
  predicate Targets(objects: seq<ManagedObject>, key: ObjectKey) {
    exists i :: 0 <= i < |objects| && KeyOf(objects[i]) == key
  }

  /** Applying changes leaves every record no object targets as it was. */
  lemma {:induction false} ApplyAllFrame(store: Store, change: Change, objects: seq<ManagedObject>, key: ObjectKey)
    requires ApplyAll(store, change, objects).Success?
    requires !Targets(objects, key)
    ensures FindRecord(ApplyAll(store, change, objects).value.realm, key) == FindRecord(store.realm, key)
    decreases |objects|
  {
    if objects != [] {
      var next := Apply(store, change, objects[0]).value;
      assert KeyOf(objects[0]) != key by {
        assert !(KeyOf(objects[0]) == key);
      }
      assert !Targets(objects[1..], key) by {
        forall i | 0 <= i < |objects[1..]| ensures KeyOf(objects[1..][i]) != key {
          assert objects[1..][i] == objects[i + 1];
        }
      }
      ApplyAllFrame(next, change, objects[1..], key);
    }
  }

  /** After deleting, no object's record remains. */
  lemma {:induction false} ApplyAllDeletes(store: Store, objects: seq<ManagedObject>)
    requires ApplyAll(store, Deletion, objects).Success?
    ensures forall i :: 0 <= i < |objects| ==> FindRecord(ApplyAll(store, Deletion, objects).value.realm, KeyOf(objects[i])).None?
    decreases |objects|
  {
    if objects != [] {
      var next := Apply(store, Deletion, objects[0]).value;
      ApplyAllDeletes(next, objects[1..]);
      var result := ApplyAll(store, Deletion, objects).value;
      forall i | 0 <= i < |objects| ensures FindRecord(result.realm, KeyOf(objects[i])).None? {
        if i > 0 {
          assert objects[1..][i - 1] == objects[i];
        } else if Targets(objects[1..], KeyOf(objects[0])) {
          var j :| 0 <= j < |objects[1..]| && KeyOf(objects[1..][j]) == KeyOf(objects[0]);
        } else {
          ApplyAllFrame(next, Deletion, objects[1..], KeyOf(objects[0]));
        }
      }
    }
  }

  /**
   * A save leaves every record that no inserted, updated or deleted object targets as it was,
   * and removes the record of every deleted object.
   */
  lemma SaveEffect(store: Store, request: SaveChangesRequest)
    requires ExecuteSaveRequest(store, request).Success?
    ensures var saved := ExecuteSaveRequest(store, request).value.0;
            forall i :: 0 <= i < |request.deletedObjects.GetOr([])| ==>
              FindRecord(saved.realm, KeyOf(request.deletedObjects.GetOr([])[i])).None?
    ensures var saved := ExecuteSaveRequest(store, request).value.0;
            forall key ::
              (!Targets(request.insertedObjects.GetOr([]), key) && !Targets(request.updatedObjects.GetOr([]), key) &&
               !Targets(request.deletedObjects.GetOr([]), key)) ==>
                FindRecord(saved.realm, key) == FindRecord(store.realm, key)
  {
    var inserted := ApplyAll(store, Insertion, request.insertedObjects.GetOr([])).value;
    var updated := ApplyAll(inserted, Update, request.updatedObjects.GetOr([])).value;
    ApplyAllDeletes(updated, request.deletedObjects.GetOr([]));
    forall key | !Targets(request.insertedObjects.GetOr([]), key) && !Targets(request.updatedObjects.GetOr([]), key) &&
                 !Targets(request.deletedObjects.GetOr([]), key)
      ensures FindRecord(ExecuteSaveRequest(store, request).value.0.realm, key) == FindRecord(store.realm, key)
    {
      ApplyAllFrame(store, Insertion, request.insertedObjects.GetOr([]), key);
      ApplyAllFrame(inserted, Update, request.updatedObjects.GetOr([]), key);
      ApplyAllFrame(updated, Deletion, request.deletedObjects.GetOr([]), key);
    }
  }

  /** The relationships of the object do not clear the reserved columns. */
  predicate KeepsReservedColumns(managed: ManagedObject) {
    && !ClearedBy(managed, managed.entity.relationships, ResourceIDProperty)
    && !ClearedBy(managed, managed.entity.relationships, VersionProperty)
  }

  /** The columns a built class's setters store for the object's attribute values. */
  predicate StoresAttributes(record: Record, managed: ManagedObject) {
    var attributes := managed.entity.attributes;
    forall i :: (0 <= i < |attributes| && !ClearedBy(managed, managed.entity.relationships, attributes[i].name)) ==>
      Column(record, attributes[i].name) == Stored(ConverterFor(attributes[i].attributeType), ValueForKey(managed, attributes[i].name))
  }

  /** Setting an object's values on a record of its entity's built class stores every attribute through its converter. */
  lemma BuiltClassStoresAttributes(backingClass: BackingClass, record: Record, managed: ManagedObject, sdkVersion: string)
    requires BuildBackingType(managed.entity, sdkVersion).Success?
    requires backingClass == BuildBackingType(managed.entity, sdkVersion).value.backingClass
    requires KeepsReservedColumns(managed)
    requires SetValuesFromManagedObject(backingClass, record, managed).Success?
    ensures StoresAttributes(SetValuesFromManagedObject(backingClass, record, managed).value, managed)
  {
    var entity := managed.entity;
    BackingTypeLayout(entity, sdkVersion);
    BuiltAccessorConverters(entity, sdkVersion);
    SetValuesEffect(backingClass, record, managed);
    var after := SetValuesFromManagedObject(backingClass, record, managed).value;
    forall i | 0 <= i < |entity.attributes| && !ClearedBy(managed, entity.relationships, entity.attributes[i].name)
      ensures Column(after, entity.attributes[i].name) ==
                Stored(ConverterFor(entity.attributes[i].attributeType), ValueForKey(managed, entity.attributes[i].name))
    {
      assert !IsReserved(entity.attributes[i].name);
      assert ConverterOf(backingClass, entity.attributes[i].name) == ConverterFor(entity.attributes[i].attributeType);
    }
  }

  /** A new record of a built class starts at version 0, so the first save gives it version 1. */
  lemma NewRecordVersion(managed: ManagedObject, sdkVersion: string)
    requires BuildBackingType(managed.entity, sdkVersion).Success?
    requires KeepsReservedColumns(managed)
    ensures var backingClass := BuildBackingType(managed.entity, sdkVersion).value.backingClass;
            var created := CreateBackingObject(backingClass, managed.objectID.reference);
            && SetValuesFromManagedObject(backingClass, created, managed).Success?
            && ObjectVersion(SetValuesFromManagedObject(backingClass, created, managed).value) == 1
            && Column(SetValuesFromManagedObject(backingClass, created, managed).value, VersionProperty) == Some(IntValue(1))
            && Column(SetValuesFromManagedObject(backingClass, created, managed).value, ResourceIDProperty) ==
                 Some(StringValue(managed.objectID.reference))
  {
    var backingClass := BuildBackingType(managed.entity, sdkVersion).value.backingClass;
    BuiltAttributeNames(managed.entity, sdkVersion);
    var created := CreateBackingObject(backingClass, managed.objectID.reference);
    assert ObjectVersion(created) == 0;
    SetValuesEffect(backingClass, created, managed);
  }

  /**
   * Inserting an object of a resolved entity under a new key succeeds; the record has version 1,
   * the object's reference as resource ID, and each attribute value as its setter stores it.
   */
  lemma InsertEffect(store: Store, managed: ManagedObject)
    requires Resolves(store, managed.entity)
    requires FindRecord(store.realm, KeyOf(managed)).None?
    requires KeepsReservedColumns(managed)
    ensures InsertObject(store, managed).Success?
    ensures var record := FindRecord(InsertObject(store, managed).value.realm, KeyOf(managed)).value;
            && ObjectVersion(record) == 1
            && Column(record, VersionProperty) == Some(IntValue(1))
            && Column(record, ResourceIDProperty) == Some(StringValue(managed.objectID.reference))
            && StoresAttributes(record, managed)
    ensures InsertObject(store, managed).value.cache == store.cache
  {
    var backingClass := BuildBackingType(managed.entity, store.sdkVersion).value.backingClass;
    var created := CreateBackingObject(backingClass, managed.objectID.reference);
    NewRecordVersion(managed, store.sdkVersion);
    BuiltClassStoresAttributes(backingClass, created, managed, store.sdkVersion);
    var record := SetValuesFromManagedObject(backingClass, created, managed).value;
    assert InsertObject(store, managed) == Success(Store(store.sdkVersion, PutRecord(store.realm, KeyOf(managed), record), store.cache));
  }

  /**
   * Updating the stored record of an object of a resolved entity adds one to its version, keeps
   * its resource ID and stores each attribute value; it fails only when the version is the
   * largest one.
   */
  lemma UpdateEffect(store: Store, managed: ManagedObject)
    requires Resolves(store, managed.entity)
    requires FindRecord(store.realm, KeyOf(managed)).Some?
    requires KeepsReservedColumns(managed)
    ensures var before := FindRecord(store.realm, KeyOf(managed)).value;
            UpdateObject(store, managed).Success? <==> ObjectVersion(before) < UInt64Limit - 1
    ensures var before := FindRecord(store.realm, KeyOf(managed)).value;
            var r := UpdateObject(store, managed);
            r.Success? ==>
              var after := FindRecord(r.value.realm, KeyOf(managed)).value;
              && ObjectVersion(after) == ObjectVersion(before) + 1
              && Column(after, ResourceIDProperty) == Column(before, ResourceIDProperty)
              && StoresAttributes(after, managed)
  {
    var backingClass := BuildBackingType(managed.entity, store.sdkVersion).value.backingClass;
    var before := FindRecord(store.realm, KeyOf(managed)).value;
    BackingTypeLayout(managed.entity, store.sdkVersion);
    SetValuesEffect(backingClass, before, managed);
    if UpdateObject(store, managed).Success? {
      BuiltClassStoresAttributes(backingClass, before, managed, store.sdkVersion);
      var after := SetValuesFromManagedObject(backingClass, before, managed).value;
      assert UpdateObject(store, managed) == Success(store.(realm := PutRecord(store.realm, KeyOf(managed), after)));
    }
  }

  /** The record an insert leaves: version 1, the object's reference as resource ID, and its stored attributes. */
  predicate InsertedRecord(record: Record, managed: ManagedObject) {
    && ObjectVersion(record) == 1
    && Column(record, ResourceIDProperty) == Some(StringValue(managed.objectID.reference))
    && StoresAttributes(record, managed)
  }

  /** Inserting never replaces a stored record: an insert under a taken key stops the save. */
  lemma {:induction false} InsertionsKeepRecords(store: Store, objects: seq<ManagedObject>, key: ObjectKey)
    requires ApplyAll(store, Insertion, objects).Success?
    requires FindRecord(store.realm, key).Some?
    ensures FindRecord(ApplyAll(store, Insertion, objects).value.realm, key) == FindRecord(store.realm, key)
    decreases |objects|
  {
    if objects != [] {
      var next := Apply(store, Insertion, objects[0]).value;
      assert KeyOf(objects[0]) != key;
      InsertionsKeepRecords(next, objects[1..], key);
    }
  }

  /** Updating neither creates nor removes a record. */
  lemma {:induction false} UpdatesKeepPresence(store: Store, objects: seq<ManagedObject>, key: ObjectKey)
    requires ApplyAll(store, Update, objects).Success?
    ensures FindRecord(ApplyAll(store, Update, objects).value.realm, key).Some? <==> FindRecord(store.realm, key).Some?
    decreases |objects|
  {
    if objects != [] {
      var next := Apply(store, Update, objects[0]).value;
      UpdatesKeepPresence(next, objects[1..], key);
    }
  }

  /** After the insert pass, every inserted object has a record. */
  lemma {:induction false} ApplyAllInsertsPresent(store: Store, objects: seq<ManagedObject>, i: nat)
    requires ApplyAll(store, Insertion, objects).Success?
    requires i < |objects|
    ensures FindRecord(ApplyAll(store, Insertion, objects).value.realm, KeyOf(objects[i])).Some?
    decreases |objects|
  {
    var next := Apply(store, Insertion, objects[0]).value;
    assert ApplyAll(store, Insertion, objects) == ApplyAll(next, Insertion, objects[1..]);
    if i == 0 {
      InsertionsKeepRecords(next, objects[1..], KeyOf(objects[0]));
    } else {
      assert objects[1..][i - 1] == objects[i];
      ApplyAllInsertsPresent(next, objects[1..], i - 1);
    }
  }

  /** After the insert pass, an inserted object of an entity that resolves has the record its own insert created. */
  lemma {:induction false} ApplyAllInsertsRecord(store: Store, objects: seq<ManagedObject>, i: nat)
    requires ApplyAll(store, Insertion, objects).Success?
    requires i < |objects|
    requires Resolves(store, objects[i].entity) && KeepsReservedColumns(objects[i])
    ensures var after := FindRecord(ApplyAll(store, Insertion, objects).value.realm, KeyOf(objects[i]));
            after.Some? && InsertedRecord(after.value, objects[i])
    decreases |objects|
  {
    var next := Apply(store, Insertion, objects[0]).value;
    assert ApplyAll(store, Insertion, objects) == ApplyAll(next, Insertion, objects[1..]);
    if i == 0 {
      InsertEffect(store, objects[0]);
      InsertionsKeepRecords(next, objects[1..], KeyOf(objects[0]));
    } else {
      assert objects[1..][i - 1] == objects[i];
      ResolvesKept(store, next, objects[i].entity);
      ApplyAllInsertsRecord(next, objects[1..], i - 1);
    }
  }

  /** No other object of the list has the same record key as object i. */
  predicate TargetedOnce(objects: seq<ManagedObject>, i: nat) {
    && i < |objects|
    && forall j :: 0 <= j < |objects| && j != i ==> KeyOf(objects[j]) != KeyOf(objects[i])
  }

  /**
   * After the update pass, an object of a resolved entity whose record exists, and which no other
   * update targets, has that record with the version one higher, the same resource ID and its
   * stored attributes.
   */
  lemma {:induction false} ApplyAllUpdates(store: Store, objects: seq<ManagedObject>, i: nat)
    requires ApplyAll(store, Update, objects).Success?
    requires i < |objects| && TargetedOnce(objects, i)
    requires Resolves(store, objects[i].entity) && KeepsReservedColumns(objects[i])
    requires FindRecord(store.realm, KeyOf(objects[i])).Some?
    ensures var before := FindRecord(store.realm, KeyOf(objects[i])).value;
            var after := FindRecord(ApplyAll(store, Update, objects).value.realm, KeyOf(objects[i]));
            && after.Some?
            && ObjectVersion(after.value) == ObjectVersion(before) + 1
            && Column(after.value, ResourceIDProperty) == Column(before, ResourceIDProperty)
            && StoresAttributes(after.value, objects[i])
    decreases |objects|
  {
    var key := KeyOf(objects[i]);
    var next := Apply(store, Update, objects[0]).value;
    if i == 0 {
      UpdateEffect(store, objects[0]);
      assert !Targets(objects[1..], key) by {
        forall j | 0 <= j < |objects[1..]| ensures KeyOf(objects[1..][j]) != key {
          assert objects[1..][j] == objects[j + 1];
        }
      }
      ApplyAllFrame(next, Update, objects[1..], key);
    } else {
      assert objects[1..][i - 1] == objects[i];
      assert KeyOf(objects[0]) != key;
      assert TargetedOnce(objects[1..], i - 1) by {
        forall j | 0 <= j < |objects[1..]| && j != i - 1 ensures KeyOf(objects[1..][j]) != key {
          assert objects[1..][j] == objects[j + 1];
        }
      }
      ResolvesKept(store, next, objects[i].entity);
      ApplyAllUpdates(next, objects[1..], i - 1);
    }
  }

  /**
   * A save leaves a record for every inserted object that no deletion targets. When the object's
   * entity resolves and no update targets it either, that record is the one its insert created:
   * version 1, the object's reference as resource ID, and its attribute values as stored.
   */
  lemma SaveInserts(store: Store, request: SaveChangesRequest)
    requires ExecuteSaveRequest(store, request).Success?
    ensures var saved := ExecuteSaveRequest(store, request).value.0;
            var inserts := request.insertedObjects.GetOr([]);
            forall i :: 0 <= i < |inserts| && !Targets(request.deletedObjects.GetOr([]), KeyOf(inserts[i])) ==>
              FindRecord(saved.realm, KeyOf(inserts[i])).Some?
    ensures var saved := ExecuteSaveRequest(store, request).value.0;
            var inserts := request.insertedObjects.GetOr([]);
            forall i ::
              (&& 0 <= i < |inserts|
               && Resolves(store, inserts[i].entity) && KeepsReservedColumns(inserts[i])
               && !Targets(request.updatedObjects.GetOr([]), KeyOf(inserts[i]))
               && !Targets(request.deletedObjects.GetOr([]), KeyOf(inserts[i]))) ==>
                FindRecord(saved.realm, KeyOf(inserts[i])).Some? && InsertedRecord(FindRecord(saved.realm, KeyOf(inserts[i])).value, inserts[i])
  {
    var inserts := request.insertedObjects.GetOr([]);
    var updates := request.updatedObjects.GetOr([]);
    var deletes := request.deletedObjects.GetOr([]);
    var inserted := ApplyAll(store, Insertion, inserts).value;
    var updated := ApplyAll(inserted, Update, updates).value;
    var saved := ApplyAll(updated, Deletion, deletes).value;
    assert ExecuteSaveRequest(store, request).value.0 == saved;
    forall i | 0 <= i < |inserts| && !Targets(deletes, KeyOf(inserts[i]))
      ensures FindRecord(saved.realm, KeyOf(inserts[i])).Some?
    {
      ApplyAllInsertsPresent(store, inserts, i);
      UpdatesKeepPresence(inserted, updates, KeyOf(inserts[i]));
      ApplyAllFrame(updated, Deletion, deletes, KeyOf(inserts[i]));
    }
    forall i | && 0 <= i < |inserts|
               && Resolves(store, inserts[i].entity) && KeepsReservedColumns(inserts[i])
               && !Targets(updates, KeyOf(inserts[i])) && !Targets(deletes, KeyOf(inserts[i]))
      ensures FindRecord(saved.realm, KeyOf(inserts[i])).Some? && InsertedRecord(FindRecord(saved.realm, KeyOf(inserts[i])).value, inserts[i])
    {
      ApplyAllInsertsRecord(store, inserts, i);
      ApplyAllFrame(inserted, Update, updates, KeyOf(inserts[i]));
      ApplyAllFrame(updated, Deletion, deletes, KeyOf(inserts[i]));
    }
  }

  /**
   * A save updates the stored record of every updated object of a resolved entity that no other
   * change of the save targets: its version goes up by one, its resource ID stays, and its
   * attribute values are stored.
   */
  lemma SaveUpdates(store: Store, request: SaveChangesRequest)
    requires ExecuteSaveRequest(store, request).Success?
    ensures var saved := ExecuteSaveRequest(store, request).value.0;
            var updates := request.updatedObjects.GetOr([]);
            forall i ::
              (&& 0 <= i < |updates| && TargetedOnce(updates, i)
               && Resolves(store, updates[i].entity) && KeepsReservedColumns(updates[i])
               && FindRecord(store.realm, KeyOf(updates[i])).Some?
               && !Targets(request.insertedObjects.GetOr([]), KeyOf(updates[i]))
               && !Targets(request.deletedObjects.GetOr([]), KeyOf(updates[i]))) ==>
                var before := FindRecord(store.realm, KeyOf(updates[i])).value;
                var after := FindRecord(saved.realm, KeyOf(updates[i]));
                && after.Some?
                && ObjectVersion(after.value) == ObjectVersion(before) + 1
                && Column(after.value, ResourceIDProperty) == Column(before, ResourceIDProperty)
                && StoresAttributes(after.value, updates[i])
  {
    var inserts := request.insertedObjects.GetOr([]);
    var updates := request.updatedObjects.GetOr([]);
    var deletes := request.deletedObjects.GetOr([]);
    var inserted := ApplyAll(store, Insertion, inserts).value;
    var updated := ApplyAll(inserted, Update, updates).value;
    var saved := ApplyAll(updated, Deletion, deletes).value;
    assert ExecuteSaveRequest(store, request).value.0 == saved;
    forall i | && 0 <= i < |updates| && TargetedOnce(updates, i)
               && Resolves(store, updates[i].entity) && KeepsReservedColumns(updates[i])
               && FindRecord(store.realm, KeyOf(updates[i])).Some?
               && !Targets(inserts, KeyOf(updates[i])) && !Targets(deletes, KeyOf(updates[i]))
      ensures var before := FindRecord(store.realm, KeyOf(updates[i])).value;
              var after := FindRecord(saved.realm, KeyOf(updates[i]));
              && after.Some?
              && ObjectVersion(after.value) == ObjectVersion(before) + 1
              && Column(after.value, ResourceIDProperty) == Column(before, ResourceIDProperty)
              && StoresAttributes(after.value, updates[i])
    {
      var key := KeyOf(updates[i]);
      ApplyAllFrame(store, Insertion, inserts, key);
      ResolvesKept(store, inserted, updates[i].entity);
      ApplyAllUpdates(inserted, updates, i);
      ApplyAllFrame(updated, Deletion, deletes, key);
    }
  }

  // ---------------------------------------------------------------------------------------------
  // Dispatch

  /**
   * `executeRequest`: a fetch request of the fetch type is fetched, a save request of the save
   * type is saved; every other request, batch updates and deletes included, is unsupported.
   */
  function ExecuteRequest(store: Store, engine: Engine, lookup: Lookup, request: PersistentStoreRequest, hasContext: bool): (r: Result<(Store, RequestResult), Failure>)
    ensures r == Failure(Thrown(StoreRequestUnsupported)) <==>
              !(request.requestType == FetchRequestType && request.body.FetchBody?) &&
              !(request.requestType == SaveRequestType && request.body.SaveBody?)
    ensures r.Failure? && r.error.Thrown? ==> r.error.error == StoreRequestUnsupported
    ensures request.requestType == SaveRequestType && request.body.SaveBody? ==> (r.Success? ==> r.value.1 == EmptyArray)
    ensures request.requestType == FetchRequestType && request.body.FetchBody? ==> (r.Success? ==> r.value.0.realm == store.realm)
    ensures request.requestType == FetchRequestType && request.body.FetchBody? ==>
              r == ExecuteFetchRequest(store, engine, lookup, request.body.fetch, hasContext)
    ensures request.requestType == SaveRequestType && request.body.SaveBody? ==>
              r == ExecuteSaveRequest(store, request.body.save)
  {
    match (request.requestType, request.body)
    case (FetchRequestType, FetchBody(fetch)) => ExecuteFetchRequest(store, engine, lookup, fetch, hasContext)
    case (SaveRequestType, SaveBody(save)) => ExecuteSaveRequest(store, save)
    case _ => Failure(Thrown(StoreRequestUnsupported))
  }
}
