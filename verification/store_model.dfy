/**
 * The state the store adapter works on. The store file is abstracted as its metadata records
 * and one table of records per entity, keyed by resource ID.
 */
module StoreModel {
  import opened Wrappers
  import opened Values
  import opened EntitySchema
  import opened BackingObject

  /** The store type tag reported in the metadata: the adapter's class name. */
  const StoreType: string := "RealmIncrementalStore"

  /**
   * Serialised property-list data, represented by what deserialising it yields: a table of
   * version hashes, some other well-formed property list, or data that is not a property list.
   */
  datatype PropertyListData =
    | VersionHashList(hashes: map<string, VersionHash>)
    | OtherPropertyList
    | MalformedData

  /** The metadata record: the store's identifier and its serialised version-hash table. */
  datatype MetadataRecord = MetadataRecord(storeIdentifier: string, versionHashes: PropertyListData)

  /** The store file: metadata records by SDK version and, per entity, records by resource ID. */
  datatype Realm = Realm(metadata: map<string, MetadataRecord>, tables: map<string, map<string, Record>>)

  /** The adapter's state: the SDK version it runs as, its open store file and the schema cache. */
  datatype Store = Store(sdkVersion: string, realm: Realm, cache: SchemaCache)

  /** The records of an entity's backing table. */
  function Table(realm: Realm, entityName: string): map<string, Record> {
    if entityName in realm.tables then realm.tables[entityName] else map[]
  }

  /** The record stored under a key, if any (`init(inRealm:forPrimaryKey:)`). */
  function FindRecord(realm: Realm, key: ObjectKey): (r: Option<Record>)
    ensures r.Some? <==> key.resourceID in Table(realm, key.entityName)
  {
    var table := Table(realm, key.entityName);
    if key.resourceID in table then Some(table[key.resourceID]) else None
  }

  /** Stores a record under a key; no other key is affected. */
  function PutRecord(realm: Realm, key: ObjectKey, record: Record): (r: Realm)
    ensures FindRecord(r, key) == Some(record)
    ensures forall k :: k != key ==> FindRecord(r, k) == FindRecord(realm, k)
    ensures r.metadata == realm.metadata
  {
    realm.(tables := realm.tables[key.entityName := Table(realm, key.entityName)[key.resourceID := record]])
  }

  /** Removes the record under a key; no other key is affected. */
  function DeleteRecord(realm: Realm, key: ObjectKey): (r: Realm)
    ensures FindRecord(r, key).None?
    ensures forall k :: k != key ==> FindRecord(r, k) == FindRecord(realm, k)
    ensures r.metadata == realm.metadata
  {
    realm.(tables := realm.tables[key.entityName := Table(realm, key.entityName) - {key.resourceID}])
  }

  /** `newObjectIDForEntity(_:referenceObject:)`: a permanent ID of the entity for the reference. */
  function NewObjectID(entityName: string, reference: string): (id: ObjectID)
    ensures id.entityName == entityName && id.reference == reference && !id.temporary
  {
    ObjectID(entityName, reference, false)
  }

  /**
   * The store resolves the entity to the backing type built from it and leaves its cache alone:
   * the situation once the entity's backing type has been loaded.
   */
  predicate Resolves(store: Store, entity: Entity) {
    && BuildBackingType(entity, store.sdkVersion).Success?
    && RealmBackingClass(entity, store.cache, store.sdkVersion) ==
         Success((BuildBackingType(entity, store.sdkVersion).value.backingClass, store.cache))
    && RealmObjectSchema(entity, store.cache, store.sdkVersion) ==
         Success((BuildBackingType(entity, store.sdkVersion).value.objectSchema, store.cache))
  }

  /**
   * An entity that resolves keeps resolving while the cache only gains entries: it is served from
   * its userInfo or from a cached entry, and neither changes.
   */
  lemma ResolvesKept(store: Store, store': Store, entity: Entity)
    requires Resolves(store, entity)
    requires store'.sdkVersion == store.sdkVersion
    requires KeepsEntries(store.cache.classes, store'.cache.classes)
    ensures Resolves(store', entity)
  {
    if !HasBackingClassInfo(entity) || !HasObjectSchemaInfo(entity) {
      assert entity.versionHash in store.cache.classes;
    }
  }

  /** An entity whose backing type was just built and published resolves in any store of that SDK version. */
  lemma LoadedEntityResolves(entity: Entity, cache: SchemaCache, store: Store)
    requires entity.versionHash !in cache.classes
    requires LoadRealmBackingTypeIfNeeded(entity, cache, store.sdkVersion).Success?
    ensures Resolves(store, LoadRealmBackingTypeIfNeeded(entity, cache, store.sdkVersion).value.entity)
  {
    AccessorsAfterLoad(entity, cache, store.sdkVersion, store.cache);
  }
}
