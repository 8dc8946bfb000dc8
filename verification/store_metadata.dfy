/**
 * Loading the store's metadata when the store is added to a coordinator: the checks on the
 * coordinator and the location, building every entity's backing type, and reading or creating
 * the metadata record.
 */
module StoreMetadata {
  import opened Wrappers
  import opened Values
  import opened Errors
  import opened EntitySchema
  import opened StoreModel

  /** The store's location. */
  datatype URL = URL(isFileURL: bool, path: string)

  /** The metadata the store reports: its identifier, its type and the entity version hashes. */
  datatype Metadata = Metadata(storeUUID: string, storeType: string, versionHashes: map<string, VersionHash>)

  datatype Opened = Opened(metadata: Metadata, store: Store)

  /** `entityVersionHashesByName` of a model whose entities have distinct names. */
  function VersionHashesByName(entities: seq<Entity>): (r: map<string, VersionHash>)
    ensures forall i :: 0 <= i < |entities| ==> entities[i].name in r
    ensures forall k :: k in r ==> exists i :: 0 <= i < |entities| && entities[i].name == k && r[k] == entities[i].versionHash
    decreases |entities|
  {
    if entities == [] then map[]
    else
      var rest := VersionHashesByName(entities[1..]);
      var r := rest[entities[0].name := entities[0].versionHash];
      assert forall i :: 1 <= i < |entities| ==> entities[i] == entities[1..][i - 1];
      r
  }

  /** One schema per entity, each the one cached under the entity's version hash. */
  predicate SchemasCached(entities: seq<Entity>, schemas: seq<ObjectSchema>, classes: map<VersionHash, BackingType>) {
    && |schemas| == |entities|
    && forall i :: 0 <= i < |entities| ==>
         entities[i].versionHash in classes && schemas[i] == classes[entities[i].versionHash].objectSchema
  }

  /** Each entry the second cache has and the first lacks is the backing type built for an entity with that hash. */
  predicate GainsOnlyBuilds(entities: seq<Entity>, before: map<VersionHash, BackingType>, after: map<VersionHash, BackingType>, sdkVersion: string) {
    forall h :: h in after && h !in before ==>
      exists i :: 0 <= i < |entities| && entities[i].versionHash == h && BuildBackingType(entities[i], sdkVersion).Success? &&
        after[h] == BuildBackingType(entities[i], sdkVersion).value
  }

  /**
   * Loads the backing type of every entity in order, threading the schema cache, and returns their
   * object schemas: each is the one cached under its entity's version hash afterwards, and the
   * cache keeps every entry it had.
   */
  function CreateBackingClasses(entities: seq<Entity>, cache: SchemaCache, sdkVersion: string): (r: Result<(seq<ObjectSchema>, SchemaCache), Failure>)
    ensures r.Success? ==> KeepsEntries(cache.classes, r.value.1.classes)
    ensures r.Success? ==> SchemasCached(entities, r.value.0, r.value.1.classes)
    ensures r.Failure? ==> r.error.Trap?
    decreases |entities|
  {
    if entities == [] then Success(([], cache))
    else
      var loaded :- LoadRealmBackingTypeIfNeeded(entities[0], cache, sdkVersion);
      var rest :- CreateBackingClasses(entities[1..], loaded.cache, sdkVersion);
      LoadCaches(entities[0], cache, sdkVersion);
      CachedCons(entities, cache.classes, loaded.cache.classes, rest.1.classes, loaded.backingType, rest.0);
      Success(([loaded.backingType.objectSchema] + rest.0, rest.1))
  }

  /**
   * One load caches the entity's backing type under its version hash, keeps every entry, and adds
   * at most that one entry, built for the entity.
   */
  lemma LoadCaches(entity: Entity, cache: SchemaCache, sdkVersion: string)
    requires LoadRealmBackingTypeIfNeeded(entity, cache, sdkVersion).Success?
    ensures var loaded := LoadRealmBackingTypeIfNeeded(entity, cache, sdkVersion).value;
            && entity.versionHash in loaded.cache.classes
            && loaded.cache.classes[entity.versionHash] == loaded.backingType
            && KeepsEntries(cache.classes, loaded.cache.classes)
            && GainsOnlyBuilds([entity], cache.classes, loaded.cache.classes, sdkVersion)
  {
    var loaded := LoadRealmBackingTypeIfNeeded(entity, cache, sdkVersion).value;
    forall h | h in loaded.cache.classes && h !in cache.classes
      ensures [entity][0].versionHash == h && BuildBackingType([entity][0], sdkVersion).Success? &&
              loaded.cache.classes[h] == BuildBackingType([entity][0], sdkVersion).value
    {
    }
  }

  /** The first entity's schema, cached before the rest are loaded, stays cached. */
  lemma CachedCons(entities: seq<Entity>, before: map<VersionHash, BackingType>, mid: map<VersionHash, BackingType>,
                   after: map<VersionHash, BackingType>, first: BackingType, schemas: seq<ObjectSchema>)
    requires entities != []
    requires entities[0].versionHash in mid && mid[entities[0].versionHash] == first
    requires KeepsEntries(before, mid) && KeepsEntries(mid, after)
    requires SchemasCached(entities[1..], schemas, after)
    ensures KeepsEntries(before, after)
    ensures SchemasCached(entities, [first.objectSchema] + schemas, after)
  {
    var all := [first.objectSchema] + schemas;
    forall i | 0 <= i < |entities|
      ensures entities[i].versionHash in after && all[i] == after[entities[i].versionHash].objectSchema
    {
      if i > 0 {
        assert entities[i] == entities[1..][i - 1];
        assert all[i] == schemas[i - 1];
      }
    }
  }

  /** The entries gained by loading the first entity and then the rest are all builds of these entities. */
  lemma GainsCons(entities: seq<Entity>, before: map<VersionHash, BackingType>, mid: map<VersionHash, BackingType>,
                  after: map<VersionHash, BackingType>, sdkVersion: string)
    requires entities != []
    requires KeepsEntries(mid, after)
    requires GainsOnlyBuilds(entities[..1], before, mid, sdkVersion)
    requires GainsOnlyBuilds(entities[1..], mid, after, sdkVersion)
    ensures GainsOnlyBuilds(entities, before, after, sdkVersion)
  {
    forall h | h in after && h !in before
      ensures exists i :: 0 <= i < |entities| && entities[i].versionHash == h && BuildBackingType(entities[i], sdkVersion).Success? &&
                after[h] == BuildBackingType(entities[i], sdkVersion).value
    {
      if h in mid {
        var j :| 0 <= j < 1 && entities[..1][j].versionHash == h && BuildBackingType(entities[..1][j], sdkVersion).Success? &&
                 mid[h] == BuildBackingType(entities[..1][j], sdkVersion).value;
        assert entities[0] == entities[..1][j];
      } else {
        var j :| 0 <= j < |entities[1..]| && entities[1..][j].versionHash == h && BuildBackingType(entities[1..][j], sdkVersion).Success? &&
                 after[h] == BuildBackingType(entities[1..][j], sdkVersion).value;
        assert entities[j + 1] == entities[1..][j];
      }
    }
  }

  /** Each entry the cache gains while the backing classes are created is the backing type built for an entity with that hash. */
  lemma {:induction false} CreateBackingClassesNewEntries(entities: seq<Entity>, cache: SchemaCache, sdkVersion: string)
    requires CreateBackingClasses(entities, cache, sdkVersion).Success?
    ensures GainsOnlyBuilds(entities, cache.classes, CreateBackingClasses(entities, cache, sdkVersion).value.1.classes, sdkVersion)
    decreases |entities|
  {
    if entities != [] {
      var loaded := LoadRealmBackingTypeIfNeeded(entities[0], cache, sdkVersion).value;
      var rest := CreateBackingClasses(entities[1..], loaded.cache, sdkVersion).value;
      assert CreateBackingClasses(entities, cache, sdkVersion).value.1 == rest.1;
      CreateBackingClassesNewEntries(entities[1..], loaded.cache, sdkVersion);
      LoadCaches(entities[0], cache, sdkVersion);
      assert entities[..1] == [entities[0]];
      GainsCons(entities, cache.classes, loaded.cache.classes, rest.1.classes, sdkVersion);
    }
  }

  /**
   * Creating the backing classes of entities with distinct, uncached version hashes yields, for
   * each entity, the object schema built for it.
   */
  lemma CreateBackingClassesBuilds(entities: seq<Entity>, cache: SchemaCache, sdkVersion: string)
    requires CreateBackingClasses(entities, cache, sdkVersion).Success?
    requires forall i :: 0 <= i < |entities| ==> entities[i].versionHash !in cache.classes
    requires forall i, j :: 0 <= i < j < |entities| ==> entities[i].versionHash != entities[j].versionHash
    ensures forall i :: 0 <= i < |entities| ==>
              && BuildBackingType(entities[i], sdkVersion).Success?
              && CreateBackingClasses(entities, cache, sdkVersion).value.0[i] == BuildBackingType(entities[i], sdkVersion).value.objectSchema
  {
    var r := CreateBackingClasses(entities, cache, sdkVersion).value;
    CreateBackingClassesNewEntries(entities, cache, sdkVersion);
    forall i | 0 <= i < |entities|
      ensures BuildBackingType(entities[i], sdkVersion).Success?
      ensures r.0[i] == BuildBackingType(entities[i], sdkVersion).value.objectSchema
    {
      var h := entities[i].versionHash;
      assert h in r.1.classes && h !in cache.classes;
      var j :| 0 <= j < |entities| && entities[j].versionHash == h && BuildBackingType(entities[j], sdkVersion).Success? &&
               r.1.classes[h] == BuildBackingType(entities[j], sdkVersion).value;
      assert j == i;
    }
  }

  /**
   * `loadMetadata`: fails with InvalidState without a coordinator, PersistentStoreURLMissing
   * without a URL and PersistentStoreURLInvalid for a non-file URL, in that order; then builds the
   * backing types. An existing metadata record's version hashes are deserialised (data that is
   * not a property list rethrows the deserialiser's error, any other property list is
   * PersistentStoreCorrupted) and its identifier is reused; otherwise the model's version hashes
   * and `newIdentifier` are written as a new record in one write transaction.
   */
  function LoadMetadata(model: Option<seq<Entity>>, url: Option<URL>, realm: Realm, cache: SchemaCache,
                        sdkVersion: string, newIdentifier: string): (r: Result<Opened, Failure>)
    ensures model.None? ==> r == Failure(Thrown(InvalidState))
    ensures model.Some? && url.None? ==> r == Failure(Thrown(PersistentStoreURLMissing))
    ensures model.Some? && url.Some? && !url.value.isFileURL ==> r == Failure(Thrown(PersistentStoreURLInvalid))
    ensures r.Success? ==> r.value.metadata.storeType == StoreType && r.value.store.sdkVersion == sdkVersion
    ensures r.Success? && sdkVersion in realm.metadata ==>
              && r.value.metadata.storeUUID == realm.metadata[sdkVersion].storeIdentifier
              && realm.metadata[sdkVersion].versionHashes == VersionHashList(r.value.metadata.versionHashes)
              && r.value.store.realm == realm
    ensures r.Success? && sdkVersion !in realm.metadata ==>
              && r.value.metadata.storeUUID == newIdentifier
              && r.value.metadata.versionHashes == VersionHashesByName(model.value)
              && r.value.store.realm.tables == realm.tables
              && r.value.store.realm.metadata == realm.metadata[sdkVersion := MetadataRecord(newIdentifier, VersionHashList(VersionHashesByName(model.value)))]
    ensures sdkVersion in realm.metadata && model.Some? && url.Some? && url.value.isFileURL &&
            CreateBackingClasses(model.value, cache, sdkVersion).Success? ==>
              match realm.metadata[sdkVersion].versionHashes
              case MalformedData => r == Failure(Thrown(PropertyListReadError))
              case OtherPropertyList => r == Failure(Thrown(PersistentStoreCorrupted))
              case VersionHashList(_) => r.Success?
    ensures (sdkVersion !in realm.metadata && model.Some? && url.Some? && url.value.isFileURL &&
             CreateBackingClasses(model.value, cache, sdkVersion).Success?) ==> r.Success?
    ensures model.Some? && url.Some? && url.value.isFileURL && CreateBackingClasses(model.value, cache, sdkVersion).Failure? ==>
              r == Failure(CreateBackingClasses(model.value, cache, sdkVersion).error)
    ensures r.Success? ==>
              && model.Some? && CreateBackingClasses(model.value, cache, sdkVersion).Success?
              && r.value.store.cache == CreateBackingClasses(model.value, cache, sdkVersion).value.1
  {
    if model.None? then Failure(Thrown(InvalidState))
    else if url.None? then Failure(Thrown(PersistentStoreURLMissing))
    else if !url.value.isFileURL then Failure(Thrown(PersistentStoreURLInvalid))
    else
      var created :- CreateBackingClasses(model.value, cache, sdkVersion);
      var cache' := created.1;
      if sdkVersion in realm.metadata then
        var record := realm.metadata[sdkVersion];
        match record.versionHashes
        case MalformedData => Failure(Thrown(PropertyListReadError))
        case OtherPropertyList => Failure(Thrown(PersistentStoreCorrupted))
        case VersionHashList(hashes) =>
          Success(Opened(Metadata(record.storeIdentifier, StoreType, hashes), Store(sdkVersion, realm, cache')))
      else
        var hashes := VersionHashesByName(model.value);
        var record := MetadataRecord(newIdentifier, VersionHashList(hashes));
        var realm' := realm.(metadata := realm.metadata[sdkVersion := record]);
        Success(Opened(Metadata(newIdentifier, StoreType, hashes), Store(sdkVersion, realm', cache')))
  }

  /** When every entity's version hash is cached, creating the backing classes succeeds and leaves the cache alone. */
  lemma {:induction false} CreateBackingClassesFromCache(entities: seq<Entity>, cache: SchemaCache, sdkVersion: string)
    requires forall i :: 0 <= i < |entities| ==> entities[i].versionHash in cache.classes
    ensures CreateBackingClasses(entities, cache, sdkVersion).Success?
    ensures CreateBackingClasses(entities, cache, sdkVersion).value.1 == cache
    decreases |entities|
  {
    if entities != [] {
      assert forall i :: 1 <= i < |entities| ==> entities[i] == entities[1..][i - 1];
      CreateBackingClassesFromCache(entities[1..], cache, sdkVersion);
    }
  }

  /**
   * Loading a new store writes a metadata record that a later load, by the same process, reads
   * back: the same identifier and the same version hashes, whatever new identifier it is offered.
   */
  lemma ReloadKeepsIdentity(model: seq<Entity>, url: URL, realm: Realm, cache: SchemaCache,
                            sdkVersion: string, firstIdentifier: string, laterIdentifier: string)
    requires sdkVersion !in realm.metadata
    requires LoadMetadata(Some(model), Some(url), realm, cache, sdkVersion, firstIdentifier).Success?
    ensures var first := LoadMetadata(Some(model), Some(url), realm, cache, sdkVersion, firstIdentifier).value;
            var later := LoadMetadata(Some(model), Some(url), first.store.realm, first.store.cache, sdkVersion, laterIdentifier);
            && later.Success?
            && later.value.metadata == first.metadata
            && later.value.store == first.store
  {
    var first := LoadMetadata(Some(model), Some(url), realm, cache, sdkVersion, firstIdentifier).value;
    CreateBackingClassesFromCache(model, first.store.cache, sdkVersion);
  }
}
