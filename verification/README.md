# RealmIncrementalStore in Dafny

A model of the core of RealmIncrementalStore. This is a Core Data incremental store that keeps
managed objects in a Realm file. Every entity of the managed object model gets a generated
backing class. The store translates Core Data requests into operations on those records.

The model covers four parts of the library.

- **Schema translator and cache** (`EntitySchema`, `Naming`)
  - An entity's backing class and object schema: the attribute-type table, the date and decimal
    value converters, the default-value table, the synthesised ivar/getter/setter names, and the
    reserved primary-key (`_RIS_PK`) and version (`_RIS_VER`) properties.
  - The process-wide cache keyed by the entity's version hash, and the copy into the entity's
    `userInfo`.
  - The runtime failures: unsupported attribute types, a selector the class already has, and a
    class name already registered.
- **Record helpers** (`BackingObject`)
  - Creating a record under a resource ID.
  - Reading and writing the 64-bit version counter.
  - Copying a managed object's values into a record (`setValuesFromManagedObject`).
- **Predicate and expression rewriting** (`Expressions`, `Predicates`)
  - Replacing object-ID and managed-object constants by the records they name.
- **Store adapter** (`StoreModel`, `StoreMetadata`, `StoreRequests`, `StoreObjects`)
  - Opening the store and reading or creating its metadata record.
  - Dispatching requests, shaping fetch results, and the insert/update/delete save transaction.
  - Materialising an object's values, resolving relationships, and assigning permanent IDs.

Modelling conventions:

- The store file is a map of metadata records keyed by SDK version. Alongside it is one table per
  entity that maps a resource ID to a record, and a record maps column names to values.
- A `fatalError`, a failed forced unwrap or cast, an exception from the storage engine and an
  arithmetic overflow all stop the process. They are modelled as `Failure.Trap(reason)`. Swift
  errors that are thrown are `Failure.Thrown(error)`.
- These are parameters of the model:
  - the SDK version string;
  - the lookup from an object ID to the record it names;
  - the storage engine's predicate evaluation and ordering;
  - the identifier for a new store;
  - the fresh references for permanent IDs.
- Foundation sets are modelled by the order in which they are enumerated.

Behaviour of the code worth knowing, which the model keeps:

- A version-hash blob that is not a property list rethrows the deserialiser's error
  (`PropertyListReadError`). A property list of the wrong shape throws `PersistentStoreCorrupted`.
- Decimal attributes are supported: they are stored as strings through a converter. Transient
  attributes are stored like any other attribute.
- The backing schema has no relationship columns. On save, only an empty to-one relationship is
  written: its column is cleared.
- A missing update or delete target is skipped silently. It is not an `ObjectNotFound` error.
- An unknown fetch result type stops the process. It does not throw.
- The metadata record's primary key is the SDK version string.
- `ObjectNotFound` and `StoreRequestUnsupported` are thrown, but the library's error enumeration
  does not declare them.

## Model

| member | source | states |
|---|---|---|
| Naming.BackingClassName | RealmIncrementalStore/RLMObject+RealmIncrementalStore.swift:43-46 | The backing class name is `_RIS_` + the SDK version + `_` + the entity name: that prefix followed by exactly the entity name |
| Naming.SynthesizedNames | RealmIncrementalStore/NSEntityDescription+RealmIncrementalStore.swift:362-427 | A property's ivar is `_` + name, its getter is the name, and its setter is `set` + the capitalised name + `:`, four characters longer than the name |
| Naming.ReservedNamesFollowConvention | RealmIncrementalStore/RLMObject+RealmIncrementalStore.swift:35-41 | The reserved ivar, getter and setter names follow the same naming rule as synthesised properties, without capitalisation |
| Naming.ReservedSelectorsDistinct | RealmIncrementalStore/NSEntityDescription+RealmIncrementalStore.swift:308-360 | The four selectors added for the reserved properties are pairwise distinct, so adding them cannot collide with one another |
| EntitySchema.PropertyTypeFor | RealmIncrementalStore/NSEntityDescription+RealmIncrementalStore.swift:93-153 | An attribute type has a storage type exactly when it is supported (everything except transformable, object-ID and undefined) |
| EntitySchema.ConverterFor | RealmIncrementalStore/NSEntityDescription+RealmIncrementalStore.swift:109-131 | Only dates and decimals get converters: date to double, decimal to string |
| EntitySchema.ConvertForSetter | RealmIncrementalStore/NSEntityDescription+RealmIncrementalStore.swift:109-131 | The setter converter yields a value exactly for a date (its seconds since 1970) or a decimal (its description), and nil otherwise |
| EntitySchema.ConvertForGetter | RealmIncrementalStore/NSEntityDescription+RealmIncrementalStore.swift:109-131 | The date getter yields a date exactly when the column holds a number, and the decimal getter a decimal exactly when it holds a string; anything else reads as nil |
| EntitySchema.ConverterRoundTrip | RealmIncrementalStore/NSEntityDescription+RealmIncrementalStore.swift:109-131 | A value of an attribute's type, stored through its setter converter, fits the column's storage type and loads back unchanged through the getter converter |
| EntitySchema.ResourceIDPropertyDescriptor | RealmIncrementalStore/NSEntityDescription+RealmIncrementalStore.swift:230-242 | The primary-key property is an indexed, non-optional, primary string |
| EntitySchema.VersionPropertyDescriptor | RealmIncrementalStore/NSEntityDescription+RealmIncrementalStore.swift:243-256 | The version property is a non-indexed, non-optional, non-primary integer |
| EntitySchema.AttributeProperty | RealmIncrementalStore/NSEntityDescription+RealmIncrementalStore.swift:186-200 | An attribute's property has the attribute's name, mapped type and index flag, is optional and not a link, and uses the synthesised getter and setter |
| EntitySchema.AttributeAccessorsEntry | RealmIncrementalStore/NSEntityDescription+RealmIncrementalStore.swift:155-160 | Each attribute (with distinct names) is served by the accessor synthesised for it, with its own converter |
| EntitySchema.AttributeAccessors | RealmIncrementalStore/NSEntityDescription+RealmIncrementalStore.swift:155-160 | The synthesised accessors are keyed by exactly the attribute names |
| EntitySchema.AccessorAt | RealmIncrementalStore/NSEntityDescription+RealmIncrementalStore.swift:155-160 | With distinct, unreserved attribute names, the class's accessor for an attribute carries that attribute type's converter |
| EntitySchema.DefaultValuesTable | RealmIncrementalStore/NSEntityDescription+RealmIncrementalStore.swift:84-184 | The default table holds version 0; it holds an attribute's default exactly when it has one, after the setter converter (dropped when that yields nil); it holds nothing else |
| EntitySchema.DefaultValues | RealmIncrementalStore/NSEntityDescription+RealmIncrementalStore.swift:174-184 | The table holds version 0 unless an attribute takes that name, and every other key names an attribute |
| EntitySchema.AddDefaults | RealmIncrementalStore/NSEntityDescription+RealmIncrementalStore.swift:174-184 | Adding the attributes' defaults in order adds or removes only keys that name an attribute |
| EntitySchema.AddSelectorsSucceeds | RealmIncrementalStore/NSEntityDescription+RealmIncrementalStore.swift:280-306 | Adding methods succeeds exactly when the names are distinct and none is already on the class, and then adds exactly those names |
| EntitySchema.AddSelectors | RealmIncrementalStore/NSEntityDescription+RealmIncrementalStore.swift:280-306 | A failure is a trap on a duplicate selector that is one of the names being added; on success the class keeps its selectors and has every added name |
| EntitySchema.SynthesizeAttributesSucceeds | RealmIncrementalStore/NSEntityDescription+RealmIncrementalStore.swift:87-160 | Synthesising the attribute accessors succeeds exactly when every attribute type is supported and the getters and setters are distinct and new |
| EntitySchema.SynthesizeAttributes | RealmIncrementalStore/NSEntityDescription+RealmIncrementalStore.swift:84-172 | Synthesis succeeds only when every attribute type is supported, keeps the selectors already present, and fails only by a trap |
| EntitySchema.BuildBackingTypeSucceeds | RealmIncrementalStore/NSEntityDescription+RealmIncrementalStore.swift:79-262 | Building a backing type succeeds exactly when every attribute type is supported and all synthesised selectors, the reserved ones included, are distinct |
| EntitySchema.BuildBackingType | RealmIncrementalStore/NSEntityDescription+RealmIncrementalStore.swift:79-262 | A built backing type implies supported attribute types, and every failure stops the process |
| EntitySchema.BackingTypeLayout | RealmIncrementalStore/NSEntityDescription+RealmIncrementalStore.swift:186-262 | The class and schema share the entity's class name and are keyed by `_RIS_PK`. The properties are the primary key, the version, then one optional non-link property per attribute in order; getters equal names. The class carries the default table and one accessor per property. Attribute names are distinct and not reserved |
| EntitySchema.BuiltAccessorConverters | RealmIncrementalStore/NSEntityDescription+RealmIncrementalStore.swift:87-160 | In a built class each attribute's accessor has its type's converter and the reserved accessors have none |
| EntitySchema.Publish | RealmIncrementalStore/NSEntityDescription+RealmIncrementalStore.swift:268-271 | Publishing records the backing class and schema under their userInfo keys, keeps every other userInfo entry and leaves the entity otherwise unchanged |
| EntitySchema.LoadRealmBackingTypeIfNeeded | RealmIncrementalStore/NSEntityDescription+RealmIncrementalStore.swift:60-274 | A cached version hash returns the cached type and leaves the cache alone. Otherwise loading succeeds exactly when the class name is free and the build succeeds, and the new type is cached under the hash. The entity is published with the result, and failures stop the process |
| EntitySchema.LoadKeepsCacheConsistent | RealmIncrementalStore/NSEntityDescription+RealmIncrementalStore.swift:69-266 | Loading keeps every cached type registered under its class name and never drops or changes an entry |
| EntitySchema.LoadTwice | RealmIncrementalStore/NSEntityDescription+RealmIncrementalStore.swift:72-77 | A second load from the cache the first left returns the same backing type and changes nothing |
| EntitySchema.RealmBackingClass | RealmIncrementalStore/NSEntityDescription+RealmIncrementalStore.swift:40-48 | Without a class in userInfo, a cached hash gives the cached class without changing the cache, and an uncached one gives the built class |
| EntitySchema.RealmObjectSchema | RealmIncrementalStore/NSEntityDescription+RealmIncrementalStore.swift:50-58 | Without a schema in userInfo, a cached hash gives the cached schema without changing the cache, and an uncached one gives the built schema |
| EntitySchema.AccessorsAfterLoad | RealmIncrementalStore/NSEntityDescription+RealmIncrementalStore.swift:40-58 | After a load, both accessors on the published entity return the loaded class and schema from userInfo with any cache |
| BackingObject.CreateBackingObject | RealmIncrementalStore/RLMObject+RealmIncrementalStore.swift:48-56 | A new record has the reference as its resource ID and the class default in every other column |
| BackingObject.ObjectVersion | RealmIncrementalStore/RLMObject+RealmIncrementalStore.swift:63-68 | An unset or non-numeric version reads as 0; a stored version in the unsigned 64-bit range reads back as itself, and any other stored integer wraps modulo 2^64 |
| BackingObject.SetObjectVersion | RealmIncrementalStore/RLMObject+RealmIncrementalStore.swift:69-72 | A version written reads back unchanged and no other column changes |
| BackingObject.WriteThenRead | RealmIncrementalStore/NSEntityDescription+RealmIncrementalStore.swift:366-425 | A nil or well-typed value written through an attribute's setter reads back unchanged through its getter |
| BackingObject.WriteColumn | RealmIncrementalStore/NSEntityDescription+RealmIncrementalStore.swift:398-424 | Writing through a setter stores the converter's form of the value (removing the column when that is nil) and leaves every other column alone |
| BackingObject.ReadColumn | RealmIncrementalStore/NSEntityDescription+RealmIncrementalStore.swift:366-396 | Reading through a getter gives nil for an unset column, and the stored value itself when the accessor has no converter |
| BackingObject.SetValuesFromManagedObject | RealmIncrementalStore/RLMObject+RealmIncrementalStore.swift:75-108 | Copying values fails only by the version overflowing |
| BackingObject.CopyAttributesFrame | RealmIncrementalStore/RLMObject+RealmIncrementalStore.swift:78-84 | Copying the attributes leaves every reserved column and every column no attribute names unchanged |
| BackingObject.CopyAttributesEntry | RealmIncrementalStore/RLMObject+RealmIncrementalStore.swift:78-84 | After the copy, a non-reserved attribute's column holds the object's value as that attribute's setter stores it |
| BackingObject.SetValuesEffect | RealmIncrementalStore/RLMObject+RealmIncrementalStore.swift:75-108 | Copying succeeds exactly when the version is below 2^64-1 and adds one to it. It keeps the resource ID, stores each non-reserved attribute through its setter and clears each empty to-one relationship. No other column changes |
| Expressions.RealmExpression | RealmIncrementalStore/NSExpression+RealmIncrementalStore.swift:35-83 | Only constants change. A single object ID or managed object becomes its record when the lookup finds one and stays otherwise. A set or array of them becomes an array of the same length whose i-th element is the i-th element's record when the lookup finds one, and the element itself when it does not |
| Expressions.ResolveElement | RealmIncrementalStore/NSExpression+RealmIncrementalStore.swift:49-74 | An object ID or managed object element becomes its record when the lookup finds one and stays otherwise; any other value stays |
| Expressions.RealmExpressionIdempotent | RealmIncrementalStore/NSExpression+RealmIncrementalStore.swift:35-83 | Rewriting a rewritten expression with the same lookup changes nothing |
| Predicates.RealmPredicate | RealmIncrementalStore/NSPredicate+RealmIncrementalStore.swift:15-40 | Compound predicates keep their type and number of children. Comparisons other than custom-selector ones keep modifier, operator and options and have both sides rewritten. Everything else is returned as is |
| Predicates.RealmPredicateKeepsShape | RealmIncrementalStore/NSPredicate+RealmIncrementalStore.swift:15-40 | Rewriting keeps the shape of the whole predicate tree, and each child is rewritten one for one in order |
| Predicates.RealmPredicateIdempotent | RealmIncrementalStore/NSPredicate+RealmIncrementalStore.swift:15-40 | Rewriting a rewritten predicate with the same lookup changes nothing |
| StoreMetadata.VersionHashesByName | RealmIncrementalStore/RealmIncrementalStore.swift:96 | The version-hash table has an entry for every entity, and each entry is some entity's hash under its name |
| StoreMetadata.CreateBackingClasses | RealmIncrementalStore/RealmIncrementalStore.swift:237-245 | Loading the model's backing types in order yields one object schema per entity, the one cached under that entity's version hash afterwards; every earlier cache entry is kept unchanged; the first trap stops the process |
| StoreMetadata.CreateBackingClassesNewEntries | RealmIncrementalStore/RealmIncrementalStore.swift:237-245 | Every cache entry gained while the backing types are created is the backing type built for an entity of the model with that version hash |
| StoreMetadata.CreateBackingClassesBuilds | RealmIncrementalStore/RealmIncrementalStore.swift:237-245 | For entities with distinct, uncached version hashes, each returned schema is the object schema built for that entity |
| StoreMetadata.CreateBackingClassesFromCache | RealmIncrementalStore/RealmIncrementalStore.swift:237-245 | With every hash cached, creating the backing types succeeds and leaves the cache unchanged |
| StoreMetadata.LoadMetadata | RealmIncrementalStore/RealmIncrementalStore.swift:55-126 | Errors come in order: InvalidState, PersistentStoreURLMissing, PersistentStoreURLInvalid. An existing record's identifier and hashes are reported and the file is untouched. A malformed blob is PropertyListReadError and another property list is PersistentStoreCorrupted. A new store writes a record with the new identifier and the model's hashes, and changes nothing else. The schema cache returned is the one the backing classes were created with, and a trap while creating them is the result |
| StoreMetadata.ReloadKeepsIdentity | RealmIncrementalStore/RealmIncrementalStore.swift:84-116 | A later load of a store just created reports the same identifier and version hashes, whatever identifier it is offered |
| StoreModel.LoadedEntityResolves | RealmIncrementalStore/NSEntityDescription+RealmIncrementalStore.swift:40-58 | An entity whose backing type was just built resolves to that type in any store of the same SDK version |
| StoreModel.ResolvesKept | RealmIncrementalStore/RealmIncrementalStore.swift:316-345 | An entity that resolves keeps resolving while the schema cache only gains entries |
| StoreRequests.RealmSortDescriptors | RealmIncrementalStore/RealmIncrementalStore.swift:256-263 | Sort descriptors translate one for one, in order, with their key and direction. A descriptor without a key stops the process |
| StoreRequests.RequestSorts | RealmIncrementalStore/RealmIncrementalStore.swift:256-263 | A request without sort descriptors sorts nothing; with them, the engine gets their translation, or the process stops on a descriptor without a key |
| StoreRequests.FetchKeys | RealmIncrementalStore/RealmIncrementalStore.swift:285-298 | The fetched keys are exactly the names of the key-path and property-description entries |
| StoreRequests.ExecuteFetchRequest | RealmIncrementalStore/RealmIncrementalStore.swift:247-309 | A fetch without an entity stops the process, and an unknown result type never succeeds. Every failure stops the process; nothing is thrown. A fetch changes nothing in the store file, and without a context managed objects come back as an empty list |
| StoreRequests.FetchResultTypesAgree | RealmIncrementalStore/RealmIncrementalStore.swift:265-305 | Managed objects in a context, object IDs and dictionaries list the same records in the same order, and the count is their number |
| StoreRequests.FetchFindsExactlyTheMatches | RealmIncrementalStore/RealmIncrementalStore.swift:247-280 | With an engine that lists each record once, the object IDs are distinct permanent IDs of exactly the records satisfying the rewritten predicate, in the engine's order for the request's translated sort descriptors, and the count is their number |
| StoreRequests.FetchFollowsSortDescriptors | RealmIncrementalStore/RealmIncrementalStore.swift:256-263 | A fetch with sort descriptors lists its records in the engine's order for those descriptors translated one for one; without descriptors it uses the engine's natural order |
| StoreRequests.FetchDictionaries | RealmIncrementalStore/RealmIncrementalStore.swift:282-301 | Each dictionary row has exactly the fetched keys, each read through its getter from the record of the same position, with nil as null |
| StoreRequests.Row | RealmIncrementalStore/RealmIncrementalStore.swift:286-288 | A dictionary row has exactly the fetched keys, and a key whose column is unset maps to null |
| StoreRequests.InsertObject | RealmIncrementalStore/RealmIncrementalStore.swift:316-325 | An insert creates the record under the object's key and touches no other key. A key already in use stops the process |
| StoreRequests.UpdateObject | RealmIncrementalStore/RealmIncrementalStore.swift:327-335 | An update touches only the object's key and never creates a record. A missing target leaves the store file unchanged |
| StoreRequests.DeleteObject | RealmIncrementalStore/RealmIncrementalStore.swift:337-345 | A delete leaves no record under the object's key and touches no other key |
| StoreRequests.ApplyAll | RealmIncrementalStore/RealmIncrementalStore.swift:316-345 | Applying one kind of change to each object in order fails only by a trap, keeps the SDK version and metadata, and only adds entries to the schema cache |
| StoreRequests.ExecuteSaveRequest | RealmIncrementalStore/RealmIncrementalStore.swift:311-350 | A save returns an empty array, keeps the metadata records, and fails only by stopping the process |
| StoreRequests.ApplyAllFrame | RealmIncrementalStore/RealmIncrementalStore.swift:316-345 | Applying a list of changes leaves every record that no object in the list targets unchanged |
| StoreRequests.ApplyAllDeletes | RealmIncrementalStore/RealmIncrementalStore.swift:337-345 | After the deletions no deleted object's record remains |
| StoreRequests.SaveEffect | RealmIncrementalStore/RealmIncrementalStore.swift:311-350 | After a save every deleted object's record is gone, and every record no inserted, updated or deleted object targets is unchanged |
| StoreRequests.NewRecordVersion | RealmIncrementalStore/RLMObject+RealmIncrementalStore.swift:48-108 | A new record of a built class starts at version 0, so its first save gives version 1 with its resource ID kept |
| StoreRequests.BuiltClassStoresAttributes | RealmIncrementalStore/RLMObject+RealmIncrementalStore.swift:75-84 | Copying values into a record of the entity's built class stores every attribute through its type's converter |
| StoreRequests.InsertEffect | RealmIncrementalStore/RealmIncrementalStore.swift:316-325 | Inserting an object under a new key succeeds. The record has version 1, the object's reference as resource ID and each attribute as its setter stores it. The cache is unchanged |
| StoreRequests.UpdateEffect | RealmIncrementalStore/RealmIncrementalStore.swift:327-335 | Updating a stored record succeeds exactly when its version is below the maximum. It adds one to the version, keeps the resource ID and stores each attribute |
| StoreRequests.InsertionsKeepRecords | RealmIncrementalStore/RealmIncrementalStore.swift:316-325 | The insert pass never replaces a stored record |
| StoreRequests.UpdatesKeepPresence | RealmIncrementalStore/RealmIncrementalStore.swift:327-335 | The update pass neither creates nor removes a record |
| StoreRequests.ApplyAllInsertsPresent | RealmIncrementalStore/RealmIncrementalStore.swift:316-325 | After the insert pass every inserted object has a record |
| StoreRequests.ApplyAllInsertsRecord | RealmIncrementalStore/RealmIncrementalStore.swift:316-325 | After the insert pass an object of a resolved entity has the record its own insert created: version 1, its reference, its attribute values |
| StoreRequests.ApplyAllUpdates | RealmIncrementalStore/RealmIncrementalStore.swift:327-335 | After the update pass a resolved object updated once has its record with the version one higher, the same resource ID and its attribute values |
| StoreRequests.SaveInserts | RealmIncrementalStore/RealmIncrementalStore.swift:311-350 | After a save every inserted object that no deletion targets has a record; for a resolved entity not also updated it is the record its insert created, with version 1 |
| StoreRequests.SaveUpdates | RealmIncrementalStore/RealmIncrementalStore.swift:311-350 | After a save the record of each resolved object updated once, and not inserted or deleted, has its version one higher, the same resource ID and its attribute values |
| StoreRequests.ExecuteRequest | RealmIncrementalStore/RealmIncrementalStore.swift:128-147 | A fetch of fetch type is answered by the fetch handler and a save of save type by the save handler; exactly the other requests throw StoreRequestUnsupported, and no other error is thrown |
| StoreObjects.NewValuesForObjectWithID | RealmIncrementalStore/RealmIncrementalStore.swift:149-172 | An object with no record is ObjectNotFound and nothing else is thrown. Otherwise the node has the object's ID and the record's version, and the file is unchanged |
| StoreObjects.BuiltNodeValues | RealmIncrementalStore/RealmIncrementalStore.swift:161-165 | A stored property is in the node exactly when its column is set, with the value its getter reads, and the node has no key other than the reserved properties and the entity's attributes |
| StoreObjects.NodeValues | RealmIncrementalStore/RealmIncrementalStore.swift:160-165 | The node has an entry for every set non-link property, under its getter name, and every entry comes from such a property |
| StoreObjects.InsertThenNewValues | RealmIncrementalStore/RealmIncrementalStore.swift:149-172 | Reading back a newly saved object gives version 1 and the reserved values. Each set attribute has its own value and each unset one is absent |
| StoreObjects.NewValueForRelationship | RealmIncrementalStore/RealmIncrementalStore.swift:174-206 | With no record or no destination the result is null. A to-one result is one permanent ID and a to-many result is a list of them, all in the destination entity |
| StoreObjects.RelationshipTargets | RealmIncrementalStore/RealmIncrementalStore.swift:174-206 | A link list reads back in order as IDs with the linked resource IDs, and a single link reads back as its ID. The result is null exactly when the column holds no link of the relationship's kind |
| StoreObjects.ClearedRelationshipReadsNull | RealmIncrementalStore/RLMObject+RealmIncrementalStore.swift:87-105 | After saving an object whose to-one relationship is nil, that relationship reads back as null |
| StoreObjects.ObtainPermanentIDs | RealmIncrementalStore/RealmIncrementalStore.swift:208-220 | One permanent ID per object, in order. Permanent IDs are kept, and temporary ones are replaced by an ID of the object's entity with the fresh reference |
| StoreObjects.ObtainPermanentIDsStable | RealmIncrementalStore/RealmIncrementalStore.swift:208-220 | Once the objects carry their permanent IDs, asking again returns the same IDs |
| StoreObjects.ObtainPermanentIDsDistinct | RealmIncrementalStore/RealmIncrementalStore.swift:208-220 | Distinct IDs stay distinct when the fresh references are distinct and unused |

## Left out

- The Objective-C runtime work itself is not modelled: allocating and registering classes, adding properties, and method implementations as blocks. The model keeps what it decides: the class name, the selectors added (and the failure when one exists), the accessors with their converters, and the default table.
- The barrier dispatch queue that guards the schema cache is left out; the cache is threaded through the operations as a value.
- The storage engine is not modelled: predicate evaluation, ordering, validation of column types and names, write-transaction commit failures, and opening the file. Evaluation and ordering are an `Engine` parameter. `SoundEngine` states the one property the fetch lemmas assume.
- The engine rejects a subscript with a name its schema lacks. This is not modelled, so relationship columns are read and cleared as if they existed.
- UUID generation and `currentSDKVersion` are parameters (`newIdentifier`, `freshReference`, `sdkVersion`). `objectID.realmObject()` is the `Lookup` parameter. Their code is not part of this model.
- Dates, floats, doubles and decimals are carried as exact values (`real`, or a decimal's description). Rounding, and locale-dependent decimal parsing and printing, are left out.
- Naming.Capitalized: approximates `capitalizedString` for ASCII letters only (first letter upper case, the rest lower case). It does not model Unicode case mapping or word boundaries inside a name.
- StoreMetadata.CreateBackingClasses: `loadObjectSchemas()`, called at RealmIncrementalStore/RealmIncrementalStore.swift:240, is not part of this model. It is taken to load each entity's object schema through `loadRealmBackingTypeIfNeeded`, in the model's entity order, with the first trap stopping the process.
- StoreRequests.ExecuteFetchRequest: a record's resource ID is its key in the table. The forced cast of the primary-key column to a string is not modelled separately.
- StoreObjects.NewValuesForObjectWithID, StoreRequests.FetchDictionaries, BackingObject.SetValuesFromManagedObject: property values are read and written through the synthesised getters and setters with their converters. The engine's own managed accessors are not modelled.
- The `objectIDCache`, the demo application, `NSManagedObject+RealmIncrementalStore.swift`, the metadata class declaration and the error enumeration are not modelled beyond their constants and cases.
- The write transaction left open after a thrown error is not modelled: a failed save discards all of its changes.
