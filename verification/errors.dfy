/** The ways an operation of the store can end without a result. */
module Errors {

  /**
   * The errors the store throws. The first five are the cases the library declares; ObjectNotFound
   * and StoreRequestUnsupported are thrown by the store as well although the declaration lacks them.
   */
  datatype StoreError =
    | InvalidState
    | PersistentStoreURLMissing
    | PersistentStoreURLInvalid
    | PersistentStoreCorrupted
    | InvalidDataTypeInDataModel
    | ObjectNotFound
    | StoreRequestUnsupported
    | PropertyListReadError   // rethrown from property-list deserialisation

  /** Why the process stops (`fatalError`, a failed forced unwrap, an arithmetic overflow). */
  datatype TrapReason =
    | UnsupportedAttributeType(attributeName: string)
    | DuplicateSelector(selector: string)
    | ClassNameTaken(className: string)
    | DuplicatePrimaryKey(resourceID: string)
    | VersionOverflow
    | UnsupportedResultType
    | MissingFetchEntity       // a fetch request without an entity
    | MissingSortKey           // a sort descriptor without a key
    | UndefinedKey(key: string)  // key-value coding asked for a key the record class lacks

  datatype Failure = Thrown(error: StoreError) | Trap(reason: TrapReason)
}
