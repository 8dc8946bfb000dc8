/**
 * Rewriting of query expressions for the store: a constant that denotes an object of the graph
 * (an object ID, a managed object, or a set or array of either) is replaced by the store's
 * record for it, so the store can compare records.
 */
module Expressions {
  import opened Wrappers
  import opened Values

  /** A query expression: a constant, a key path, or any other kind the rewriter does not look into. */
  datatype Expression =
    | ConstantValue(value: Value)
    | KeyPath(keyPath: string)
    | OtherExpression(description: string)

  predicate AllObjectIDs(elements: seq<Value>) {
    forall i :: 0 <= i < |elements| ==> elements[i].ObjectIDValue?
  }

  predicate AllManagedObjects(elements: seq<Value>) {
    forall i :: 0 <= i < |elements| ==> elements[i].ManagedObjectValue?
  }

  /** A collection constant the rewriter maps element-wise: every element an object ID, or every element a managed object. */
  predicate IsReferenceCollection(elements: seq<Value>) {
    AllObjectIDs(elements) || AllManagedObjects(elements)
  }

  /** The constants the rewriter looks at; every other constant passes through. */
  predicate IsReferenceConstant(v: Value) {
    || v.ObjectIDValue?
    || v.ManagedObjectValue?
    || (v.SetValue? && IsReferenceCollection(v.elements))
    || (v.ArrayValue? && IsReferenceCollection(v.elements))
  }

  /** One element of a reference collection: its record when the lookup finds one, else the element itself. */
  function ResolveElement(x: Value, lookup: Lookup): (r: Value)
    ensures (x.ObjectIDValue? || x.ManagedObjectValue?) ==>
              r == (match lookup(x.id)
                    case Some(key) => RecordValue(key)
                    case None => x)
    ensures !(x.ObjectIDValue? || x.ManagedObjectValue?) ==> r == x
  {
    match x
    case ObjectIDValue(id) => if lookup(id).Some? then RecordValue(lookup(id).value) else x
    case ManagedObjectValue(id) => if lookup(id).Some? then RecordValue(lookup(id).value) else x
    case _ => x
  }

  function ResolveAll(elements: seq<Value>, lookup: Lookup): (r: seq<Value>)
    ensures |r| == |elements|
    ensures forall i :: 0 <= i < |r| ==> r[i] == ResolveElement(elements[i], lookup)
  {
    seq(|elements|, i requires 0 <= i < |elements| => ResolveElement(elements[i], lookup))
  }

  /** The store-side constant for a reference constant, or None when the expression stays as it is. */
  function RewriteConstant(v: Value, lookup: Lookup): Option<Value> {
    match v
    case ObjectIDValue(id) => if lookup(id).Some? then Some(RecordValue(lookup(id).value)) else None
    case ManagedObjectValue(id) => if lookup(id).Some? then Some(RecordValue(lookup(id).value)) else None
    case SetValue(elements) => if IsReferenceCollection(elements) then Some(ArrayValue(ResolveAll(elements, lookup))) else None
    case ArrayValue(elements) => if IsReferenceCollection(elements) then Some(ArrayValue(ResolveAll(elements, lookup))) else None
    case _ => None
  }

  /**
   * `realmExpression`. Only constants change: a single object ID or managed object becomes its
   * record when the lookup finds one; a set or array of object IDs, or of managed objects, becomes
   * an array of the same length whose every element is that element's record when the lookup finds
   * one and the element itself otherwise.
   */
  function RealmExpression(e: Expression, lookup: Lookup): (r: Expression)
    ensures !e.ConstantValue? ==> r == e
    ensures e.ConstantValue? && !IsReferenceConstant(e.value) ==> r == e
    ensures e.ConstantValue? && (e.value.ObjectIDValue? || e.value.ManagedObjectValue?) ==>
              r == (match lookup(e.value.id)
                    case Some(key) => ConstantValue(RecordValue(key))
                    case None => e)
    ensures e.ConstantValue? && (e.value.SetValue? || e.value.ArrayValue?) && IsReferenceCollection(e.value.elements) ==>
              && r.ConstantValue? && r.value.ArrayValue?
              && |r.value.elements| == |e.value.elements|
              && forall i :: 0 <= i < |r.value.elements| ==>
                   r.value.elements[i] == (match lookup(e.value.elements[i].id)
                                           case Some(key) => RecordValue(key)
                                           case None => e.value.elements[i])
  {
    match e
    case ConstantValue(v) =>
      (match RewriteConstant(v, lookup)
       case Some(v') => ConstantValue(v')
       case None => e)
    case _ => e
  }

  /** The element-wise rewrite of a reference collection does nothing a second time. */
  lemma ResolveAllIdempotent(elements: seq<Value>, lookup: Lookup)
    requires IsReferenceCollection(elements)
    ensures var once := ResolveAll(elements, lookup);
            IsReferenceCollection(once) ==> ResolveAll(once, lookup) == once
  {
    var once := ResolveAll(elements, lookup);
    if IsReferenceCollection(once) {
      forall i | 0 <= i < |once| ensures ResolveElement(once[i], lookup) == once[i] {
        assert once[i] == ResolveElement(elements[i], lookup);
        assert once[i] == elements[i];
      }
    }
  }

  /**
   * With a fixed lookup, rewriting a rewritten expression changes nothing: record constants and
   * arrays holding a record are not reference constants, and a collection whose lookups all failed
   * rewrites to itself.
   */
  lemma RealmExpressionIdempotent(e: Expression, lookup: Lookup)
    ensures RealmExpression(RealmExpression(e, lookup), lookup) == RealmExpression(e, lookup)
  {
    if e.ConstantValue? && (e.value.SetValue? || e.value.ArrayValue?) && IsReferenceCollection(e.value.elements) {
      ResolveAllIdempotent(e.value.elements, lookup);
    }
  }
}
