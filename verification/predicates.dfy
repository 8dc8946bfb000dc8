/**
 * Rewriting of query predicates for the store: a structural recursion that rewrites the
 * operands of every comparison and keeps everything else about the predicate tree.
 */
module Predicates {
  import opened Wrappers
  import opened Values
  import opened Expressions

  datatype CompoundType = NotPredicateType | AndPredicateType | OrPredicateType

  datatype ComparisonModifier = DirectPredicateModifier | AllPredicateModifier | AnyPredicateModifier

  datatype OperatorType =
    | LessThanPredicateOperatorType
    | LessThanOrEqualToPredicateOperatorType
    | GreaterThanPredicateOperatorType
    | GreaterThanOrEqualToPredicateOperatorType
    | EqualToPredicateOperatorType
    | NotEqualToPredicateOperatorType
    | MatchesPredicateOperatorType
    | LikePredicateOperatorType
    | BeginsWithPredicateOperatorType
    | EndsWithPredicateOperatorType
    | InPredicateOperatorType
    | CustomSelectorPredicateOperatorType(selector: string)
    | ContainsPredicateOperatorType
    | BetweenPredicateOperatorType

  datatype ComparisonOption = CaseInsensitivePredicateOption | DiacriticInsensitivePredicateOption | NormalizedPredicateOption

  /** A query predicate: compound, comparison, or any other kind (constant truth values, blocks, ...). */
  datatype Predicate =
    | Compound(compoundType: CompoundType, subpredicates: seq<Predicate>)
    | Comparison(left: Expression, right: Expression, modifier: ComparisonModifier,
                 operatorType: OperatorType, options: set<ComparisonOption>)
    | OtherPredicate(description: string)

  /** `realmPredicate`. */
  function RealmPredicate(p: Predicate, lookup: Lookup): (r: Predicate)
    ensures p.OtherPredicate? ==> r == p
    ensures p.Comparison? && p.operatorType.CustomSelectorPredicateOperatorType? ==> r == p
    ensures p.Comparison? && !p.operatorType.CustomSelectorPredicateOperatorType? ==>
              r == Comparison(RealmExpression(p.left, lookup), RealmExpression(p.right, lookup),
                              p.modifier, p.operatorType, p.options)
    ensures p.Compound? ==> r.Compound? && r.compoundType == p.compoundType && |r.subpredicates| == |p.subpredicates|
    decreases p
  {
    match p
    case Compound(t, subs) =>
      Compound(t, seq(|subs|, i requires 0 <= i < |subs| => RealmPredicate(subs[i], lookup)))
    case Comparison(left, right, modifier, op, options) =>
      if op.CustomSelectorPredicateOperatorType? then p
      else Comparison(RealmExpression(left, lookup), RealmExpression(right, lookup), modifier, op, options)
    case OtherPredicate(_) => p
  }

  /**
   * Two predicates have the same shape when they have the same node kinds, compound types, child
   * counts, comparison modifiers, operators and options throughout, and equal leaves of other kinds.
   */
  predicate SameShape(p: Predicate, q: Predicate)
    decreases p
  {
    match p
    case Compound(t, subs) =>
      q.Compound? && q.compoundType == t && |q.subpredicates| == |subs| &&
      forall i :: 0 <= i < |subs| ==> SameShape(subs[i], q.subpredicates[i])
    case Comparison(_, _, modifier, op, options) =>
      q.Comparison? && q.modifier == modifier && q.operatorType == op && q.options == options
    case OtherPredicate(_) => q == p
  }

  /** Rewriting keeps the shape of the predicate tree, and each subpredicate is rewritten one for one in order. */
  lemma {:induction false} RealmPredicateKeepsShape(p: Predicate, lookup: Lookup)
    ensures SameShape(p, RealmPredicate(p, lookup))
    ensures p.Compound? ==> forall i :: 0 <= i < |p.subpredicates| ==>
              RealmPredicate(p, lookup).subpredicates[i] == RealmPredicate(p.subpredicates[i], lookup)
    decreases p
  {
    match p
    case Compound(t, subs) =>
      forall i | 0 <= i < |subs| ensures SameShape(subs[i], RealmPredicate(p, lookup).subpredicates[i]) {
        RealmPredicateKeepsShape(subs[i], lookup);
      }
    case Comparison(_, _, _, _, _) =>
    case OtherPredicate(_) =>
  }

  /** With a fixed lookup, rewriting a rewritten predicate changes nothing. */
  lemma {:induction false} RealmPredicateIdempotent(p: Predicate, lookup: Lookup)
    ensures RealmPredicate(RealmPredicate(p, lookup), lookup) == RealmPredicate(p, lookup)
    decreases p
  {
    match p
    case Compound(t, subs) =>
      var once := RealmPredicate(p, lookup);
      var twice := RealmPredicate(once, lookup);
      forall i | 0 <= i < |subs| ensures twice.subpredicates[i] == once.subpredicates[i] {
        RealmPredicateIdempotent(subs[i], lookup);
      }
      assert twice.subpredicates == once.subpredicates;
    case Comparison(left, right, _, op, _) =>
      if !op.CustomSelectorPredicateOperatorType? {
        RealmExpressionIdempotent(left, lookup);
        RealmExpressionIdempotent(right, lookup);
      }
    case OtherPredicate(_) =>
  }
}
