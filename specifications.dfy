/** Specifications: reusable predicates over an item type, one per attribute
    and a conjunction of two specifications over the same item type. */
module Specifications {
  import opened Attributes

  /** A specification judging items of type T. A colour (size) specification
      carries the capability through which it reads the item's colour (size)
      and the target it compares with; a conjunction carries its two
      operands, both over the same T. */
  datatype Specification<!T> =
    | ColorSpecification(colored: Colored<T>, color: Color)
    | SizeSpecification(sized: Sized<T>, size: Size)
    | AndSpecification(specA: Specification<T>, specB: Specification<T>)

  /** Whether `item` satisfies `spec`; the conjunction evaluates specA first. */
  predicate IsSatisfied<T>(spec: Specification<T>, item: T)
  {
    match spec
    case ColorSpecification(colored, color) => colored.color(item) == color
    case SizeSpecification(sized, size) => sized.size(item) == size
    case AndSpecification(specA, specB) => IsSatisfied(specA, item) && IsSatisfied(specB, item)
  }

  /** A colour specification accepts exactly the items of its target colour. */
  lemma ColorSpecificationSatisfied<T>(colored: Colored<T>, c: Color, item: T)
    ensures IsSatisfied(ColorSpecification(colored, c), item) <==> colored.color(item) == c
  {
  }

  /** A size specification accepts exactly the items of its target size. */
  lemma SizeSpecificationSatisfied<T>(sized: Sized<T>, s: Size, item: T)
    ensures IsSatisfied(SizeSpecification(sized, s), item) <==> sized.size(item) == s
  {
  }

  /** A conjunction accepts exactly the items both operands accept. */
  lemma AndSpecificationSatisfied<T>(a: Specification<T>, b: Specification<T>, item: T)
    ensures IsSatisfied(AndSpecification(a, b), item) <==> IsSatisfied(a, item) && IsSatisfied(b, item)
  {
  }

  /** Two specifications are equivalent when they accept the same items. */
  ghost predicate Equivalent<T(!new)>(a: Specification<T>, b: Specification<T>)
  {
    forall item :: IsSatisfied(a, item) == IsSatisfied(b, item)
  }

  /** The order of the operands of a conjunction does not change its verdict. */
  lemma AndCommutative<T(!new)>(a: Specification<T>, b: Specification<T>)
    ensures Equivalent(AndSpecification(a, b), AndSpecification(b, a))
  {
  }

  /** Nested conjunctions may be regrouped without changing their verdict. */
  lemma AndAssociative<T(!new)>(a: Specification<T>, b: Specification<T>, c: Specification<T>)
    ensures Equivalent(AndSpecification(AndSpecification(a, b), c), AndSpecification(a, AndSpecification(b, c)))
  {
  }

  /** A specification that is not a conjunction: a colour or size test. */
  predicate IsAttributeTest<T>(spec: Specification<T>)
  {
    !spec.AndSpecification?
  }

  /** The attribute tests of a specification, left to right, with the nesting
      of its conjunctions flattened away. */
  function Conjuncts<T>(spec: Specification<T>): (r: seq<Specification<T>>)
    ensures |r| > 0
    ensures forall k :: 0 <= k < |r| ==> IsAttributeTest(r[k])
  {
    match spec
    case AndSpecification(specA, specB) => Conjuncts(specA) + Conjuncts(specB)
    case _ => [spec]
  }

  /** Every attribute test of `tests` accepts `item`. */
  ghost predicate AllSatisfied<T>(tests: seq<Specification<T>>, item: T)
  {
    forall k :: 0 <= k < |tests| ==> IsSatisfied(tests[k], item)
  }

  /** A conjunction of any depth accepts an item exactly when each of its
      attribute tests does. */
  lemma {:induction false} SatisfiedIffAllConjuncts<T>(spec: Specification<T>, item: T)
    ensures IsSatisfied(spec, item) <==> AllSatisfied(Conjuncts(spec), item)
  {
    match spec
    case AndSpecification(specA, specB) =>
      SatisfiedIffAllConjuncts(specA, item);
      SatisfiedIffAllConjuncts(specB, item);
      var ca, cb := Conjuncts(specA), Conjuncts(specB);
      assert Conjuncts(spec) == ca + cb;
      assert AllSatisfied(ca + cb, item) <==> AllSatisfied(ca, item) && AllSatisfied(cb, item) by {
        forall k | 0 <= k < |ca| ensures (ca + cb)[k] == ca[k] { }
        forall k | 0 <= k < |cb| ensures (ca + cb)[|ca| + k] == cb[k] { }
      }
    case _ =>
      assert Conjuncts(spec) == [spec];
      assert Conjuncts(spec)[0] == spec;
  }
}
