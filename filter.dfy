/** The generic filter: one forward pass over the items, keeping those a
    specification accepts, in their input order. */
module Filters {
  import opened Specifications

  /** The items of `items` that `spec` accepts, in input order: the value the
      filter's loop builds, defined over the prefix it has scanned. */
  function Filtered<T>(items: seq<T>, spec: Specification<T>): (r: seq<T>)
    ensures |r| <= |items|
  {
    if items == [] then []
    else
      var rest := Filtered(items[..|items| - 1], spec);
      var last := items[|items| - 1];
      if IsSatisfied(spec, last) then rest + [last] else rest
  }

  /** Applies `spec` to each item in turn and appends each accepted item to a
      fresh output sequence; the input is not changed. */
  method Filter<T>(items: seq<T>, spec: Specification<T>) returns (output: seq<T>)
    ensures output == Filtered(items, spec)
  {
    output := [];
    for k := 0 to |items|
      invariant output == Filtered(items[..k], spec)
    {
      assert items[..k + 1][..k] == items[..k];
      if IsSatisfied(spec, items[k]) {
        output := output + [items[k]];
      }
    }
    assert items[..|items|] == items;
  }

  /** `idx` lists positions of `items`, strictly increasing, and `out` is the
      sequence of the items at those positions. */
  ghost predicate SelectedAt<T>(out: seq<T>, items: seq<T>, idx: seq<int>)
  {
    && |idx| == |out|
    && (forall j :: 0 <= j < |idx| ==> 0 <= idx[j] < |items| && out[j] == items[idx[j]])
    && (forall j, l :: 0 <= j < l < |idx| ==> idx[j] < idx[l])
  }

  /** The output is an order-preserving subsequence of the input, taken at
      exactly the positions whose item the specification accepts. */
  lemma {:induction false} FilteredSelectsAccepted<T>(items: seq<T>, spec: Specification<T>)
    returns (idx: seq<int>)
    ensures SelectedAt(Filtered(items, spec), items, idx)
    ensures forall k :: 0 <= k < |items| ==> (k in idx <==> IsSatisfied(spec, items[k]))
  {
    if items == [] {
      idx := [];
    } else {
      var n := |items| - 1;
      var front := items[..n];
      var prev := FilteredSelectsAccepted(front, spec);
      assert forall k :: 0 <= k < n ==> front[k] == items[k];
      if IsSatisfied(spec, items[n]) {
        idx := prev + [n];
      } else {
        idx := prev;
      }
    }
  }

  /** An item is in the output exactly when it is in the input and accepted. */
  lemma {:induction false} FilteredMembership<T>(items: seq<T>, spec: Specification<T>, x: T)
    ensures x in Filtered(items, spec) <==> x in items && IsSatisfied(spec, x)
  {
    if items != [] {
      var n := |items| - 1;
      FilteredMembership(items[..n], spec, x);
      assert items == items[..n] + [items[n]];
    }
  }

  /** Filtering nothing gives nothing. */
  lemma FilteredEmpty<T>(spec: Specification<T>)
    ensures Filtered([], spec) == []
  {
  }

  /** A specification that rejects every item gives an empty output. */
  lemma {:induction false} FilteredRejectAll<T>(items: seq<T>, spec: Specification<T>)
    requires forall k :: 0 <= k < |items| ==> !IsSatisfied(spec, items[k])
    ensures Filtered(items, spec) == []
  {
    if items != [] {
      FilteredRejectAll(items[..|items| - 1], spec);
    }
  }

  /** A specification that accepts every item gives back the input unchanged. */
  lemma {:induction false} FilteredAcceptAll<T>(items: seq<T>, spec: Specification<T>)
    requires forall k :: 0 <= k < |items| ==> IsSatisfied(spec, items[k])
    ensures Filtered(items, spec) == items
  {
    if items != [] {
      var n := |items| - 1;
      FilteredAcceptAll(items[..n], spec);
      assert items == items[..n] + [items[n]];
    }
  }

  /** Every item of the output is accepted by the specification. */
  lemma {:induction false} FilteredAllAccepted<T>(items: seq<T>, spec: Specification<T>)
    ensures forall j :: 0 <= j < |Filtered(items, spec)| ==> IsSatisfied(spec, Filtered(items, spec)[j])
  {
    var idx := FilteredSelectsAccepted(items, spec);
    var out := Filtered(items, spec);
    forall j | 0 <= j < |out| ensures IsSatisfied(spec, out[j]) {
      assert idx[j] in idx;
    }
  }

  /** Filtering an output again with the same specification changes nothing. */
  lemma FilteredIdempotent<T>(items: seq<T>, spec: Specification<T>)
    ensures Filtered(Filtered(items, spec), spec) == Filtered(items, spec)
  {
    FilteredAllAccepted(items, spec);
    FilteredAcceptAll(Filtered(items, spec), spec);
  }

  /** Filtering with a conjunction is filtering with its first operand and
      then with its second. */
  lemma {:induction false} FilteredAnd<T>(items: seq<T>, a: Specification<T>, b: Specification<T>)
    ensures Filtered(items, AndSpecification(a, b)) == Filtered(Filtered(items, a), b)
  {
    if items != [] {
      var n := |items| - 1;
      FilteredAnd(items[..n], a, b);
      var fa := Filtered(items[..n], a);
      if IsSatisfied(a, items[n]) {
        assert (fa + [items[n]])[..|fa|] == fa;
      }
    }
  }

  /** Equivalent specifications select the same output. */
  lemma {:induction false} FilteredEquivalent<T(!new)>(items: seq<T>, a: Specification<T>, b: Specification<T>)
    requires Equivalent(a, b)
    ensures Filtered(items, a) == Filtered(items, b)
  {
    if items != [] {
      FilteredEquivalent(items[..|items| - 1], a, b);
      assert IsSatisfied(a, items[|items| - 1]) == IsSatisfied(b, items[|items| - 1]);
    }
  }

  /** The operand order of a conjunction does not change the filter's output. */
  lemma FilteredAndCommutative<T(!new)>(items: seq<T>, a: Specification<T>, b: Specification<T>)
    ensures Filtered(items, AndSpecification(a, b)) == Filtered(items, AndSpecification(b, a))
  {
    AndCommutative(a, b);
    FilteredEquivalent(items, AndSpecification(a, b), AndSpecification(b, a));
  }
}
