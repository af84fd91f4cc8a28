# Specification pattern with a generic filter

This project models a small implementation of the Specification design
pattern in Dafny. Items carry attributes from two closed enumerations, `Size`
and `Color`. A *specification* is a reusable predicate over an item type:
"has colour c", "has size s", or the conjunction of two specifications over
the same item type. A generic *filter* scans a sequence of items once and
keeps, in order, the items a specification accepts. A fixed demonstration
filters three products with "red and small".

Modules follow the sections of `SpecificationPattern/main.swift`:

- `Attributes` (`attributes.dfy`) holds `Size`, `Color`, and the two
  capabilities. `Sized<T>` and `Colored<T>` are records holding the accessor
  through which a specification reads an item's size or colour. This stands
  in for the source's protocols: any item type can have one capability, both
  or neither. The module also holds the lower-case labels used in an item's
  rendering.
- `Products` (`product.dfy`) holds the `Product` record, its two capability
  witnesses, and its rendering "<size> <color> <name>". That rendering is
  proved unambiguous.
- `Specifications` (`specifications.dfy`) holds the datatype
  `Specification<T>` with the three variants of the source and `IsSatisfied`.
  A conjunction built from two operands of different item types does not
  type-check, just as in the source.
- `Filters` (`filter.dfy`) holds the method `Filter`. It is the source's loop
  with an output that grows by appending. It is proved equal to the reference
  function `Filtered`, and the filter's properties are lemmas about
  `Filtered`.
- `UseCase` (`use_case.dfy`) holds the demonstration data and its result.

## Model

| member | source | states |
|---|---|---|
| `Attributes.SizeLabel` | SpecificationPattern/main.swift:20-24 | the label of each size case is non-empty and contains no space |
| `Attributes.ColorLabel` | SpecificationPattern/main.swift:26-30 | the label of each colour case is non-empty and contains no space |
| `Attributes.LabelsInjective` | SpecificationPattern/main.swift:20-30 | distinct cases of `Size`, and of `Color`, have distinct labels |
| `Products.ProductCapabilities` | SpecificationPattern/main.swift:34-40 | a product's size and colour capabilities read exactly its `size` and `color` fields |
| `Products.DescriptionInjective` | SpecificationPattern/main.swift:42-46 | two products with the same "<size> <color> <name>" rendering are the same product |
| `Specifications.ColorSpecificationSatisfied` | SpecificationPattern/main.swift:56-63 | a colour specification accepts an item exactly when the item's colour equals the target |
| `Specifications.SizeSpecificationSatisfied` | SpecificationPattern/main.swift:65-72 | a size specification accepts an item exactly when the item's size equals the target |
| `Specifications.AndSpecificationSatisfied` | SpecificationPattern/main.swift:74-87 | a conjunction accepts an item exactly when both of its operands accept it |
| `Specifications.AndCommutative` | SpecificationPattern/main.swift:84-86 | swapping the operands of a conjunction gives an equivalent specification, one that accepts the same items |
| `Specifications.AndAssociative` | SpecificationPattern/main.swift:84-86 | regrouping nested conjunctions gives an equivalent specification |
| `Specifications.Conjuncts` | SpecificationPattern/main.swift:74-87 | flattening nested conjunctions yields a non-empty list in which every entry is a colour or size test |
| `Specifications.SatisfiedIffAllConjuncts` | SpecificationPattern/main.swift:84-86 | a conjunction of any depth accepts an item exactly when every one of its attribute tests accepts it |
| `Filters.Filtered` | SpecificationPattern/main.swift:100-109 | the filter's output is no longer than its input |
| `Filters.Filter` | SpecificationPattern/main.swift:100-109 | the loop's output equals `Filtered(items, spec)`, the accepted items in input order |
| `Filters.FilteredSelectsAccepted` | SpecificationPattern/main.swift:102-108 | the output is the input taken at strictly increasing positions, and those positions are exactly the ones whose item the specification accepts |
| `Filters.FilteredMembership` | SpecificationPattern/main.swift:103-107 | a value is in the output exactly when it is in the input and the specification accepts it |
| `Filters.FilteredAllAccepted` | SpecificationPattern/main.swift:104-105 | every element of the output is accepted by the specification |
| `Filters.FilteredEmpty` | SpecificationPattern/main.swift:102-108 | an empty input gives an empty output |
| `Filters.FilteredRejectAll` | SpecificationPattern/main.swift:102-108 | a specification that rejects every input item gives an empty output |
| `Filters.FilteredAcceptAll` | SpecificationPattern/main.swift:102-108 | a specification that accepts every input item gives back the input unchanged |
| `Filters.FilteredIdempotent` | SpecificationPattern/main.swift:100-109 | filtering the output again with the same specification returns it unchanged |
| `Filters.FilteredAnd` | SpecificationPattern/main.swift:84-86 | filtering with `A and B` equals filtering with `A` and then filtering that output with `B` |
| `Filters.FilteredEquivalent` | SpecificationPattern/main.swift:100-109 | two equivalent specifications give the same output on every input |
| `Filters.FilteredAndCommutative` | SpecificationPattern/main.swift:84-86 | `A and B` and `B and A` give the same output on every input |
| `UseCase.RunUseCase` | SpecificationPattern/main.swift:114-124 | filtering [tree, frog, strawberry] with "red and small" gives exactly [strawberry], rendered "small red strawberry" |
| `UseCase.UseCaseResult` | SpecificationPattern/main.swift:114-122 | the reference filter on the demonstration items and specification is [strawberry] |
| `UseCase.OtherQueries` | SpecificationPattern/main.swift:114-116 | on the same items, "green and large" keeps only the tree and "blue" keeps nothing |

## Left out

- `print(result)` and the bracketed list that Swift prints (main.swift:123) are console output. The model stops at the filter's result and the rendering of its elements.
- `Products.Description` gives "<size> <color> <name>" with lower-case labels. It does not model how Swift's string interpolation turns enum cases into text. Only the rendering's shape and its injectivity are proved.
- The `{ get set }` setters of the `Sized` and `Colored` protocols (main.swift:13, 17) are left out. Nothing writes through them, so the capabilities only read.
- The `Specification` and `Filter` protocols are open in Swift, so other code could add further specification types. The model closes `Specification<T>` over the three variants the file defines.
- The associated types and `where` clauses (main.swift:50-54, 74, 91-96) become Dafny's type parameters. A conjunction's two operands share `T`, and that is checked by Dafny's type checker rather than by a proof.
- `GenericFilter` is a struct with no fields. Its `filter` is modelled as the module-level method `Filters.Filter`.
- `import Foundation` (main.swift:9) is not used by the logic.
