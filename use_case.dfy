/** The demonstration: three products, the specification "red and small",
    and the filter applied to them. */
module UseCase {
  import opened Attributes
  import opened Products
  import opened Specifications
  import opened Filters

  const Tree := Product("tree", Green, Large)
  const Frog := Product("frog", Green, Small)
  const Strawberry := Product("strawberry", Red, Small)

  const Items := [Tree, Frog, Strawberry]

  const RedSpec := ColorSpecification(ProductColored, Red)
  const SmallSpec := SizeSpecification(ProductSized, Small)
  const Specs := AndSpecification(RedSpec, SmallSpec)

  /** Runs the demonstration's filter: of the three products only the
      strawberry is red and small, and it renders as "small red strawberry". */
  method RunUseCase() returns (result: seq<Product>)
    ensures result == [Strawberry]
    ensures |result| == 1 && Description(result[0]) == "small red strawberry"
  {
    result := Filter(Items, Specs);
    UseCaseResult();
  }

  /** The filter keeps the strawberry and only the strawberry. */
  lemma UseCaseResult()
    ensures Filtered(Items, Specs) == [Strawberry]
  {
    assert [Tree][..0] == [];
    assert Filtered([Tree], Specs) == [];
    assert [Tree, Frog][..1] == [Tree];
    assert Filtered([Tree, Frog], Specs) == [];
    assert Items[..2] == [Tree, Frog];
  }

  /** Two further queries over the same products: "green and large" keeps only
      the tree, and "blue" keeps nothing. */
  lemma OtherQueries()
    ensures Filtered(Items, AndSpecification(ColorSpecification(ProductColored, Green),
                                             SizeSpecification(ProductSized, Large))) == [Tree]
    ensures Filtered(Items, ColorSpecification(ProductColored, Blue)) == []
  {
    var greenLarge := AndSpecification(ColorSpecification(ProductColored, Green),
                                       SizeSpecification(ProductSized, Large));
    var blue := ColorSpecification(ProductColored, Blue);
    assert [Tree][..0] == [];
    assert Filtered([Tree], greenLarge) == [Tree];
    assert Filtered([Tree], blue) == [];
    assert [Tree, Frog][..1] == [Tree];
    assert Filtered([Tree, Frog], greenLarge) == [Tree];
    assert Filtered([Tree, Frog], blue) == [];
    assert Items[..2] == [Tree, Frog];
  }
}
