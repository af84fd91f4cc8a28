/** The item type of the demonstration: a product with a name, a colour and
    a size, which has both capabilities. */
module Products {
  import opened Attributes

  /** A product record; every combination of fields is valid. */
  datatype Product = Product(name: string, color: Color, size: Size)

  /** Product has the "has a colour" capability through its color field. */
  const ProductColored: Colored<Product> := Colored((p: Product) => p.color)

  /** Product has the "has a size" capability through its size field. */
  const ProductSized: Sized<Product> := Sized((p: Product) => p.size)

  lemma ProductCapabilities(p: Product)
    ensures ProductColored.color(p) == p.color
    ensures ProductSized.size(p) == p.size
  {
  }

  /** The rendering of a product: "<size> <color> <name>". */
  function Description(p: Product): string
  {
    SizeLabel(p.size) + " " + ColorLabel(p.color) + " " + p.name
  }

  /** In a space-free word followed by a space and a rest, the first space
      stands right after the word. */
  lemma FirstSpace(a: string, x: string)
    requires ' ' !in a
    ensures (a + " " + x)[|a|] == ' '
    ensures forall k :: 0 <= k < |a| ==> (a + " " + x)[k] != ' '
  {
  }

  /** If two strings each start with a space-free word followed by a space,
      and the strings are equal, then the words and the rests are equal. */
  lemma SplitAtFirstSpace(a: string, x: string, b: string, y: string)
    requires ' ' !in a && ' ' !in b
    requires a + " " + x == b + " " + y
    ensures a == b && x == y
  {
    FirstSpace(a, x);
    FirstSpace(b, y);
    var s := a + " " + x;
    assert |a| == |b|;
    assert a == s[..|a|] && b == s[..|b|];
    assert x == s[|a| + 1..] && y == s[|b| + 1..];
  }

  /** The rendering is unambiguous: two products with the same rendering are
      the same product. */
  lemma DescriptionInjective(p: Product, q: Product)
    requires Description(p) == Description(q)
    ensures p == q
  {
    var rp := ColorLabel(p.color) + " " + p.name;
    var rq := ColorLabel(q.color) + " " + q.name;
    assert Description(p) == SizeLabel(p.size) + " " + rp;
    assert Description(q) == SizeLabel(q.size) + " " + rq;
    SplitAtFirstSpace(SizeLabel(p.size), rp, SizeLabel(q.size), rq);
    SplitAtFirstSpace(ColorLabel(p.color), p.name, ColorLabel(q.color), q.name);
    LabelsInjective(p.size, q.size, p.color, q.color);
  }
}
