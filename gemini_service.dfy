/** The pure parts of the smart-search client: the product listing sent as
    context to the completion service, and the mapping of the names it returns
    back onto catalog products. The completion call itself is not modelled; its
    outcome is a parameter of type `Reply`. */
module GeminiService {
  import opened Types
  import opened Builtins

  /** What the completion call yields, as far as the client can tell apart:
      - `Failed`: the request itself rejects, before the `try` is reached;
      - `Unusable`: either the text does not parse as JSON, so that
        `JSON.parse` throws, or it parses to `null`, a number, a boolean or
        an object, so that `.includes` throws; both happen inside the `try`;
      - `NameList(names)`: the text parses to an array, whose string elements
        are `names` (no other element can equal a product name);
      - `NameText(text)`: the text parses to a JSON string `text`, on which
        `.includes` is a substring test. */
  datatype Reply = Failed | Unusable | NameList(names: seq<string>) | NameText(text: string)

  /** One product's part of the context: `name (category)`. */
  function ContextEntry(p: Product): string
  {
    p.name + " (" + CategoryLabel(p.category) + ")"
  }

  function ContextEntries(products: seq<Product>): (r: seq<string>)
    ensures |r| == |products|
    ensures forall i :: 0 <= i < |products| ==> r[i] == ContextEntry(products[i])
  {
    seq(|products|, i requires 0 <= i < |products| => ContextEntry(products[i]))
  }

  /** The product list context: every entry in catalog order, joined by ", ". */
  function ProductListContext(products: seq<Product>): (r: string)
    ensures products == [] ==> r == ""
    ensures |products| == 1 ==> r == ContextEntry(products[0])
  {
    Join(ContextEntries(products), ", ")
  }

  /** Building the context product by product: a catalog of one product is its
      entry alone, and each further product adds ", " and its own entry. */
  lemma ProductListContextSnoc(products: seq<Product>, p: Product)
    ensures ProductListContext(products + [p]) ==
            if products == [] then ContextEntry(p)
            else ProductListContext(products) + ", " + ContextEntry(p)
  {
    assert ContextEntries(products + [p]) == ContextEntries(products) + [ContextEntry(p)];
    JoinSnoc(ContextEntries(products), ContextEntry(p), ", ");
  }

  /** The names of the products, in catalog order. */
  function Names(products: seq<Product>): (r: seq<string>)
    ensures |r| == |products|
    ensures forall i :: 0 <= i < |products| ==> r[i] == products[i].name
  {
    seq(|products|, i requires 0 <= i < |products| => products[i].name)
  }

  /** `products.filter(p => names.includes(p.name))` for an array of names. */
  function SelectByNames(products: seq<Product>, names: seq<string>): (r: seq<Product>)
    ensures forall i :: 0 <= i < |r| ==> r[i] in products && r[i].name in names
    ensures forall i :: 0 <= i < |products| && products[i].name in names ==> products[i] in r
  {
    Filter(products, (p: Product) => p.name in names)
  }

  /** `products.filter(p => text.includes(p.name))` for a JSON string: a
      product is kept when its name is a substring of the text. */
  function SelectByText(products: seq<Product>, text: string): (r: seq<Product>)
    ensures forall i :: 0 <= i < |r| ==> r[i] in products && Includes(text, r[i].name)
    ensures forall i :: 0 <= i < |products| && Includes(text, products[i].name) ==> products[i] in r
  {
    Filter(products, (p: Product) => Includes(text, p.name))
  }

  /** The outcome of `getSmartSearchRecommendations`: `None` when the promise
      rejects (the request failed), otherwise the value it resolves to, which
      is `[]` when the reply is unusable. */
  function Recommend(products: seq<Product>, reply: Reply): (r: Option<seq<Product>>)
    ensures r.None? <==> reply.Failed?
    ensures reply.Unusable? ==> r == Some([])
    ensures r.Some? ==> forall i :: 0 <= i < |r.value| ==> r.value[i] in products
    ensures reply.NameList? ==>
              && r.Some?
              && (forall i :: 0 <= i < |r.value| ==> r.value[i].name in reply.names)
              && (forall i :: 0 <= i < |products| && products[i].name in reply.names ==> products[i] in r.value)
    ensures reply.NameText? ==>
              && r.Some?
              && (forall i :: 0 <= i < |r.value| ==> Includes(reply.text, r.value[i].name))
              && (forall i :: 0 <= i < |products| && Includes(reply.text, products[i].name) ==> products[i] in r.value)
  {
    match reply
    case Failed => None
    case Unusable => Some([])
    case NameList(names) => Some(SelectByNames(products, names))
    case NameText(text) => Some(SelectByText(products, text))
  }

  /** Whatever the reply, a result keeps catalog order. */
  lemma RecommendKeepsCatalogOrder(products: seq<Product>, reply: Reply)
    ensures Recommend(products, reply).Some? ==> IsSubsequence(Recommend(products, reply).value, products)
  {
    match reply
    case Failed =>
    case Unusable =>
    case NameList(names) => FilterIsSubsequence(products, (p: Product) => p.name in names);
    case NameText(text) => FilterIsSubsequence(products, (p: Product) => Includes(text, p.name));
  }

  /** Each catalog product appears exactly as often as in the catalog when its
      name was returned, and not at all otherwise: a repeated name does not
      duplicate anything. */
  lemma RecommendCount(products: seq<Product>, names: seq<string>, x: Product)
    ensures multiset(Recommend(products, NameList(names)).value)[x] ==
            if x.name in names then multiset(products)[x] else 0
  {
    FilterCount(products, (p: Product) => p.name in names, x);
  }

  /** Only the set of returned names matters: neither their order nor their
      repetitions change the result. */
  lemma RecommendIgnoresNameOrder(products: seq<Product>, names1: seq<string>, names2: seq<string>)
    requires forall n :: n in names1 <==> n in names2
    ensures Recommend(products, NameList(names1)) == Recommend(products, NameList(names2))
  {
    FilterExtensional(products, (p: Product) => p.name in names1, (p: Product) => p.name in names2);
  }

  /** Returned names that match no catalog name are dropped silently: removing
      them from the reply changes nothing. */
  lemma RecommendDropsUnknownNames(products: seq<Product>, names: seq<string>)
    ensures Recommend(products, NameList(names)) ==
            Recommend(products, NameList(Filter(names, (n: string) => n in Names(products))))
  {
    var known := Filter(names, (n: string) => n in Names(products));
    forall i | 0 <= i < |products|
      ensures (products[i].name in names) == (products[i].name in known)
    {
      assert Names(products)[i] == products[i].name;
    }
    FilterExtensional(products, (p: Product) => p.name in names, (p: Product) => p.name in known);
  }

  /** A reply that is a single JSON string selects, in catalog order, exactly
      the products whose full name occurs somewhere in that string. */
  lemma RecommendTextIsSubstringMatch(products: seq<Product>, text: string)
    ensures Recommend(products, NameText(text)).value ==
            Filter(products, (p: Product) => Occurs(p.name, text))
  {
    forall i | 0 <= i < |products| {
      IncludesIsOccurs(text, products[i].name);
    }
    FilterExtensional(products, (p: Product) => Includes(text, p.name), (p: Product) => Occurs(p.name, text));
  }
}
