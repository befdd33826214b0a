/** The storefront's records: the closed set of categories, catalog products
    and cart entries. */
module Types {

  datatype Option<T> = None | Some(value: T)

  /** The thirteen product categories. */
  datatype Category =
    | Beverages | Snacks | PersonalCare | Household | Dairy | Pulses | Frozen
    | Pharmacy | MensFashion | WomensFashion | KidsClothing | Footwear | Accessories

  /** The string value each category carries; this is the text that appears
      in the smart-search context. */
  function CategoryLabel(c: Category): string
  {
    match c
    case Beverages => "Beverages"
    case Snacks => "Snacks"
    case PersonalCare => "Personal Care"
    case Household => "Household"
    case Dairy => "Dairy & Eggs"
    case Pulses => "Pulses & Grains"
    case Frozen => "Frozen Foods"
    case Pharmacy => "Pharmacy"
    case MensFashion => "Men's Fashion"
    case WomensFashion => "Women's Fashion"
    case KidsClothing => "Kids' Clothing"
    case Footwear => "Footwear"
    case Accessories => "Accessories"
  }

  /** Distinct categories carry distinct labels. */
  lemma CategoryLabelInjective(a: Category, b: Category)
    requires CategoryLabel(a) == CategoryLabel(b)
    ensures a == b
  {
  }

  /** A catalog product. Prices and stock counts are whole numbers; the
      optional flags are absent (`None`) unless the record sets them. */
  datatype Product = Product(
    id: string,
    name: string,
    category: Category,
    price: int,
    unit: string,
    stock: int,
    image: string,
    description: string,
    brand: string,
    isPopular: Option<bool>,
    bulkDiscount: Option<string>,
    isNew: Option<bool>)

  /** A cart entry: every field of the product plus the ordered quantity. */
  datatype CartItem = CartItem(product: Product, quantity: int)
  {
    function Id(): string { product.id }
  }
}
