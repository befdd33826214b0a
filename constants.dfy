/** A small fixture taken from the catalog constants: the first two products
    and one household product. */
module Constants {
  import opened Types

  const FreshMilk := Product(
    "1", "Fresh Milk 1L Pack of 12", Dairy, 2400, "Carton", 45,
    "https://images.unsplash.com/photo-1563636619-e910ef49e9cf?auto=format&fit=crop&q=80&w=400",
    "Ultra-pasteurized fresh milk, rich in calcium.", "MilkPure",
    Some(true), Some("Save 5% on 10+ cartons"), None)

  const ColaClassic := Product(
    "2", "Cola Classic 500ml Pack of 24", Beverages, 1800, "Case", 120,
    "https://images.unsplash.com/photo-1622483767028-3f66f32aef97?auto=format&fit=crop&q=80&w=400",
    "Refreshing carbonated soft drink.", "FizzCo",
    Some(true), None, None)

  const CookingOil := Product(
    "8", "Cooking Oil 5L Tin", Household, 2850, "Tin", 25,
    "https://images.unsplash.com/photo-1474979266404-7eaacbcd87c5?auto=format&fit=crop&q=80&w=400",
    "Refined sunflower oil for healthy cooking.", "PureDrop",
    Some(true), None, None)

  const Fixture: seq<Product> := [FreshMilk, ColaClassic, CookingOil]
}
