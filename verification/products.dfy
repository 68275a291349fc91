/**
 The read-only product catalog: the `products` table keyed by its `id` primary key.
 Prices are held in integer cents, so a cart total is an exact integer sum and the
 two-decimal rounding the server applies to it changes nothing.
 */
module Products {

  /** A row of `products` without its key; `price` is in cents. */
  datatype Product = Product(name: string, priceCents: nat, image: string, description: string)

  /** Product id to product. The service never writes to it. */
  type Catalog = map<string, Product>

  /** The eight products seeded into an empty table, with prices converted to cents. */
  const Seeded: Catalog := map[
    "1" := Product("Wireless Headphones", 9999, "https://picsum.photos/300/300?random=1",
                   "High-quality wireless headphones with noise cancellation"),
    "2" := Product("Smart Watch", 19999, "https://picsum.photos/300/300?random=2",
                   "Feature-rich smartwatch with health monitoring"),
    "3" := Product("Laptop Backpack", 4999, "https://picsum.photos/300/300?random=3",
                   "Durable laptop backpack with USB charging port"),
    "4" := Product("Bluetooth Speaker", 7999, "https://picsum.photos/300/300?random=4",
                   "Portable Bluetooth speaker with rich sound"),
    "5" := Product("Phone Case", 2499, "https://picsum.photos/300/300?random=5",
                   "Protective phone case with stylish design"),
    "6" := Product("Tablet Stand", 3499, "https://picsum.photos/300/300?random=6",
                   "Adjustable tablet stand for comfortable viewing"),
    "7" := Product("USB-C Cable", 1999, "https://picsum.photos/300/300?random=7",
                   "Fast charging USB-C cable 6ft length"),
    "8" := Product("Wireless Mouse", 2999, "https://picsum.photos/300/300?random=8",
                   "Ergonomic wireless mouse with precision tracking")
  ]
}
