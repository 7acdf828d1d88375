# Shopping cart model

A Dafny model of the in-memory shopping-cart class of a small Vite project
(`vite-project/src/model/ShoppingCart.js`). The model has three parts:

- **The registry of carts.** Every cart ever constructed is appended to a
  process-wide list. `listAll` returns a copy of it. `findBy(id)` returns the
  first cart with that identifier, or `null`.
- **The cart.** A cart has an identifier fixed at construction and an ordered
  list of line items. `createItem` appends an item. `getItems` returns a copy of
  the list. `removeItem` rebuilds the list without the items carrying a given
  identifier. `getTotal` folds the prices left to right, starting from 0.
- **Line items and identifiers.** A line item is a record of an identifier, a
  name and a price. Identifiers come from a generator that never repeats one.

Files:

- `ids.dfy`, module `Ids`: the class `IdSource`. It stands in for the `getId`
  helper, and its contract only promises an identifier never issued before.
- `cart_items.dfy`, module `CartItems`: the `Item` datatype and the pure
  sequence functions behind the cart's operations. `Total` is the left fold of
  `getTotal`. `SumOfPrices` is an independent head-first sum. `Without` is the
  filter of `removeItem`. The module also holds the lemmas about these.
- `shopping_cart.dfy`, module `ShoppingCarts`: the class `Registry` (the static
  `#allCarts` array) and the class `ShoppingCart` (the `id` field and the
  `#cartItems` list). It also holds the `FirstIndex` scan behind `findBy`, and
  `ExampleScenario`, a client method that walks through adding two items,
  removing one, and the resulting items, total and lookups.

The class-level array `#allCarts` becomes an explicit `Registry` object. The
cart constructor takes it as a parameter and appends the new cart to it.
Methods that change state (`ShoppingCart.constructor`, `CreateItem`,
`RemoveItem`) state their whole new state in terms of the old one. The
read-only operations (`ListAll`, `FindBy`, `GetItems`, `GetTotal`) are
functions, so they cannot change anything.

The item list's invariant is `ShoppingCart.Valid(ids)`: item identifiers are
distinct, and every one was issued by the identifier source. The registry's
invariant is `Registry.Valid(ids)`: cart identifiers are unique, and every one
was issued by the identifier source. Both follow from the freshness contract of
`IdSource.Next`. The source file never states either one.

A line item stores no reference to its cart. `removeItem` drops every item
carrying the given identifier. Suppose item identifiers are distinct and item
k carries that identifier. Then exactly item k is removed
(`CartItems.WithoutRemovesOne`), and the total drops by its price
(`CartItems.TotalWithout`). `RemoveItem` states both facts in its own contract.

## Model

| member | source | states |
|---|---|---|
| `Ids.IdSource.Next` | vite-project/src/model/ShoppingCart.js:14 | The identifier handed out differs from every identifier issued before, and it is added to the issued set. |
| `ShoppingCarts.Registry.constructor` | vite-project/src/model/ShoppingCart.js:8 | The registry starts empty. |
| `ShoppingCarts.ShoppingCart.constructor` | vite-project/src/model/ShoppingCart.js:13-22 | A new cart has an empty item list and a fresh identifier. The registry becomes its old contents followed by the new cart, so earlier entries and their order are kept. Registry ids stay unique, and `FindBy` on the new id returns the new cart. |
| `ShoppingCarts.Registry.ListAll` | vite-project/src/model/ShoppingCart.js:25-28 | Returns exactly the registered carts in creation order. It is a function, so the registry is left unchanged. |
| `ShoppingCarts.FirstIndex` | vite-project/src/model/ShoppingCart.js:34 | The scan of `Array.find` returns a position. No cart before that position has the id. If the position is inside the list, the cart there has the id. Otherwise no cart has it. |
| `ShoppingCarts.Registry.FindBy` | vite-project/src/model/ShoppingCart.js:31-35 | Returns `null` exactly when no registered cart has the id. Otherwise it returns a registered cart with that id, and no earlier cart has it. It is a function, so it changes no state. |
| `ShoppingCarts.EveryCartFound` | vite-project/src/model/ShoppingCart.js:31-35 | When cart ids are unique, the lookup of any registered cart's id finds that cart's position. |
| `ShoppingCarts.RegisteredCartsFound` | vite-project/src/model/ShoppingCart.js:31-35 | When cart ids are unique, `FindBy` given the id of any registered cart returns that cart. |
| `ShoppingCarts.AppendedCartFound` | vite-project/src/model/ShoppingCart.js:13-22 | Suppose a cart is appended behind carts that all have other ids. Then the lookup of its id finds it at the end. |
| `ShoppingCarts.ShoppingCart.CreateItem` | vite-project/src/model/ShoppingCart.js:38-45 | Appends exactly one item at the end and returns it. The item has the given name and price and a fresh id. Earlier items are untouched. The total rises by exactly the price. Distinct, issued item ids stay that way. |
| `ShoppingCarts.ShoppingCart.GetItems` | vite-project/src/model/ShoppingCart.js:47-50 | Returns the current item list in insertion order. It is a function, so the cart is left unchanged. |
| `ShoppingCarts.ShoppingCart.RemoveItem` | vite-project/src/model/ShoppingCart.js:52-57 | The new list is the old one filtered to the items whose id differs from the given id. An item remains exactly when it was present with another id. Distinct ids stay distinct. With distinct ids, if item k carries the id, the new list is the old one with exactly item k cut out, and the total drops by its price. |
| `ShoppingCarts.ShoppingCart.GetTotal` | vite-project/src/model/ShoppingCart.js:59-62 | The total equals the sum of the prices of the current items, and it is 0 for an empty cart. |
| `CartItems.TotalIsSumOfPrices` | vite-project/src/model/ShoppingCart.js:61 | The left fold from 0 equals the head-first sum of the prices. |
| `CartItems.TotalAppend` | vite-project/src/model/ShoppingCart.js:61 | Appending an item raises the fold by exactly that item's price. |
| `CartItems.TotalConcat` | vite-project/src/model/ShoppingCart.js:61 | The fold of a concatenation is the sum of the two folds. |
| `CartItems.Without` | vite-project/src/model/ShoppingCart.js:56 | Filtering never lengthens the list. |
| `CartItems.WithoutMembers` | vite-project/src/model/ShoppingCart.js:56 | An item is in the filtered list if and only if it was in the list and its id differs from the removed id. In particular, no item with the removed id remains. |
| `CartItems.WithoutConcat` | vite-project/src/model/ShoppingCart.js:56 | Filtering distributes over concatenation, so the relative order of the kept items is preserved. |
| `CartItems.WithoutAbsent` | vite-project/src/model/ShoppingCart.js:56 | Removing an id that no item carries leaves the list unchanged. |
| `CartItems.WithoutIdempotent` | vite-project/src/model/ShoppingCart.js:56 | A second removal of the same id is a no-op. |
| `CartItems.WithoutSplice` | vite-project/src/model/ShoppingCart.js:56 | Suppose x is the only item carrying its id. Then removing that id from before + [x] + after yields before + after. |
| `CartItems.WithoutRemovesOne` | vite-project/src/model/ShoppingCart.js:56 | With distinct ids, removing the id of item k yields the list with exactly item k cut out. |
| `CartItems.TotalWithout` | vite-project/src/model/ShoppingCart.js:52-62 | With distinct ids, removing item k lowers the total by exactly its price. |
| `CartItems.WithoutKeepsDistinct` | vite-project/src/model/ShoppingCart.js:56 | Removal keeps item ids distinct. |

## Left out

- The internals of `getId` (`../utils/getId`) and of `CartItem` (`./CartItem`) are not part of this model. `getId` becomes `IdSource`, which promises only fresh identifiers. Carts and items draw from one shared source. `CartItem` becomes the record `Item(id, name, price)`.
- The static, process-wide array `#allCarts` becomes an explicit `Registry` object passed to the cart constructor. With one `Registry` object, every constructed cart lands in the same registry, as in the source.
- JavaScript floating-point addition in `getTotal` is not modelled. Prices are integers (for example cents), so the total is exact.
- Reference identity and aliasing of the shallow copies returned by `listAll` and `getItems` are not modelled. Both return an immutable `seq`, so a caller cannot change the stored list through the result.
- Untyped inputs are not modelled. `name` is a string and `price` is an integer; the source has no validation, and none is added. A non-numeric price, or string concatenation inside `reduce`, has no counterpart here.
- Identifiers are natural numbers. The source puts no format on them beyond uniqueness.
- `ShoppingCarts.ShoppingCart.constructor`: it requires `ids.Valid()` and `registry.Valid(ids)`. These are the model's own invariants on the identifier source and the registry, and every object built through the model's constructors and methods satisfies them. The source states no such precondition.
