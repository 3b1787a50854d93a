# Slooze storefront core in Dafny

A model of the two pieces of real logic inside the Slooze food-ordering demo:

- **The mock order and catalogue service** (`services/mockDb.ts`). The region
  lock decides which restaurants a user sees: an administrator sees all of
  them, a manager or member in India or America sees only their own country,
  anyone else sees nothing. The module-level order list is an `OrderStore`
  class whose `orders: seq<Order>` field is changed in place by `PlaceOrder`
  (members are refused; everyone else appends a pending order numbered
  `o<length+1>`) and `CancelOrder` (members are refused; everyone else marks
  the first order with the id as cancelled). `VisibleOrders` is `getOrders`:
  everything for an administrator, one's own orders otherwise. The store
  keeps the invariant that the order at position i has id `o(i+1)`, so ids
  are unique; this rests on decimal rendering being injective, which is
  proved by reading the rendering back (`Decimal`).
- **The cart reducer** (`context/CartContext.tsx`). The updaters of
  `addToCart`, `decreaseQuantity`, `removeFromCart` and `clearCart` and the
  `total` reduction are functions over `seq<CartItem>`. Lemmas cover what
  each does to the lines, the order, the id-uniqueness and the total.

Files: `types.dfy` (the records and enumerations of `types.ts`), `seqs.dfy`
(`Array.prototype.filter` and its laws), `decimal.dfy` (`${n}` for natural
numbers), `cart.dfy`, `mockdb.dfy`.

Money (prices, totals) is counted in integer cents, and quantities are
integers (see "## Left out").

Behaviour of the code worth knowing, which the model keeps:

- The region lock tests the role first. An administrator in India sees every
  restaurant; a manager or member whose country is `ALL` sees none.
- Cancelling checks neither who owns the order nor its current status: a
  completed or already cancelled order becomes cancelled again.
- Cancelling an unknown id is silently ignored and reports success.
- `placeOrder` stores the total it is given, whatever its value.
- The seeded order `o1` is already COMPLETED, owned by `u1`, with total 35.00.

## Model

| member | source | states |
|---|---|---|
| `Decimal.DecimalValueOfNatToString` | services/mockDb.ts:60 | the decimal text of n, read back as a number, is n |
| `Decimal.NatToStringInjective` | services/mockDb.ts:60 | two different counts never render to the same text |
| `MockDb.GetRestaurants` | services/mockDb.ts:32-49 | the region lock never returns more restaurants than the catalogue holds |
| `MockDb.AdminSeesAll` | services/mockDb.ts:36-38 | an administrator gets the whole catalogue unfiltered and in order, whatever their country |
| `MockDb.RegionLock` | services/mockDb.ts:40-46 | a non-administrator in India or America gets only restaurants of their country, and every restaurant of their country |
| `MockDb.NoRegionSeesNothing` | services/mockDb.ts:48 | a non-administrator whose country is neither India nor America gets the empty list |
| `MockDb.GetRestaurantsConcat` | services/mockDb.ts:40-46 | the listing keeps the catalogue's order (it distributes over concatenation) |
| `MockDb.OrderId` | services/mockDb.ts:60 | the id `o<n>` is an `o` followed by decimal digits that read back as n |
| `MockDb.OrderIdInjective` | services/mockDb.ts:60 | ids `o<n>` built from different counts differ |
| `MockDb.WellNumberedIdsUnique` | services/mockDb.ts:60 | when position i holds id `o(i+1)`, no two orders share an id |
| `MockDb.FindIndex` | services/mockDb.ts:89 | `findIndex` returns -1 exactly when no order has the id, otherwise the first position that has it |
| `MockDb.FindIndexWellNumbered` | services/mockDb.ts:89 | in a well-numbered list the id `o<n>` is found at position n-1 |
| `MockDb.VisibleOrders` | services/mockDb.ts:73-79 | the listing never holds more orders than the store |
| `MockDb.AdminSeesAllOrders` | services/mockDb.ts:77 | an administrator sees every order in insertion order |
| `MockDb.VisibleOrdersOwn` | services/mockDb.ts:78 | anyone else sees only orders they own, and every order they own |
| `MockDb.VisibleOrdersConcat` | services/mockDb.ts:78 | the listing keeps insertion order (it distributes over concatenation) |
| `MockDb.VisibleOrdersAppend` | services/mockDb.ts:69-78 | an appended order shows up last for its owner and for administrators and nowhere else |
| `MockDb.OrderStore.GetOrders` | services/mockDb.ts:73-79 | `getOrders` on the store's current list returns only stored orders, and to a non-administrator only their own; the exact listing is fixed by the `VisibleOrders` lemmas |
| `MockDb.SeedOrder` | services/mockDb.ts:26-28 | the seeded order is COMPLETED, owned by `u1`, and numbered `o1` as the first order |
| `MockDb.NewOrder` | services/mockDb.ts:59-67 | the placed record is PENDING, carries the caller's id and the given total, and appending it to a well-numbered list of `count` orders keeps the list well numbered |
| `MockDb.OrderStore.constructor` | services/mockDb.ts:26-28 | the store starts with the seed order alone, which satisfies the numbering invariant |
| `MockDb.OrderStore.PlaceOrder` | services/mockDb.ts:51-71 | a member gets Forbidden and the list is unchanged; anyone else appends exactly one PENDING order with the caller's id, the given total, the item count and id `o(old length + 1)`, distinct from every earlier id; earlier orders are unchanged and the numbering invariant is kept |
| `MockDb.OrderStore.CancelOrder` | services/mockDb.ts:81-93 | a member gets Forbidden and nothing changes; anyone else succeeds, the first order with the id becomes CANCELLED whoever owns it and whatever its status, every other order and field is unchanged, an absent id changes nothing, the length never changes |
| `Cart.Find` | context/CartContext.tsx:20 | `find` yields nothing exactly when no line has the id, otherwise the first line with it |
| `Seqs.Filter` | context/CartContext.tsx:40 | `filter` never lengthens the list; `FilterMembers`, `FilterConcat` and `FilterIdempotent` give which elements it keeps, their order, and idempotence (also used at services/mockDb.ts:41, 45 and 78 and context/CartContext.tsx:35) |
| `Cart.Bump` | context/CartContext.tsx:22 | the `map` step keeps the length, changes only quantities, and leaves every line with another id untouched (also the step at line 32) |
| `Cart.AddToCart` | context/CartContext.tsx:18-25 | adding grows the cart by at most one line, keeps every earlier line's position and id, and leaves a line with the incoming id; see `AddNewAppends` and `AddExistingBumps` for the exact result |
| `Cart.DecreaseQuantity` | context/CartContext.tsx:28-37 | decreasing never lengthens the cart; either the length is kept or no line with the id remains; lines with other ids are earlier lines; see `DecreaseFirstAboveOneBumps`, `DecreaseAtMostOneRemoves` and `DecreaseAbsent` for the exact result |
| `Cart.RemoveFromCart` | context/CartContext.tsx:39-41 | every remaining line comes from the cart and has another id |
| `Cart.ClearCart` | context/CartContext.tsx:43 | clearing leaves no lines and a total of 0 |
| `Cart.Total` | context/CartContext.tsx:45 | the `reduce` sum is never negative when no price or quantity is; `TotalConcat` makes it additive |
| `Cart.AddNewAppends` | context/CartContext.tsx:20-24 | adding a new id appends the incoming line at the end, leaves the others in order, and raises the total by its price times quantity |
| `Cart.AddExistingBumps` | context/CartContext.tsx:20-22 | adding a present id keeps the length, adds exactly 1 to the quantity of the lines with that id, ignores the incoming line's fields, and leaves other lines unchanged |
| `Cart.AddExistingDistinct` | context/CartContext.tsx:20-22 | with distinct ids, adding a present id changes only its line, and the total grows by that line's price |
| `Cart.DecreaseFirstAboveOneBumps` | context/CartContext.tsx:30-32 | when the first line with the id has quantity above 1, decreasing keeps the length and takes exactly 1 off every line with that id, leaving other lines untouched |
| `Cart.DecreaseAboveOne` | context/CartContext.tsx:30-32 | with distinct ids, decreasing a line of quantity above 1 subtracts exactly 1 from it alone, keeps the length, and takes one price off the total |
| `Cart.DecreaseAtMostOneRemoves` | context/CartContext.tsx:30-35 | when the first line with the id has quantity 1 or less, decreasing removes that id |
| `Cart.DecreaseAbsent` | context/CartContext.tsx:30-35 | decreasing an absent id leaves the cart unchanged |
| `Cart.RemoveFromCartContents` | context/CartContext.tsx:40 | after removal no line has the id and every line with another id is still there |
| `Cart.RemoveFromCartConcat` | context/CartContext.tsx:40 | removal keeps the relative order of the remaining lines |
| `Cart.RemoveFromCartIdempotent` | context/CartContext.tsx:40 | removing twice is the same as removing once |
| `Cart.RemoveAbsent` | context/CartContext.tsx:40 | removing an absent id leaves the cart unchanged |
| `Cart.RemoveAt` | context/CartContext.tsx:40 | with distinct ids, removing the id of line k splices out exactly line k and takes its price times quantity off the total |
| `Cart.ClearCartIsEmpty` | context/CartContext.tsx:43-45 | clearing yields the empty cart, whose total is 0 |
| `Cart.TotalConcat` | context/CartContext.tsx:45 | the total of two carts put together is the sum of their totals |
| `Cart.AddKeepsDistinct` | context/CartContext.tsx:18-25 | adding keeps the ids distinct |
| `Cart.DecreaseKeepsDistinct` | context/CartContext.tsx:28-37 | decreasing keeps the ids distinct |
| `Cart.RemoveKeepsDistinct` | context/CartContext.tsx:40 | removing keeps the ids distinct |

## Left out

- Simulated network latency (the `setTimeout` awaits): each operation is one atomic, synchronous step.
- Timestamps: `createdAt` is an opaque string the caller passes to the constructor and to `PlaceOrder`.
- Aliasing: the source hands back the stored order objects themselves, so a later cancel is visible through them. This covers the pushed record from `placeOrder`, the live array from `getOrders` for an administrator, and the orders inside a non-administrator's filtered array (a new array holding the same objects). The model returns values, which show the state at the time of the call.
- Seed presentation data: user avatars, restaurant images, cuisines, ratings, delivery times and price ranges are not carried. The seeded restaurant list is a parameter of `GetRestaurants`, and the seeded users are not modelled. The seeded order keeps all its fields.
- Error message text: both 403 errors are the single `Forbidden` error.
- Floating-point money: prices and totals are integer cents, with no IEEE rounding and no `toFixed` formatting.
- Fractional quantities: quantities are integers. The only quantity the application ever writes is the literal 1 (app/dashboard/page.tsx:39), and the cart only ever steps it by 1 up or down.
- Pages, components and routing, including their own role checks that only pre-disable controls, and the cart page's display-only delivery fee.
- React plumbing: `useState`, the context provider and `useCart`'s provider check. The cart's `total` is a function of the current lines.
- Concurrency: there are no interleavings to model, since every operation is atomic here.
