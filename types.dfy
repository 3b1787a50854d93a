/** The closed enumerations and records shared by the store and the cart
    (types.ts). Money is counted in integer cents; presentation-only fields
    (avatars, images, ratings, delivery times, price ranges, cuisines) are
    not carried. */
module Types {

  datatype UserRole = Admin | Manager | Member

  /** `All` is the scope of the seeded administrator; restaurants carry one
      of the two real countries in the seed data, but nothing in the types
      forbids `All` on a restaurant either. */
  datatype Country = India | America | All

  datatype User = User(id: string, name: string, role: UserRole, country: Country)

  datatype Restaurant = Restaurant(id: string, name: string, country: Country)

  /** A cart line: `price` in cents, `quantity` a plain integer (the source
      keeps it as a number and does not bound it). */
  datatype CartItem = CartItem(id: string, name: string, price: int, restaurantId: string, quantity: int)

  datatype OrderStatus = Pending | Completed | Cancelled

  /** `items` is the summary text of the order; `total` is in cents;
      `createdAt` is an opaque timestamp string. */
  datatype Order = Order(
    id: string,
    userId: string,
    restaurantName: string,
    items: string,
    total: int,
    status: OrderStatus,
    createdAt: string)
}
