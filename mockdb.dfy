/** The mock order and catalogue service of services/mockDb.ts: the region
    lock on the restaurant catalogue, and the module-level order list with
    its role-guarded place, list and cancel operations. The simulated
    network delay is left out, so every operation is one atomic step; the
    seeded restaurant list is a parameter; timestamps are opaque strings
    handed in by the caller. */
module MockDb {
  import opened Types
  import opened Seqs
  import opened Decimal

  /** The "403 FORBIDDEN" errors the service throws. */
  datatype Error = Forbidden

  datatype Result<T> = Ok(value: T) | Err(error: Error)

  /** The outcome of an operation that returns nothing on success. */
  datatype Outcome = Pass | Fail(error: Error)

  // ---------------------------------------------------------------------
  // The catalogue and its region lock

  /** The callback `r => r.country === c`. */
  function CountryIs(c: Country): Restaurant -> bool {
    (r: Restaurant) => r.country == c
  }

  /** `getRestaurants`: the decision is taken on the role first and only then
      on the country, so an administrator sees everything whatever their
      country, and anyone else whose country is neither India nor America
      sees nothing. */
  function GetRestaurants(user: User, restaurants: seq<Restaurant>): (r: seq<Restaurant>)
    ensures |r| <= |restaurants|
  {
    if user.role == Admin then restaurants
    else if user.country == India then Filter(restaurants, CountryIs(India))
    else if user.country == America then Filter(restaurants, CountryIs(America))
    else []
  }

  /** An administrator gets the whole catalogue, in its order, whatever
      their own country. */
  lemma AdminSeesAll(user: User, restaurants: seq<Restaurant>)
    requires user.role == Admin
    ensures GetRestaurants(user, restaurants) == restaurants
  {
  }

  /** Anyone else in India or America gets exactly the restaurants of their
      own country. */
  lemma RegionLock(user: User, restaurants: seq<Restaurant>)
    requires user.role != Admin && user.country != All
    ensures forall i | 0 <= i < |GetRestaurants(user, restaurants)| ::
      GetRestaurants(user, restaurants)[i] in restaurants &&
      GetRestaurants(user, restaurants)[i].country == user.country
    ensures forall i | 0 <= i < |restaurants| && restaurants[i].country == user.country ::
      restaurants[i] in GetRestaurants(user, restaurants)
  {
    FilterMembers(restaurants, CountryIs(user.country));
  }

  /** A non-administrator whose country is `All` gets nothing. */
  lemma NoRegionSeesNothing(user: User, restaurants: seq<Restaurant>)
    requires user.role != Admin && user.country == All
    ensures GetRestaurants(user, restaurants) == []
  {
  }

  /** The listing keeps the catalogue's order: it distributes over
      concatenation. */
  lemma GetRestaurantsConcat(user: User, a: seq<Restaurant>, b: seq<Restaurant>)
    ensures GetRestaurants(user, a + b) == GetRestaurants(user, a) + GetRestaurants(user, b)
  {
    FilterConcat(a, b, CountryIs(user.country));
  }

  // ---------------------------------------------------------------------
  // Order ids

  /** The id `o${n}` of the n-th order. */
  function OrderId(n: nat): (id: string)
    ensures |id| >= 2 && id[0] == 'o'
    ensures forall i | 1 <= i < |id| :: IsDigit(id[i])
    ensures DecimalValue(id[1..]) == n
  {
    DecimalValueOfNatToString(n);
    var id := "o" + NatToString(n);
    assert id[1..] == NatToString(n);
    id
  }

  /** Ids of different orders differ: each id reads back as its number. */
  lemma OrderIdInjective(a: nat, b: nat)
    requires OrderId(a) == OrderId(b)
    ensures a == b
  {
  }

  /** The order at position i carries the id of the (i+1)-th order. */
  ghost predicate WellNumbered(orders: seq<Order>) {
    forall i | 0 <= i < |orders| :: orders[i].id == OrderId(i + 1)
  }

  /** In a well-numbered list no two orders share an id. */
  lemma WellNumberedIdsUnique(orders: seq<Order>)
    requires WellNumbered(orders)
    ensures forall i, j | 0 <= i < j < |orders| :: orders[i].id != orders[j].id
  {
    forall i, j | 0 <= i < j < |orders| ensures orders[i].id != orders[j].id {
      assert DecimalValue(orders[i].id[1..]) == i + 1;
      assert DecimalValue(orders[j].id[1..]) == j + 1;
    }
  }

  // ---------------------------------------------------------------------
  // Reading orders

  /** `orders.findIndex(o => o.id === orderId)`: the first position holding
      the id, or -1. */
  function FindIndex(orders: seq<Order>, orderId: string): (r: int)
    ensures -1 <= r < |orders|
    ensures r == -1 ==> forall i | 0 <= i < |orders| :: orders[i].id != orderId
    ensures r >= 0 ==> orders[r].id == orderId && forall i | 0 <= i < r :: orders[i].id != orderId
  {
    if orders == [] then -1
    else if orders[0].id == orderId then 0
    else
      var r := FindIndex(orders[1..], orderId);
      if r == -1 then -1 else r + 1
  }

  /** In a well-numbered list the id of the n-th order is found at n - 1. */
  lemma FindIndexWellNumbered(orders: seq<Order>, n: nat)
    requires WellNumbered(orders) && 1 <= n <= |orders|
    ensures FindIndex(orders, OrderId(n)) == n - 1
  {
    var r := FindIndex(orders, OrderId(n));
    assert orders[n - 1].id == OrderId(n);
    if r != n - 1 {
      WellNumberedIdsUnique(orders);
    }
  }

  /** The callback `o => o.userId === userId`. */
  function OwnedBy(userId: string): Order -> bool {
    (o: Order) => o.userId == userId
  }

  /** `getOrders`: everything for an administrator, the caller's own orders
      for everyone else. */
  function VisibleOrders(orders: seq<Order>, user: User): (r: seq<Order>)
    ensures |r| <= |orders|
  {
    if user.role == Admin then orders else Filter(orders, OwnedBy(user.id))
  }

  /** An administrator sees every order, in insertion order. */
  lemma AdminSeesAllOrders(orders: seq<Order>, user: User)
    requires user.role == Admin
    ensures VisibleOrders(orders, user) == orders
  {
  }

  /** A non-administrator sees exactly the orders they own. */
  lemma VisibleOrdersOwn(orders: seq<Order>, user: User)
    requires user.role != Admin
    ensures forall i | 0 <= i < |VisibleOrders(orders, user)| ::
      VisibleOrders(orders, user)[i] in orders && VisibleOrders(orders, user)[i].userId == user.id
    ensures forall i | 0 <= i < |orders| && orders[i].userId == user.id ::
      orders[i] in VisibleOrders(orders, user)
  {
    FilterMembers(orders, OwnedBy(user.id));
  }

  /** The listing keeps insertion order: it distributes over concatenation. */
  lemma VisibleOrdersConcat(a: seq<Order>, b: seq<Order>, user: User)
    ensures VisibleOrders(a + b, user) == VisibleOrders(a, user) + VisibleOrders(b, user)
  {
    FilterConcat(a, b, OwnedBy(user.id));
  }

  /** An order appended to the list shows up last in its owner's listing and
      in an administrator's, and in nobody else's. */
  lemma VisibleOrdersAppend(orders: seq<Order>, o: Order, user: User)
    ensures VisibleOrders(orders + [o], user) ==
      if user.role == Admin || o.userId == user.id then VisibleOrders(orders, user) + [o]
      else VisibleOrders(orders, user)
  {
    VisibleOrdersConcat(orders, [o], user);
    assert Filter([o], OwnedBy(user.id)) == if o.userId == user.id then [o] else [];
  }

  // ---------------------------------------------------------------------
  // The order list

  /** The single order the list starts with. */
  function SeedOrder(createdAt: string): (o: Order)
    ensures WellNumbered([o])
    ensures o.userId == "u1" && o.status == Completed
  {
    assert NatToString(1) == "1";
    Order("o1", "u1", "Brooklyn Burgers", "2x Cheese Burger", 3500, Completed, createdAt)
  }

  /** The record `placeOrder` builds when the list holds `count` orders. */
  function NewOrder(user: User, cartItems: seq<CartItem>, total: int, count: nat, createdAt: string): (o: Order)
    ensures forall orders: seq<Order> | WellNumbered(orders) && |orders| == count ::
      WellNumbered(orders + [o])
    ensures o.status == Pending && o.userId == user.id && o.total == total
  {
    Order(OrderId(count + 1), user.id, "Slooze Kitchen", NatToString(|cartItems|) + " items",
          total, Pending, createdAt)
  }

  /** The module-level `orders` list and the operations that change it. */
  class OrderStore {
    var orders: seq<Order>

    ghost predicate Valid()
      reads this
    {
      WellNumbered(orders)
    }

    constructor (createdAt: string)
      ensures Valid() && orders == [SeedOrder(createdAt)]
    {
      orders := [SeedOrder(createdAt)];
    }

    /** `placeOrder`: members are refused and nothing changes; anyone else
        appends one pending order under the next id and gets it back. */
    method PlaceOrder(user: User, cartItems: seq<CartItem>, total: int, createdAt: string)
      returns (r: Result<Order>)
      requires Valid()
      modifies this
      ensures Valid()
      ensures user.role == Member ==> r == Err(Forbidden) && orders == old(orders)
      ensures user.role != Member ==> r.Ok? && orders == old(orders) + [r.value]
      ensures user.role != Member ==>
        && r.value.id == OrderId(|old(orders)| + 1)
        && r.value.userId == user.id
        && r.value.restaurantName == "Slooze Kitchen"
        && r.value.items == NatToString(|cartItems|) + " items"
        && r.value.total == total
        && r.value.status == Pending
        && r.value.createdAt == createdAt
      ensures user.role != Member ==> forall i | 0 <= i < |old(orders)| :: old(orders)[i].id != r.value.id
    {
      if user.role == Member {
        return Err(Forbidden);
      }
      var o := NewOrder(user, cartItems, total, |orders|, createdAt);
      orders := orders + [o];
      r := Ok(o);
      WellNumberedIdsUnique(orders);
      forall i | 0 <= i < |old(orders)| ensures old(orders)[i].id != o.id {
        assert orders[i] == old(orders)[i] && orders[|orders| - 1] == o;
      }
    }

    /** `getOrders` over the current list. */
    function GetOrders(user: User): (r: seq<Order>)
      reads this
      ensures |r| <= |orders|
      ensures forall i | 0 <= i < |r| :: r[i] in orders && (user.role == Admin || r[i].userId == user.id)
    {
      FilterMembers(orders, OwnedBy(user.id));
      VisibleOrders(orders, user)
    }

    /** `cancelOrder`: members are refused and nothing changes; for anyone
        else the first order with the id becomes cancelled, whoever owns it
        and whatever its status was, and an unknown id changes nothing. */
    method CancelOrder(user: User, orderId: string) returns (r: Outcome)
      requires Valid()
      modifies this
      ensures Valid()
      ensures |orders| == |old(orders)|
      ensures user.role == Member ==> r == Fail(Forbidden) && orders == old(orders)
      ensures user.role != Member ==> r == Pass
      ensures user.role != Member ==>
        forall i | 0 <= i < |orders| ::
          orders[i] == if i == FindIndex(old(orders), orderId)
                       then old(orders)[i].(status := Cancelled)
                       else old(orders)[i]
      ensures user.role != Member && FindIndex(old(orders), orderId) == -1 ==> orders == old(orders)
    {
      if user.role == Member {
        return Fail(Forbidden);
      }
      var orderIndex := FindIndex(orders, orderId);
      if orderIndex > -1 {
        orders := orders[orderIndex := orders[orderIndex].(status := Cancelled)];
      }
      r := Pass;
    }
  }

  /** A client that relies on the store's contracts alone: a manager's
      order is numbered o2, a member cannot cancel it, and a manager can
      cancel the seeded order o1 although it is completed and owned by
      someone else. */
  method StoreWalkthrough(createdAt: string)
  {
    var store := new OrderStore(createdAt);
    var manager := User("u2", "Captain Marvel", Manager, India);
    var member := User("u4", "Thanos", Member, India);

    var placed := store.PlaceOrder(manager, [], 1599, createdAt);
    assert placed.Ok? && placed.value.id == OrderId(2) && store.orders[1].status == Pending;
    ghost var before := store.orders[..1];
    assert store.orders == before + [placed.value];
    VisibleOrdersAppend(before, placed.value, manager);
    var mine := store.GetOrders(manager);
    assert mine[|mine| - 1] == placed.value;

    var refused := store.CancelOrder(member, OrderId(2));
    assert refused == Fail(Forbidden) && store.orders[1].status == Pending;

    assert store.orders[0].status == Completed && store.orders[0].userId == "u1";
    FindIndexWellNumbered(store.orders, 1);
    var cancelled := store.CancelOrder(manager, OrderId(1));
    assert cancelled == Pass && store.orders[0].status == Cancelled;
  }
}
