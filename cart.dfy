/** The cart of CartContext.tsx: the updater bodies passed to `setItems`
    (add, decrease, remove, clear) and the `total` reduction, as functions
    over immutable sequences of cart lines. Lines are keyed by `id`. */
module Cart {
  import opened Types
  import opened Seqs

  datatype Option<T> = None | Some(value: T)

  /** `prev.find(i => i.id === id)`: the first line carrying `id`, if any. */
  function Find(items: seq<CartItem>, id: string): (r: Option<CartItem>)
    ensures r.None? <==> forall i | 0 <= i < |items| :: items[i].id != id
    ensures r.Some? ==> exists k | 0 <= k < |items| ::
      items[k] == r.value && r.value.id == id && forall j | 0 <= j < k :: items[j].id != id
  {
    if items == [] then None
    else if items[0].id == id then Some(items[0])
    else
      var r := Find(items[1..], id);
      assert r.Some? ==> exists k | 0 <= k < |items[1..]| ::
        items[1..][k] == r.value && r.value.id == id && forall j | 0 <= j < k :: items[1..][j].id != id;
      assert r.Some? ==> exists k | 1 <= k < |items| ::
        items[k] == r.value && r.value.id == id && forall j | 0 <= j < k :: items[j].id != id;
      r
  }

  /** With distinct ids, the line found for line k's id is line k. */
  lemma FindDistinct(items: seq<CartItem>, k: nat)
    requires DistinctIds(items) && k < |items|
    ensures Find(items, items[k].id) == Some(items[k])
  {
  }

  /** The callback `i => i.id !== id` that removal filters with. */
  function WithoutId(id: string): CartItem -> bool {
    (i: CartItem) => i.id != id
  }

  /** `prev.map(i => i.id === id ? { ...i, quantity: i.quantity + delta } : i)`:
      every line carrying `id` has its quantity moved by `delta`. */
  function Bump(items: seq<CartItem>, id: string, delta: int): (r: seq<CartItem>)
    ensures |r| == |items|
    ensures forall i | 0 <= i < |r| :: r[i] == items[i].(quantity := r[i].quantity)
    ensures forall i | 0 <= i < |r| && items[i].id != id :: r[i] == items[i]
  {
    seq(|items|, i requires 0 <= i < |items| =>
      if items[i].id == id then items[i].(quantity := items[i].quantity + delta) else items[i])
  }

  /** With distinct ids, moving the quantity of line k's id touches line k only. */
  lemma BumpDistinct(items: seq<CartItem>, k: nat, delta: int)
    requires DistinctIds(items) && k < |items|
    ensures Bump(items, items[k].id, delta) == items[k := items[k].(quantity := items[k].quantity + delta)]
  {
  }

  /** The updater of `addToCart`. */
  function AddToCart(items: seq<CartItem>, newItem: CartItem): (r: seq<CartItem>)
    ensures |items| <= |r| <= |items| + 1
    ensures forall i | 0 <= i < |items| :: r[i].id == items[i].id
    ensures exists i | 0 <= i < |r| :: r[i].id == newItem.id
  {
    if Find(items, newItem.id).Some? then Bump(items, newItem.id, 1)
    else
      var r := items + [newItem];
      assert r[|items|].id == newItem.id;
      r
  }

  /** The updater of `decreaseQuantity`: the quantity tested is that of the
      first line with the id; a quantity of 1 or less removes the id. */
  function DecreaseQuantity(items: seq<CartItem>, id: string): (r: seq<CartItem>)
    ensures |r| <= |items|
    ensures |r| == |items| || forall i | 0 <= i < |r| :: r[i].id != id
    ensures forall i | 0 <= i < |r| && r[i].id != id :: r[i] in items
  {
    var existing := Find(items, id);
    if existing.Some? && existing.value.quantity > 1 then Bump(items, id, -1)
    else FilterMembers(items, WithoutId(id)); Filter(items, WithoutId(id))
  }

  /** The updater of `removeFromCart`. */
  function RemoveFromCart(items: seq<CartItem>, id: string): (r: seq<CartItem>)
    ensures forall i | 0 <= i < |r| :: r[i].id != id && r[i] in items
  {
    FilterMembers(items, WithoutId(id));
    Filter(items, WithoutId(id))
  }

  /** The state `clearCart` installs. */
  function ClearCart(): (r: seq<CartItem>)
    ensures |r| == 0 && Total(r) == 0
  {
    []
  }

  /** What one line contributes to the total. */
  function Subtotal(item: CartItem): int {
    item.price * item.quantity
  }

  /** Moving a line's quantity by `delta` moves its subtotal by `delta` prices. */
  lemma SubtotalBump(item: CartItem, delta: int)
    ensures Subtotal(item.(quantity := item.quantity + delta)) == Subtotal(item) + delta * item.price
  {
  }

  /** `items.reduce((sum, item) => sum + item.price * item.quantity, 0)`,
      folded from the left as `reduce` does. */
  function Total(items: seq<CartItem>): (r: int)
    ensures (forall i | 0 <= i < |items| :: items[i].price >= 0 && items[i].quantity >= 0) ==> r >= 0
  {
    if items == [] then 0 else Total(items[..|items| - 1]) + Subtotal(items[|items| - 1])
  }

  ghost predicate DistinctIds(items: seq<CartItem>) {
    forall i, j | 0 <= i < j < |items| :: items[i].id != items[j].id
  }

  // ---------------------------------------------------------------------
  // The total

  /** The total of a concatenation is the sum of the totals. */
  lemma {:induction false} TotalConcat(a: seq<CartItem>, b: seq<CartItem>)
    ensures Total(a + b) == Total(a) + Total(b)
  {
    if b == [] {
      assert a + b == a;
    } else {
      var c := a + b;
      assert c[..|c| - 1] == a + b[..|b| - 1];
      assert c[|c| - 1] == b[|b| - 1];
      TotalConcat(a, b[..|b| - 1]);
    }
  }

  /** Replacing one line changes the total by the difference of the two
      lines' subtotals. */
  lemma TotalUpdate(items: seq<CartItem>, k: nat, y: CartItem)
    requires k < |items|
    ensures Total(items[k := y]) == Total(items) - Subtotal(items[k]) + Subtotal(y)
  {
    var before, after := items[..k], items[k + 1..];
    assert Total(items) == Total(before) + Subtotal(items[k]) + Total(after) by {
      TotalSplit(items, k);
    }
    assert Total(items[k := y]) == Total(before) + Subtotal(y) + Total(after) by {
      TotalSplit(items[k := y], k);
      assert items[k := y][..k] == before && items[k := y][k + 1..] == after;
    }
  }

  /** Moving line k's quantity by `delta` moves the total by `delta` prices. */
  lemma TotalBumpAt(items: seq<CartItem>, k: nat, delta: int)
    requires k < |items|
    ensures Total(items[k := items[k].(quantity := items[k].quantity + delta)]) == Total(items) + delta * items[k].price
  {
    TotalUpdate(items, k, items[k].(quantity := items[k].quantity + delta));
    SubtotalBump(items[k], delta);
  }

  /** Dropping one line takes its subtotal off the total. */
  lemma TotalRemoveAt(items: seq<CartItem>, k: nat)
    requires k < |items|
    ensures Total(items[..k] + items[k + 1..]) == Total(items) - Subtotal(items[k])
  {
    TotalSplit(items, k);
    TotalConcat(items[..k], items[k + 1..]);
  }

  /** The total splits around any one line. */
  lemma TotalSplit(items: seq<CartItem>, k: nat)
    requires k < |items|
    ensures Total(items) == Total(items[..k]) + Subtotal(items[k]) + Total(items[k + 1..])
  {
    var before, x, after := items[..k], items[k], items[k + 1..];
    assert items == (before + [x]) + after;
    TotalConcat(before + [x], after);
    assert Total(before + [x]) == Total(before) + Subtotal(x) by {
      assert (before + [x])[..|before|] == before;
    }
  }

  /** `clearCart` empties the cart, whose total is then 0. */
  lemma ClearCartIsEmpty()
    ensures ClearCart() == [] && Total(ClearCart()) == 0
  {
  }

  // ---------------------------------------------------------------------
  // Adding

  /** Adding an id not yet in the cart appends the incoming line unchanged
      at the end, and the total grows by exactly that line's subtotal. */
  lemma AddNewAppends(items: seq<CartItem>, newItem: CartItem)
    requires forall i | 0 <= i < |items| :: items[i].id != newItem.id
    ensures AddToCart(items, newItem) == items + [newItem]
    ensures Total(AddToCart(items, newItem)) == Total(items) + Subtotal(newItem)
  {
    TotalConcat(items, [newItem]);
  }

  /** Adding an id already in the cart keeps the length and bumps the
      quantity of every line with that id by exactly 1, whatever the
      incoming line's quantity, price or name; other lines are untouched. */
  lemma AddExistingBumps(items: seq<CartItem>, newItem: CartItem, k: nat)
    requires k < |items| && items[k].id == newItem.id
    ensures |AddToCart(items, newItem)| == |items|
    ensures forall i | 0 <= i < |items| ::
      AddToCart(items, newItem)[i] ==
        if items[i].id == newItem.id then items[i].(quantity := items[i].quantity + 1) else items[i]
  {
  }

  /** With distinct ids, adding an id already present changes exactly its
      line, by one unit, and the total grows by that line's price. */
  lemma AddExistingDistinct(items: seq<CartItem>, newItem: CartItem, k: nat)
    requires DistinctIds(items)
    requires k < |items| && items[k].id == newItem.id
    ensures AddToCart(items, newItem) == items[k := items[k].(quantity := items[k].quantity + 1)]
    ensures Total(AddToCart(items, newItem)) == Total(items) + items[k].price
  {
    FindDistinct(items, k);
    BumpDistinct(items, k, 1);
    TotalBumpAt(items, k, 1);
  }

  // ---------------------------------------------------------------------
  // Removing and decreasing

  /** Removal keeps no line with the id and keeps every other line. */
  lemma RemoveFromCartContents(items: seq<CartItem>, id: string)
    ensures forall i | 0 <= i < |RemoveFromCart(items, id)| :: RemoveFromCart(items, id)[i].id != id
    ensures forall i | 0 <= i < |items| && items[i].id != id :: items[i] in RemoveFromCart(items, id)
  {
    FilterMembers(items, WithoutId(id));
  }

  /** Removal keeps the relative order of the lines it keeps. */
  lemma RemoveFromCartConcat(a: seq<CartItem>, b: seq<CartItem>, id: string)
    ensures RemoveFromCart(a + b, id) == RemoveFromCart(a, id) + RemoveFromCart(b, id)
  {
    FilterConcat(a, b, WithoutId(id));
  }

  /** Removing twice is removing once. */
  lemma RemoveFromCartIdempotent(items: seq<CartItem>, id: string)
    ensures RemoveFromCart(RemoveFromCart(items, id), id) == RemoveFromCart(items, id)
  {
    FilterIdempotent(items, WithoutId(id));
  }

  /** Removing an id the cart does not hold leaves the cart as it is. */
  lemma RemoveAbsent(items: seq<CartItem>, id: string)
    requires forall i | 0 <= i < |items| :: items[i].id != id
    ensures RemoveFromCart(items, id) == items
  {
    FilterAllPass(items, WithoutId(id));
  }

  /** With distinct ids, removing the id of line k drops exactly that line,
      and the total loses exactly its subtotal. */
  lemma RemoveAt(items: seq<CartItem>, k: nat)
    requires DistinctIds(items) && k < |items|
    ensures RemoveFromCart(items, items[k].id) == items[..k] + items[k + 1..]
    ensures Total(RemoveFromCart(items, items[k].id)) == Total(items) - Subtotal(items[k])
  {
    RemoveSplices(items, k);
    TotalRemoveAt(items, k);
  }

  /** Removing the id of line k drops line k and works on the two sides of
      it independently. */
  lemma RemoveAroundLine(items: seq<CartItem>, k: nat)
    requires k < |items|
    ensures RemoveFromCart(items, items[k].id) ==
      RemoveFromCart(items[..k], items[k].id) + RemoveFromCart(items[k + 1..], items[k].id)
  {
    var p := WithoutId(items[k].id);
    var before, after := items[..k], items[k + 1..];
    assert items == before + ([items[k]] + after);
    calc {
      Filter(items, p);
      { FilterConcat(before, [items[k]] + after, p); }
      Filter(before, p) + Filter([items[k]] + after, p);
      { FilterConcat([items[k]], after, p); assert Filter([items[k]], p) == []; }
      Filter(before, p) + Filter(after, p);
    }
  }

  /** With distinct ids, removing the id of line k is splicing line k out. */
  lemma RemoveSplices(items: seq<CartItem>, k: nat)
    requires DistinctIds(items) && k < |items|
    ensures RemoveFromCart(items, items[k].id) == items[..k] + items[k + 1..]
  {
    var id := items[k].id;
    var before, after := items[..k], items[k + 1..];
    assert RemoveFromCart(before, id) == before by {
      forall i | 0 <= i < |before| ensures before[i].id != id {
        assert before[i] == items[i];
      }
      RemoveAbsent(before, id);
    }
    assert RemoveFromCart(after, id) == after by {
      forall i | 0 <= i < |after| ensures after[i].id != id {
        assert after[i] == items[k + 1 + i];
      }
      RemoveAbsent(after, id);
    }
    RemoveAroundLine(items, k);
  }

  /** Decreasing an id the cart does not hold leaves the cart as it is. */
  lemma DecreaseAbsent(items: seq<CartItem>, id: string)
    requires forall i | 0 <= i < |items| :: items[i].id != id
    ensures DecreaseQuantity(items, id) == items
  {
    RemoveAbsent(items, id);
  }

  /** When the first line with the id has quantity 1 or less, decreasing is
      removing that id. */
  lemma DecreaseAtMostOneRemoves(items: seq<CartItem>, k: nat)
    requires k < |items|
    requires forall j | 0 <= j < k :: items[j].id != items[k].id
    requires items[k].quantity <= 1
    ensures DecreaseQuantity(items, items[k].id) == RemoveFromCart(items, items[k].id)
  {
  }

  /** When the first line with the id has quantity above 1, decreasing keeps
      the length and takes exactly 1 off the quantity of every line with
      that id (`map` visits them all); other lines are untouched. */
  lemma DecreaseFirstAboveOneBumps(items: seq<CartItem>, k: nat)
    requires k < |items|
    requires forall j | 0 <= j < k :: items[j].id != items[k].id
    requires items[k].quantity > 1
    ensures |DecreaseQuantity(items, items[k].id)| == |items|
    ensures forall i | 0 <= i < |items| ::
      DecreaseQuantity(items, items[k].id)[i] ==
        if items[i].id == items[k].id then items[i].(quantity := items[i].quantity - 1) else items[i]
  {
    var id := items[k].id;
    var r := Find(items, id);
    var m :| 0 <= m < |items| && items[m] == r.value && r.value.id == id
      && forall j | 0 <= j < m :: items[j].id != id;
    if m < k {
      assert items[m].id != id;
    }
    assert r == Some(items[k]);
  }

  /** With distinct ids, decreasing line k of quantity above 1 decrements
      exactly that line, keeps the length, and takes one price off the total. */
  lemma DecreaseAboveOne(items: seq<CartItem>, k: nat)
    requires DistinctIds(items) && k < |items|
    requires items[k].quantity > 1
    ensures DecreaseQuantity(items, items[k].id) == items[k := items[k].(quantity := items[k].quantity - 1)]
    ensures Total(DecreaseQuantity(items, items[k].id)) == Total(items) - items[k].price
  {
    FindDistinct(items, k);
    BumpDistinct(items, k, -1);
    TotalBumpAt(items, k, -1);
  }

  // ---------------------------------------------------------------------
  // Distinct ids are kept

  lemma {:induction false} FilterKeepsDistinct(items: seq<CartItem>, p: CartItem -> bool)
    requires DistinctIds(items)
    ensures DistinctIds(Filter(items, p))
  {
    if items != [] {
      var tail := items[1..];
      assert DistinctIds(tail) by {
        forall i, j | 0 <= i < j < |tail| ensures tail[i].id != tail[j].id {
          assert tail[i] == items[i + 1] && tail[j] == items[j + 1];
        }
      }
      FilterKeepsDistinct(tail, p);
      FilterMembers(tail, p);
      var rest := Filter(tail, p);
      forall i | 0 <= i < |rest| ensures rest[i].id != items[0].id {
        var m :| 0 <= m < |tail| && tail[m] == rest[i];
        assert tail[m] == items[m + 1];
      }
    }
  }

  /** Adding keeps the ids distinct. */
  lemma AddKeepsDistinct(items: seq<CartItem>, newItem: CartItem)
    requires DistinctIds(items)
    ensures DistinctIds(AddToCart(items, newItem))
  {
  }

  /** Decreasing keeps the ids distinct. */
  lemma DecreaseKeepsDistinct(items: seq<CartItem>, id: string)
    requires DistinctIds(items)
    ensures DistinctIds(DecreaseQuantity(items, id))
  {
    FilterKeepsDistinct(items, WithoutId(id));
  }

  /** Removing keeps the ids distinct. */
  lemma RemoveKeepsDistinct(items: seq<CartItem>, id: string)
    requires DistinctIds(items)
    ensures DistinctIds(RemoveFromCart(items, id))
  {
    FilterKeepsDistinct(items, WithoutId(id));
  }
}
