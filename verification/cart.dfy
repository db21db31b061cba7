/** The shopping cart: an ordered sequence of line items kept in persistent storage under
    `cart`, the add-to-cart merge by item id, the running total, and the dialog's rendering
    of the cart as rows plus a total line. */
module Cart {

  import opened Wrappers
  import opened Money

  /** One cart line. `price` is kept as the text it was stored with; `qty` is `None` when the
      stored record has no quantity. */
  datatype CartItem = CartItem(id: string, name: string, price: string, qty: Option<nat>)

  type Cart = seq<CartItem>

  /** The quantity the script uses, `qty || 1`: a missing or zero quantity counts as one. */
  function QtyOrOne(q: Option<nat>): (n: nat)
    ensures n >= 1
    ensures q.Some? && q.value >= 1 ==> n == q.value
    ensures q.None? || q == Some(0) ==> n == 1
  {
    match q
    case None => 1
    case Some(v) => if v == 0 then 1 else v
  }

  function IdSet(cart: Cart): set<string> {
    set k | 0 <= k < |cart| :: cart[k].id
  }

  /** The state every cart the script writes is in: no two lines share an id and every
      line carries a quantity of at least one. */
  predicate WellFormed(cart: Cart) {
    && (forall a, b :: 0 <= a < b < |cart| ==> cart[a].id != cart[b].id)
    && (forall k :: 0 <= k < |cart| ==> cart[k].qty.Some? && cart[k].qty.value >= 1)
  }

  /** `cart.find(x => x.id === id)`: the position of the first line with this id. */
  function FindIndex(cart: Cart, id: string): (r: Option<nat>)
    ensures r.Some? ==> r.value < |cart| && cart[r.value].id == id
    ensures r.Some? ==> forall k :: 0 <= k < r.value ==> cart[k].id != id
    ensures r.None? <==> id !in IdSet(cart)
  {
    if |cart| == 0 then None
    else if cart[0].id == id then Some(0)
    else
      match FindIndex(cart[1..], id)
      case None =>
        assert forall k :: 1 <= k < |cart| ==> cart[k] == cart[1..][k - 1];
        None
      case Some(i) => Some(i + 1)
  }

  /** The line after one more unit of it was added: quantity `(qty || 1) + 1`, everything
      else as it was. */
  function Bumped(it: CartItem): CartItem {
    it.(qty := Some(QtyOrOne(it.qty) + 1))
  }

  /** The add-to-cart click: a line whose id is already present gets one more unit, and
      otherwise a new line with quantity one goes to the end. Name and price of an existing
      line are not refreshed. */
  function AddItem(cart: Cart, id: string, name: string, price: string): (r: Cart)
    ensures id in IdSet(cart) ==>
      var i := FindIndex(cart, id).value;
      && |r| == |cart|
      && r[i].id == id && r[i].name == cart[i].name && r[i].price == cart[i].price
      && QtyOrOne(r[i].qty) == QtyOrOne(cart[i].qty) + 1
      && forall k :: 0 <= k < |cart| && k != i ==> r[k] == cart[k]
    ensures id !in IdSet(cart) ==>
      && |r| == |cart| + 1
      && r[..|cart|] == cart
      && r[|cart|] == CartItem(id, name, price, Some(1))
    ensures IdSet(r) == IdSet(cart) + {id}
    ensures WellFormed(cart) ==> WellFormed(r)
  {
    match FindIndex(cart, id)
    case Some(i) =>
      var r := cart[i := Bumped(cart[i])];
      assert IdSet(r) == IdSet(cart) + {id} by {
        forall x | x in IdSet(cart) ensures x in IdSet(r) {
          var k :| 0 <= k < |cart| && cart[k].id == x;
          assert r[k].id == x;
        }
      }
      r
    case None =>
      var r := cart + [CartItem(id, name, price, Some(1))];
      assert IdSet(r) == IdSet(cart) + {id} by {
        forall x | x in IdSet(cart) ensures x in IdSet(r) {
          var k :| 0 <= k < |cart| && cart[k].id == x;
          assert r[k].id == x;
        }
        assert r[|cart|].id == id;
      }
      r
  }

  /** What one line contributes to the total: `Number(price) * (qty || 1)`. */
  function LineAmount(it: CartItem): (a: Amount)
    ensures a == NaN <==> PriceOf(it.price) == NaN
    ensures it.qty.None? || it.qty == Some(1) ==> a == PriceOf(it.price)
  {
    Times(PriceOf(it.price), QtyOrOne(it.qty))
  }

  /** Every line's price text reads as a number, checked from the last line back. */
  predicate AllPriced(items: Cart)
    decreases |items|
  {
    |items| == 0 || (AllPriced(items[..|items| - 1]) && PriceOf(items[|items| - 1].price).Cents?)
  }

  /** The cart total: the sum of every line's amount, taken in display order from 0. */
  function CartTotal(items: Cart): (t: Amount)
    ensures t.Cents? <==> AllPriced(items)
    decreases |items|
  {
    if |items| == 0 then Cents(0)
    else Plus(CartTotal(items[..|items| - 1]), LineAmount(items[|items| - 1]))
  }

  /** When the total is a number, no single line's amount exceeds it. */
  lemma {:induction false} LineWithinTotal(items: Cart, k: nat)
    requires k < |items|
    ensures CartTotal(items).Cents? ==>
            LineAmount(items[k]).Cents? && LineAmount(items[k]).cents <= CartTotal(items).cents
    decreases |items|
  {
    var n := |items| - 1;
    var init, last := CartTotal(items[..n]), LineAmount(items[n]);
    assert CartTotal(items) == Plus(init, last);
    if CartTotal(items).Cents? {
      assert init.Cents? && last.Cents? && CartTotal(items).cents == init.cents + last.cents;
      if k < n {
        LineWithinTotal(items[..n], k);
        assert items[..n][k] == items[k];
      }
    }
  }

  /** The total of two carts laid end to end is the sum of their totals. */
  lemma {:induction false} TotalAppend(a: Cart, b: Cart)
    ensures CartTotal(a + b) == Plus(CartTotal(a), CartTotal(b))
    decreases |b|
  {
    if |b| == 0 {
      assert a + b == a;
    } else {
      var b' := b[..|b| - 1];
      assert (a + b)[..|a + b| - 1] == a + b';
      TotalAppend(a, b');
      PlusAssociative(CartTotal(a), CartTotal(b'), LineAmount(b[|b| - 1]));
    }
  }

  /** The total is NaN exactly when some line's price is not a number. */
  lemma {:induction false} TotalIsNaN(items: Cart)
    ensures CartTotal(items) == NaN <==>
            exists k :: 0 <= k < |items| && PriceOf(items[k].price) == NaN
    decreases |items|
  {
    if |items| > 0 {
      var n := |items| - 1;
      var init := items[..n];
      TotalIsNaN(init);
      TimesNaN(PriceOf(items[n].price), QtyOrOne(items[n].qty));
      assert CartTotal(items) == Plus(CartTotal(init), LineAmount(items[n]));
      if CartTotal(items) == NaN {
        if CartTotal(init) == NaN {
          var k :| 0 <= k < |init| && PriceOf(init[k].price) == NaN;
          assert items[k] == init[k];
        } else {
          assert PriceOf(items[n].price) == NaN;
        }
      } else {
        assert CartTotal(init) != NaN && LineAmount(items[n]) != NaN;
        forall k | 0 <= k < |items|
          ensures PriceOf(items[k].price) != NaN
        {
          if k < n {
            assert items[k] == init[k];
            assert PriceOf(init[k].price) != NaN;
          } else {
            assert k == n;
          }
        }
      }
    }
  }

  /** Replacing one line changes the total by exactly that line's contribution. */
  lemma TotalReplace(cart: Cart, i: nat, it: CartItem)
    requires i < |cart|
    ensures CartTotal(cart[i := it]) ==
            Plus(Plus(CartTotal(cart[..i]), LineAmount(it)), CartTotal(cart[i + 1..]))
  {
    var r := cart[i := it];
    assert r == (cart[..i] + [it]) + cart[i + 1..];
    TotalAppend(cart[..i] + [it], cart[i + 1..]);
    TotalAppend(cart[..i], [it]);
    assert [it][..0] == [];
  }

  /** A line with one more unit contributes its unit price once more. */
  lemma BumpedLine(it: CartItem)
    ensures LineAmount(Bumped(it)) == Plus(LineAmount(it), PriceOf(it.price))
  {
    var b := Bumped(it);
    assert b.price == it.price;
    assert QtyOrOne(b.qty) == QtyOrOne(it.qty) + 1;
    TimesSucc(PriceOf(it.price), QtyOrOne(it.qty));
  }

  /** A second click on an item already in the cart raises the total by its unit price. */
  lemma AddExistingTotal(cart: Cart, id: string, name: string, price: string)
    requires id in IdSet(cart)
    ensures CartTotal(AddItem(cart, id, name, price)) ==
            Plus(CartTotal(cart), PriceOf(cart[FindIndex(cart, id).value].price))
  {
    var i := FindIndex(cart, id).value;
    var p := PriceOf(cart[i].price);
    assert AddItem(cart, id, name, price) == cart[i := Bumped(cart[i])];
    TotalReplace(cart, i, Bumped(cart[i]));
    TotalReplace(cart, i, cart[i]);
    assert cart[i := cart[i]] == cart;
    BumpedLine(cart[i]);
    var x, y, z := CartTotal(cart[..i]), LineAmount(cart[i]), CartTotal(cart[i + 1..]);
    PlusAssociative(x, y, p);
    PlusAssociative(Plus(x, y), p, z);
    PlusCommutative(p, z);
    PlusAssociative(Plus(x, y), z, p);
  }

  /** Adding an item not yet in the cart raises the total by the price given. */
  lemma AddNewTotal(cart: Cart, id: string, name: string, price: string)
    requires id !in IdSet(cart)
    ensures CartTotal(AddItem(cart, id, name, price)) == Plus(CartTotal(cart), PriceOf(price))
  {
    var it := CartItem(id, name, price, Some(1));
    var r := AddItem(cart, id, name, price);
    assert r[..|cart|] == cart && r[|cart|] == it && |r| == |cart| + 1;
    TotalStep(r, |cart|);
    assert r[..|cart| + 1] == r;
    assert LineAmount(it) == PriceOf(price) by {
      assert QtyOrOne(it.qty) == 1;
    }
  }

  /** One rendered cart line: the name, the quantity shown as `x<qty>`, its amount and the
      money text shown for it. */
  datatype Row = Row(name: string, qty: nat, amount: Amount, amountText: string)

  /** The dialog contents: the empty-cart placeholder, or the rows followed by the total
      and its money text. */
  datatype CartView =
    | Placeholder(text: string)
    | Listing(rows: seq<Row>, total: Amount, totalText: string)

  const EmptyCartText := "Your cart is empty."

  function RowOf(it: CartItem): Row {
    var a := LineAmount(it);
    Row(it.name, QtyOrOne(it.qty), a, AmountText(a))
  }

  /** The rows for a list of cart lines: one per line, in order. */
  function RowsOf(items: Cart): (rs: seq<Row>)
    ensures |rs| == |items|
    ensures forall k :: 0 <= k < |items| ==> rs[k] == RowOf(items[k])
    decreases |items|
  {
    if |items| == 0 then [] else RowsOf(items[..|items| - 1]) + [RowOf(items[|items| - 1])]
  }

  /** Extending a prefix of the cart by its next line adds that line's amount; with the
      whole cart as the extended prefix, a line appended at the end adds its amount. */
  lemma TotalStep(items: Cart, i: nat)
    requires i < |items|
    ensures CartTotal(items[..i + 1]) == Plus(CartTotal(items[..i]), LineAmount(items[i]))
  {
    assert items[..i + 1][..i] == items[..i];
  }

  /** The `forEach` over the cart: one row per line, in order, and the running total
      accumulated from 0. */
  method RowsAndTotal(items: Cart) returns (rows: seq<Row>, total: Amount)
    ensures |rows| == |items|
    ensures forall k :: 0 <= k < |items| ==> rows[k] == RowOf(items[k])
    ensures total == CartTotal(items)
  {
    total := Cents(0);
    rows := [];
    var i := 0;
    while i < |items|
      invariant 0 <= i <= |items|
      invariant |rows| == i
      invariant rows == RowsOf(items[..i])
      invariant total == CartTotal(items[..i])
    {
      TotalStep(items, i);
      assert items[..i + 1][..i] == items[..i];
      total := Plus(total, LineAmount(items[i]));
      rows := rows + [RowOf(items[i])];
      i := i + 1;
    }
    assert items[..i] == items;
  }

  /** `renderCart`: a placeholder for an empty cart; otherwise one row per line in cart
      order and a total line accumulated as the rows are written. */
  method RenderCart(items: Cart) returns (view: CartView)
    ensures |items| == 0 <==> view == Placeholder(EmptyCartText)
    ensures |items| > 0 ==>
      && view.Listing?
      && |view.rows| == |items|
      && (forall k :: 0 <= k < |items| ==>
            view.rows[k].name == items[k].name
            && view.rows[k].qty == QtyOrOne(items[k].qty)
            && view.rows[k].amount == LineAmount(items[k])
            && view.rows[k].amountText == AmountText(view.rows[k].amount))
      && view.total == CartTotal(items)
      && view.totalText == AmountText(view.total)
  {
    if |items| == 0 {
      return Placeholder(EmptyCartText);
    }
    var rows, total := RowsAndTotal(items);
    view := Listing(rows, total, AmountText(total));
  }
}
