/** The shopping cart kept in the visitor's session: a dictionary from product
    id (as text) to the quantity and the product's price, name and image as
    they were when it was first added. Python dictionaries keep insertion
    order, so the cart is a sequence of lines with distinct ids. */
module Cart {
  import opened Common

  datatype Entry = Entry(quantity: int, price: real, name: string, image: string)

  datatype Line = Line(id: string, entry: Entry)

  /** The product fields `cart_add` reads; `image` is a nullable text column. */
  datatype Product = Product(name: string, price: real, image: Option<string>)

  predicate DistinctIds(cart: seq<Line>)
  {
    forall i, j :: 0 <= i < j < |cart| ==> cart[i].id != cart[j].id
  }

  /** The position of the line for `id`. */
  function Find(cart: seq<Line>, id: string): (r: Option<nat>)
    ensures r.Some? ==> r.value < |cart| && cart[r.value].id == id
    ensures r.None? <==> forall i :: 0 <= i < |cart| ==> cart[i].id != id
    decreases |cart|
  {
    if cart == [] then None
    else if cart[|cart| - 1].id == id then Some(|cart| - 1)
    else Find(cart[..|cart| - 1], id)
  }

  /** The sum of the quantities: the `cart_count` reported to the page. */
  function Count(cart: seq<Line>): int
    decreases |cart|
  {
    if cart == [] then 0 else Count(cart[..|cart| - 1]) + cart[|cart| - 1].entry.quantity
  }

  /** A line's `price * quantity`. */
  function Subtotal(e: Entry): real
  {
    e.price * e.quantity as real
  }

  /** The sum of the lines' subtotals. */
  function Total(cart: seq<Line>): real
    decreases |cart|
  {
    if cart == [] then 0.0
    else Total(cart[..|cart| - 1]) + Subtotal(cart[|cart| - 1].entry)
  }

  lemma {:induction false} SumsConcat(a: seq<Line>, b: seq<Line>)
    ensures Count(a + b) == Count(a) + Count(b)
    ensures Total(a + b) == Total(a) + Total(b)
    decreases |b|
  {
    if b != [] {
      var b' := b[..|b| - 1];
      assert (a + b)[..|a + b| - 1] == a + b';
      assert (a + b)[|a + b| - 1] == b[|b| - 1];
      SumsConcat(a, b');
    } else {
      assert a + b == a;
    }
  }

  /** Replacing line k changes each sum by the difference of the two lines. */
  lemma SumsUpdate(cart: seq<Line>, k: nat, line: Line)
    requires k < |cart|
    ensures Count(cart[k := line]) == Count(cart) - cart[k].entry.quantity + line.entry.quantity
    ensures Total(cart[k := line]) == Total(cart) - Subtotal(cart[k].entry)
                                                    + Subtotal(line.entry)
  {
    assert cart == cart[..k] + [cart[k]] + cart[k + 1..];
    assert cart[k := line] == cart[..k] + [line] + cart[k + 1..];
    SumsConcat(cart[..k] + [cart[k]], cart[k + 1..]);
    SumsConcat(cart[..k], [cart[k]]);
    SumsConcat(cart[..k] + [line], cart[k + 1..]);
    SumsConcat(cart[..k], [line]);
    assert [cart[k]][..0] == [] && [line][..0] == [];
  }

  // ---------------------------------------------------------------------
  // cart_add
  // ---------------------------------------------------------------------

  /** The new line's data as the code builds it:
      `product.image.url if product.image else placeholder`. The `image`
      column holds a plain path, and a string has no `url` attribute, so for
      every product with an image this raises `AttributeError` (None). */
  function NewEntryAsWritten(p: Product): (r: Option<Entry>)
    ensures r.None? <==> Given(p.image)
  {
    if Given(p.image) then None else Some(Entry(1, p.price, p.name, ProductPlaceholder))
  }

  /** The first add of any product with an image fails. */
  lemma AddWithImageFails()
    ensures NewEntryAsWritten(Product("Helmet", 450.0, Some("/media/products/helmet.jpg"))).None?
    ensures forall p: Product :: Given(p.image) ==> NewEntryAsWritten(p).None?
  {
  }

  /** The new line's data with the stored path used as the image: quantity
      one, the product's price and name, and its image path or the
      placeholder, so the cart always has an image to show. */
  function NewEntry(p: Product): (r: Entry)
    ensures r.quantity == 1 && r.price == p.price && r.name == p.name
    ensures r.image == (if Given(p.image) then p.image.value else ProductPlaceholder)
    ensures r.image != ""
    ensures !Given(p.image) ==> NewEntryAsWritten(p) == Some(r)
  {
    Entry(1, p.price, p.name, if Given(p.image) then p.image.value else ProductPlaceholder)
  }

  /** The cart after `cart_add` of a product: a line already there gets one
      more unit, otherwise a new line is appended. */
  function Added(cart: seq<Line>, id: string, e: Entry): (r: seq<Line>)
  {
    match Find(cart, id)
    case Some(k) => cart[k := Line(id, cart[k].entry.(quantity := cart[k].entry.quantity + 1))]
    case None => cart + [Line(id, e)]
  }

  /** Adding a product raises the item count by exactly one; it changes only
      the product's own line (or appends it after all others), and keeps the
      ids distinct. */
  lemma AddedSpec(cart: seq<Line>, id: string, p: Product)
    requires DistinctIds(cart)
    ensures var r := Added(cart, id, NewEntry(p));
      && DistinctIds(r)
      && Count(r) == Count(cart) + 1
      && Find(r, id).Some?
      && (Find(cart, id).None? ==> r == cart + [Line(id, NewEntry(p))])
      && (Find(cart, id).Some? ==>
            |r| == |cart|
            && r[Find(cart, id).value].entry == cart[Find(cart, id).value].entry.(quantity := cart[Find(cart, id).value].entry.quantity + 1)
            && forall j :: 0 <= j < |cart| && j != Find(cart, id).value ==> r[j] == cart[j])
  {
    var r := Added(cart, id, NewEntry(p));
    match Find(cart, id)
    case Some(k) =>
      SumsUpdate(cart, k, r[k]);
    case None =>
      SumsConcat(cart, [Line(id, NewEntry(p))]);
      assert [Line(id, NewEntry(p))][..0] == [];
      assert r[|cart|].id == id;
  }

  // ---------------------------------------------------------------------
  // cart_remove and cart_update
  // ---------------------------------------------------------------------

  /** The cart after `del cart[id]`; without a line for `id` it is unchanged. */
  function Removed(cart: seq<Line>, id: string): (r: seq<Line>)
  {
    match Find(cart, id)
    case Some(k) => cart[..k] + cart[k + 1..]
    case None => cart
  }

  /** Removing a product takes its line's quantity and subtotal off the sums
      and leaves no line for it; the other lines keep their order. */
  lemma RemovedSpec(cart: seq<Line>, id: string)
    requires DistinctIds(cart)
    ensures DistinctIds(Removed(cart, id))
    ensures Find(Removed(cart, id), id).None?
    ensures forall x :: x in Removed(cart, id) <==> x in cart && x.id != id
    ensures Find(cart, id).Some? ==>
      Count(Removed(cart, id)) == Count(cart) - cart[Find(cart, id).value].entry.quantity
    ensures Find(cart, id).Some? ==>
      Total(Removed(cart, id)) == Total(cart) - Subtotal(cart[Find(cart, id).value].entry)
  {
    if Find(cart, id).Some? {
      var k := Find(cart, id).value;
      RemoveAt(cart, k);
      RemovedLines(cart, k);
    }
  }

  /** Without line k, which the other lines' ids differ from, the ids stay
      distinct and the lines are exactly the others. */
  lemma RemovedLines(cart: seq<Line>, k: nat)
    requires DistinctIds(cart) && k < |cart|
    ensures var r := cart[..k] + cart[k + 1..];
      && DistinctIds(r)
      && (forall i :: 0 <= i < |r| ==> r[i].id != cart[k].id)
      && (forall x :: x in r <==> x in cart && x.id != cart[k].id)
  {
    RemovedDistinct(cart, k);
    RemovedMembers(cart, k);
  }

  lemma RemovedDistinct(cart: seq<Line>, k: nat)
    requires DistinctIds(cart) && k < |cart|
    ensures var r := cart[..k] + cart[k + 1..];
      && DistinctIds(r)
      && (forall i :: 0 <= i < |r| ==> r[i].id != cart[k].id)
  {
    var r := cart[..k] + cart[k + 1..];
    forall i | 0 <= i < |r|
      ensures r[i] == cart[if i < k then i else i + 1]
    {
    }
    forall i, j | 0 <= i < j < |r|
      ensures r[i].id != r[j].id
    {
      var i' := if i < k then i else i + 1;
      var j' := if j < k then j else j + 1;
      assert r[i] == cart[i'] && r[j] == cart[j'] && i' < j';
    }
  }

  lemma RemovedMembers(cart: seq<Line>, k: nat)
    requires DistinctIds(cart) && k < |cart|
    ensures var r := cart[..k] + cart[k + 1..];
      forall x :: x in r <==> x in cart && x.id != cart[k].id
  {
    var r := cart[..k] + cart[k + 1..];
    forall x | x in cart && x.id != cart[k].id
      ensures x in r
    {
      var i :| 0 <= i < |cart| && cart[i] == x;
      if i < k { assert r[i] == x; } else { assert r[i - 1] == x; }
    }
    forall x | x in r
      ensures x in cart && x.id != cart[k].id
    {
      var i :| 0 <= i < |r| && r[i] == x;
      if i < k { assert cart[i] == x; } else { assert cart[i + 1] == x; }
    }
  }

  /** Line k taken out: the lines before it and after it, in order, and the
      sums without its quantity and subtotal. */
  lemma RemoveAt(cart: seq<Line>, k: nat)
    requires k < |cart|
    ensures var r := cart[..k] + cart[k + 1..];
      && |r| == |cart| - 1
      && (forall i :: 0 <= i < |r| ==> r[i] == if i < k then cart[i] else cart[i + 1])
      && Count(r) == Count(cart) - cart[k].entry.quantity
      && Total(r) == Total(cart) - Subtotal(cart[k].entry)
  {
    assert cart == cart[..k] + [cart[k]] + cart[k + 1..];
    SumsConcat(cart[..k], cart[k + 1..]);
    SumsConcat(cart[..k] + [cart[k]], cart[k + 1..]);
    SumsConcat(cart[..k], [cart[k]]);
    assert [cart[k]][..0] == [];
  }

  /** The cart after setting the quantity of `id` to q, which the view does
      only for a positive q and a line that exists. */
  function WithQuantity(cart: seq<Line>, id: string, q: int): (r: seq<Line>)
  {
    match Find(cart, id)
    case Some(k) => if q > 0 then cart[k := Line(id, cart[k].entry.(quantity := q))] else cart
    case None => cart
  }

  lemma WithQuantitySpec(cart: seq<Line>, id: string, q: int)
    ensures var r := WithQuantity(cart, id, q);
      && (q <= 0 || Find(cart, id).None? ==> r == cart)
      && (q > 0 && Find(cart, id).Some? ==>
            var k := Find(cart, id).value;
            |r| == |cart| && r[k].entry.quantity == q && Count(r) == Count(cart) - cart[k].entry.quantity + q
            && forall j :: 0 <= j < |cart| && j != k ==> r[j] == cart[j])
  {
    match Find(cart, id)
    case Some(k) =>
      if q > 0 {
        SumsUpdate(cart, k, Line(id, cart[k].entry.(quantity := q)));
      }
    case None =>
  }

  // ---------------------------------------------------------------------
  // The session and the views
  // ---------------------------------------------------------------------

  /** The cart-related keys of a visitor's session. A cart that is not in the
      session reads as empty, so both are the empty sequence here. */
  class Session {
    var cartId: Option<string>
    var cart: seq<Line>

    ghost predicate Valid()
      reads this
    {
      DistinctIds(cart)
    }

    constructor ()
      ensures Valid() && cartId.None? && cart == []
    {
      cartId, cart := None, [];
    }

    /** `get_cart_id`: the session's cart id, created from `newId` (a random
        UUID) only when there is none, so repeated calls return the same id. */
    method GetCartId(newId: string) returns (id: string)
      modifies this`cartId
      ensures cartId == Some(id)
      ensures old(cartId).Some? ==> id == old(cartId).value
      ensures old(cartId).None? ==> id == newId
    {
      if cartId.None? {
        cartId := Some(newId);
      }
      id := cartId.value;
    }

    /** `cart_add` for product `productId`, which `get_object_or_404` finds as
        `product` (None: a 404 is raised and nothing changes). Returns the
        `cart_count` the page is told. */
    method CartAdd(productId: nat, product: Option<Product>, freshId: string) returns (cartCount: Option<int>)
      requires Valid()
      modifies this
      ensures Valid()
      ensures product.None? ==> cartCount.None? && cart == old(cart) && cartId == old(cartId)
      ensures product.Some? ==>
        && cart == Added(old(cart), NatToString(productId), NewEntry(product.value))
        && cartId == (if old(cartId).Some? then old(cartId) else Some(freshId))
        && cartCount == Some(Count(old(cart)) + 1)
    {
      if product.None? {
        return None;
      }
      var _ := GetCartId(freshId);
      AddedSpec(cart, NatToString(productId), product.value);
      cart := Added(cart, NatToString(productId), NewEntry(product.value));
      cartCount := Some(Count(cart));
    }

    /** `cart_remove`: deletes the product's line when there is one. */
    method CartRemove(productId: nat)
      requires Valid()
      modifies this`cart
      ensures Valid() && cart == Removed(old(cart), NatToString(productId))
    {
      RemovedSpec(cart, NatToString(productId));
      cart := Removed(cart, NatToString(productId));
    }

    /** `cart_update` with the posted quantity text (None: not posted, which
        reads as 1). Text `int()` rejects raises, and the failed request does
        not save the session. */
    method CartUpdate(productId: nat, posted: Option<string>)
      requires Valid()
      modifies this`cart
      ensures Valid()
      ensures posted.Some? && ParseInt(posted.value).None? ==> cart == old(cart)
      ensures posted.None? ==> cart == WithQuantity(old(cart), NatToString(productId), 1)
      ensures posted.Some? && ParseInt(posted.value).Some? ==>
        cart == WithQuantity(old(cart), NatToString(productId), ParseInt(posted.value).value)
    {
      var quantity := if posted.None? then Some(1) else ParseInt(posted.value);
      if quantity.Some? {
        WithQuantityUpdate(cart, NatToString(productId), quantity.value);
        cart := WithQuantity(cart, NatToString(productId), quantity.value);
      }
    }

    /** `checkout`: an empty cart is left alone (None). Otherwise the total is
        computed, and a POST places the order by emptying the cart. */
    method Checkout(isPost: bool) returns (total: Option<real>)
      requires Valid()
      modifies this`cart
      ensures Valid()
      ensures old(cart) == [] ==> total.None? && cart == []
      ensures old(cart) != [] ==> total == Some(Total(old(cart)))
      ensures old(cart) != [] ==> cart == (if isPost then [] else old(cart))
    {
      if cart == [] {
        return None;
      }
      var t := CartTotal(cart);
      total := Some(t);
      if isPost {
        cart := [];
      }
    }
  }

  /** Setting a quantity keeps the ids distinct. */
  lemma WithQuantityUpdate(cart: seq<Line>, id: string, q: int)
    requires DistinctIds(cart)
    ensures DistinctIds(WithQuantity(cart, id, q))
  {
  }

  /** The loop of `cart_detail` and `checkout`: each line's subtotal
      `price * quantity` added to the running total. */
  method CartTotal(cart: seq<Line>) returns (total: real)
    ensures total == Total(cart)
  {
    total := 0.0;
    var i := 0;
    while i < |cart|
      invariant 0 <= i <= |cart|
      invariant total == Total(cart[..i])
    {
      var subtotal := Subtotal(cart[i].entry);
      assert cart[..i + 1][..i] == cart[..i];
      total := total + subtotal;
      i := i + 1;
    }
    assert cart[..|cart|] == cart;
  }
}
