/**
 * The session/cart store of `AppContext`: the state record, the reducer `appReducer` as a
 * pure `Step`, the action wrappers the provider exposes (with the storage calls of login and
 * logout reduced to an outcome parameter), the derived cart queries and the startup load.
 */
module Store {
  import opened Common
  import opened Entities
  import Seqs

  datatype State = State(
    user: Option<User>,
    isAuthenticated: bool,
    products: seq<Product>,
    cart: seq<CartLine>,
    loading: bool,
    error: Option<string>)

  const InitialState: State := State(None, false, [], [], false, None)

  /** The dispatched actions; `Unrecognized` stands for any other `type` string. */
  datatype Action =
    | SetLoading(loading: bool)
    | SetError(error: Option<string>)
    | SetUser(user: Option<User>)
    | SetProducts(products: seq<Product>)
    | AddToCart(product: Product)
    | RemoveFromCart(productId: int)
    | UpdateCartQuantity(productId: int, quantity: int)
    | ClearCart
    | Logout
    | Unrecognized(tag: string)

  predicate HasLine(cart: seq<CartLine>, id: int)
  {
    exists i | 0 <= i < |cart| :: cart[i].id() == id
  }

  /** At most one cart line per product id. */
  predicate UniqueLines(cart: seq<CartLine>)
  {
    forall i, j | 0 <= i < j < |cart| :: cart[i].id() != cart[j].id()
  }

  /** `cart.find(item => item.id === id)`: the first line for `id`, if any. */
  function LineOf(cart: seq<CartLine>, id: int): (r: Option<CartLine>)
    ensures r.Some? <==> HasLine(cart, id)
    ensures r.Some? ==> r.value in cart && r.value.id() == id
    decreases |cart|
  {
    if |cart| == 0 then None
    else if cart[0].id() == id then Some(cart[0])
    else
      var r := LineOf(cart[1..], id);
      assert HasLine(cart, id) ==> HasLine(cart[1..], id) by {
        if HasLine(cart, id) {
          var i :| 0 <= i < |cart| && cart[i].id() == id;
          assert cart[1..][i - 1].id() == id;
        }
      }
      r
  }

  /** The `map` of the ADD_TO_CART case: every line for `id` gains one unit. */
  function IncrementLine(cart: seq<CartLine>, id: int): seq<CartLine>
  {
    seq(|cart|, i requires 0 <= i < |cart| =>
      if cart[i].id() == id then cart[i].(quantity := cart[i].quantity + 1) else cart[i])
  }

  /** The `filter` of the REMOVE_FROM_CART case. */
  function WithoutLine(cart: seq<CartLine>, id: int): seq<CartLine>
  {
    Seqs.Filter(cart, (l: CartLine) => l.id() != id)
  }

  /** The `map` of the UPDATE_CART_QUANTITY case: every line for `id` gets quantity `q`. */
  function SetLineQuantity(cart: seq<CartLine>, id: int, q: int): seq<CartLine>
  {
    seq(|cart|, i requires 0 <= i < |cart| =>
      if cart[i].id() == id then cart[i].(quantity := q) else cart[i])
  }

  /** `appReducer(state, action)`. */
  function Step(s: State, a: Action): State
  {
    match a
    case SetLoading(b) => s.(loading := b)
    case SetError(e) => s.(error := e, loading := false)
    case SetUser(u) => s.(user := u, isAuthenticated := u.Some?)
    case SetProducts(ps) => s.(products := ps, loading := false)
    case AddToCart(p) =>
      if LineOf(s.cart, p.id).Some? then s.(cart := IncrementLine(s.cart, p.id))
      else s.(cart := s.cart + [CartLine(p, 1)])
    case RemoveFromCart(id) => s.(cart := WithoutLine(s.cart, id))
    case UpdateCartQuantity(id, q) => s.(cart := SetLineQuantity(s.cart, id, q))
    case ClearCart => s.(cart := [])
    case Logout => InitialState.(products := s.products)
    case Unrecognized(_) => s
  }

  // ---------------------------------------------------------------------------------------
  // Derived queries

  /** `getCartItemsCount`: the sum of the line quantities. */
  function ItemsCount(cart: seq<CartLine>): int
    decreases |cart|
  {
    if |cart| == 0 then 0 else cart[0].quantity + ItemsCount(cart[1..])
  }

  /** `getCartTotal`: the sum of listed (undiscounted) price times quantity. */
  function CartTotal(cart: seq<CartLine>): real
    decreases |cart|
  {
    if |cart| == 0 then 0.0 else cart[0].price() * cart[0].quantity as real + CartTotal(cart[1..])
  }

  lemma {:induction false} SumsOfAppend(cart: seq<CartLine>, line: CartLine)
    ensures ItemsCount(cart + [line]) == ItemsCount(cart) + line.quantity
    ensures CartTotal(cart + [line]) == CartTotal(cart) + line.price() * line.quantity as real
    decreases |cart|
  {
    if |cart| > 0 {
      assert (cart + [line])[1..] == cart[1..] + [line];
      SumsOfAppend(cart[1..], line);
    }
  }

  /** Incrementing an id the cart has no line for leaves the cart as it is. */
  lemma IncrementAbsent(cart: seq<CartLine>, id: int)
    requires !HasLine(cart, id)
    ensures IncrementLine(cart, id) == cart
  {
  }

  /**
   * Incrementing the lines for `id` in a cart with unique lines adds one unit and that line's
   * listed price, or nothing when there is no such line.
   */
  lemma {:induction false} IncrementSums(cart: seq<CartLine>, id: int)
    requires UniqueLines(cart)
    ensures ItemsCount(IncrementLine(cart, id)) == ItemsCount(cart) + (if LineOf(cart, id).Some? then 1 else 0)
    ensures CartTotal(IncrementLine(cart, id))
         == CartTotal(cart) + (if LineOf(cart, id).Some? then LineOf(cart, id).value.price() else 0.0)
    decreases |cart|
  {
    if |cart| > 0 {
      var inc := IncrementLine(cart, id);
      assert inc[1..] == IncrementLine(cart[1..], id);
      if cart[0].id() == id {
        assert forall k | 0 <= k < |cart[1..]| :: cart[1..][k].id() != id by {
          forall k | 0 <= k < |cart[1..]|
            ensures cart[1..][k].id() != id
          {
            assert cart[1..][k] == cart[k + 1];
          }
        }
        IncrementAbsent(cart[1..], id);
      } else {
        IncrementSums(cart[1..], id);
      }
    }
  }

  /** A filtered subsequence of a cart with unique lines still has unique lines. */
  lemma {:induction false} UniqueLinesSubseq(a: seq<CartLine>, b: seq<CartLine>)
    requires Seqs.IsSubseq(a, b) && UniqueLines(b)
    ensures UniqueLines(a)
    decreases |b|
  {
    if |a| > 0 {
      if a[0] == b[0] && Seqs.IsSubseq(a[1..], b[1..]) {
        UniqueLinesSubseq(a[1..], b[1..]);
        Seqs.SubseqMembers(a[1..], b[1..]);
        forall j | 0 < j < |a|
          ensures a[0].id() != a[j].id()
        {
          assert a[j] in b[1..];
          var k :| 0 <= k < |b[1..]| && b[1..][k] == a[j];
          assert b[k + 1] == a[j];
        }
      } else {
        UniqueLinesSubseq(a, b[1..]);
      }
    }
  }

  /** Removing the lines for `id` from a cart with unique lines subtracts that line's quantity. */
  lemma {:induction false} RemoveSums(cart: seq<CartLine>, id: int)
    requires UniqueLines(cart)
    ensures ItemsCount(WithoutLine(cart, id))
         == ItemsCount(cart) - (if LineOf(cart, id).Some? then LineOf(cart, id).value.quantity else 0)
    decreases |cart|
  {
    if |cart| > 0 {
      if cart[0].id() == id {
        assert forall l | l in cart[1..] :: l.id() != id by {
          forall l | l in cart[1..]
            ensures l.id() != id
          {
            var i :| 0 <= i < |cart[1..]| && cart[1..][i] == l;
            assert cart[i + 1] == l;
          }
        }
        Seqs.FilterKeepsAll(cart[1..], (l: CartLine) => l.id() != id);
      } else {
        RemoveSums(cart[1..], id);
      }
    }
  }

  /**
   * When every line holds at least one unit, the item count is at least the number of lines,
   * so it is 0 exactly for an empty cart.
   */
  lemma {:induction false} CountAtLeastLines(cart: seq<CartLine>)
    requires forall i | 0 <= i < |cart| :: cart[i].quantity >= 1
    ensures ItemsCount(cart) >= |cart|
    ensures ItemsCount(cart) == 0 <==> cart == []
    decreases |cart|
  {
    if |cart| > 0 {
      assert forall i | 0 <= i < |cart[1..]| :: cart[1..][i] == cart[i + 1];
      CountAtLeastLines(cart[1..]);
    }
  }

  // ---------------------------------------------------------------------------------------
  // Reducer properties

  /**
   * ADD_TO_CART keeps at most one line per product id and raises the item count by exactly one
   * and the total by the listed price of the product's line (the line's own copy when it
   * already existed).
   */
  lemma AddToCartOneLinePerProduct(s: State, p: Product)
    requires UniqueLines(s.cart)
    ensures UniqueLines(Step(s, AddToCart(p)).cart)
    ensures HasLine(Step(s, AddToCart(p)).cart, p.id)
    ensures ItemsCount(Step(s, AddToCart(p)).cart) == ItemsCount(s.cart) + 1
    ensures CartTotal(Step(s, AddToCart(p)).cart)
         == CartTotal(s.cart) + (match LineOf(s.cart, p.id) case Some(l) => l.price() case None => p.price)
  {
    var c := Step(s, AddToCart(p)).cart;
    if LineOf(s.cart, p.id).Some? {
      IncrementSums(s.cart, p.id);
      var i :| 0 <= i < |s.cart| && s.cart[i].id() == p.id;
      assert c[i].id() == p.id;
    } else {
      SumsOfAppend(s.cart, CartLine(p, 1));
      assert c[|s.cart|].id() == p.id;
    }
  }

  /**
   * ADD_TO_CART on a product already in the cart adds one unit to that line only, in place;
   * on a new product it appends `{...product, quantity: 1}` after the existing lines.
   */
  lemma AddToCartShape(s: State, p: Product)
    ensures var c := Step(s, AddToCart(p)).cart;
      if HasLine(s.cart, p.id) then
        |c| == |s.cart| &&
        forall i | 0 <= i < |c| ::
          c[i].product == s.cart[i].product &&
          c[i].quantity == s.cart[i].quantity + (if s.cart[i].id() == p.id then 1 else 0)
      else c == s.cart + [CartLine(p, 1)]
    ensures Step(s, AddToCart(p)).(cart := s.cart) == s
  {
  }

  /**
   * REMOVE_FROM_CART drops every line for the id, keeps the other lines in their order, is a
   * no-op for an absent id, and in a cart with unique lines takes away that line's quantity.
   */
  lemma RemoveFromCartEffect(s: State, id: int)
    ensures var c := Step(s, RemoveFromCart(id)).cart;
      && Seqs.IsSubseq(c, s.cart)
      && !HasLine(c, id)
      && (forall l | l in s.cart && l.id() != id :: l in c)
      && (!HasLine(s.cart, id) ==> c == s.cart)
    ensures UniqueLines(s.cart) ==> UniqueLines(Step(s, RemoveFromCart(id)).cart)
    ensures UniqueLines(s.cart) ==>
      ItemsCount(Step(s, RemoveFromCart(id)).cart)
        == ItemsCount(s.cart) - (if LineOf(s.cart, id).Some? then LineOf(s.cart, id).value.quantity else 0)
    ensures Step(s, RemoveFromCart(id)).(cart := s.cart) == s
  {
    var c := Step(s, RemoveFromCart(id)).cart;
    var keep := (l: CartLine) => l.id() != id;
    assert c == Seqs.Filter(s.cart, keep);
    forall i | 0 <= i < |c|
      ensures c[i].id() != id
    {
      assert c[i] in c;
    }
    if !HasLine(s.cart, id) {
      Seqs.FilterKeepsAll(s.cart, keep);
    }
    if UniqueLines(s.cart) {
      UniqueLinesSubseq(c, s.cart);
      RemoveSums(s.cart, id);
    }
  }

  /** CLEAR_CART empties the cart and touches nothing else. */
  lemma ClearCartEffect(s: State)
    ensures Step(s, ClearCart).cart == [] && ItemsCount(Step(s, ClearCart).cart) == 0
    ensures Step(s, ClearCart).(cart := s.cart) == s
  {
  }

  /**
   * LOGOUT yields the initial state except that the product list survives: no user, not
   * authenticated, empty cart, not loading, no error.
   */
  lemma LogoutResets(s: State)
    ensures var r := Step(s, Logout);
      && r.user.None? && !r.isAuthenticated && r.cart == [] && ItemsCount(r.cart) == 0
      && !r.loading && r.error.None? && r.products == s.products
  {
  }

  /**
   * The field effects of the simple actions: SET_USER authenticates exactly for a present user,
   * SET_ERROR and SET_PRODUCTS stop loading, and unrecognised actions change nothing.
   */
  lemma SimpleActionEffects(s: State, b: bool, e: Option<string>, u: Option<User>, ps: seq<Product>, tag: string)
    ensures Step(s, SetLoading(b)) == s.(loading := b)
    ensures Step(s, SetError(e)).error == e && !Step(s, SetError(e)).loading
    ensures Step(s, SetError(e)).(error := s.error, loading := s.loading) == s
    ensures Step(s, SetUser(u)).isAuthenticated <==> u.Some?
    ensures Step(s, SetUser(u)).(user := s.user, isAuthenticated := s.isAuthenticated) == s
    ensures Step(s, SetProducts(ps)).products == ps && !Step(s, SetProducts(ps)).loading
    ensures Step(s, SetProducts(ps)).(products := s.products, loading := s.loading) == s
    ensures Step(s, Unrecognized(tag)) == s
  {
  }

  // ---------------------------------------------------------------------------------------
  // The provider's action functions

  /** The outcome of an AsyncStorage write or remove. */
  datatype StorageOutcome = StorageOk | StorageFail

  /** The store state after an action function, and whether the returned promise rejects. */
  datatype Effect = Effect(state: State, threw: bool)

  /**
   * `login(userData)`: persist, then dispatch SET_USER. A failed write rethrows and dispatches
   * nothing, so the store is never authenticated by a login whose write failed.
   */
  function Login(s: State, user: User, write: StorageOutcome): (e: Effect)
    ensures write == StorageFail ==> e == Effect(s, true)
    ensures write == StorageOk ==>
      && !e.threw && e.state.isAuthenticated && e.state.user == Some(user)
      && e.state.(user := s.user, isAuthenticated := s.isAuthenticated) == s
  {
    match write
    case StorageOk => Effect(Step(s, SetUser(Some(user))), false)
    case StorageFail => Effect(s, true)
  }

  /**
   * `logout()`: remove the stored session, then dispatch LOGOUT. A failed remove is logged and
   * swallowed and LOGOUT is skipped, so the state (and any authentication) stays as it was.
   */
  function LogoutCall(s: State, remove: StorageOutcome): (r: State)
    ensures remove == StorageFail ==> r == s
    ensures remove == StorageOk ==> !r.isAuthenticated && r.user.None? && r.cart == [] && r.products == s.products
    ensures remove == StorageOk ==> r == InitialState.(products := s.products)
  {
    match remove
    case StorageOk => Step(s, Logout)
    case StorageFail => s
  }

  /**
   * `updateCartQuantity(id, q)`: a non-positive quantity removes the line; a positive one
   * overwrites the line's quantity with exactly `q` and leaves the cart alone when `id` is absent.
   */
  function UpdateCartQuantityCall(s: State, id: int, q: int): (r: State)
    ensures q <= 0 ==> r == Step(s, RemoveFromCart(id))
    ensures q > 0 ==>
      && |r.cart| == |s.cart|
      && (forall i | 0 <= i < |r.cart| ::
            r.cart[i].product == s.cart[i].product &&
            r.cart[i].quantity == (if s.cart[i].id() == id then q else s.cart[i].quantity))
      && (!HasLine(s.cart, id) ==> r.cart == s.cart)
      && r.(cart := s.cart) == s
  {
    if q <= 0 then Step(s, RemoveFromCart(id))
    else Step(s, UpdateCartQuantity(id, q))
  }

  /** What the startup read of the stored session produced. */
  datatype SessionRead =
    | ReadFailed            // AsyncStorage.getItem threw
    | NothingStored         // null or empty string
    | Unparsable            // JSON.parse threw
    | Parsed(value: Option<User>)

  /**
   * The startup load: a parsed record is dispatched with SET_USER without any re-validation;
   * a missing value or any failure is swallowed and leaves the state as it is.
   */
  function LoadSession(s: State, read: SessionRead): (r: State)
    ensures !read.Parsed? ==> r == s
    ensures read.Parsed? ==> r.user == read.value && (r.isAuthenticated <==> read.value.Some?)
    ensures r.cart == s.cart && r.products == s.products
    ensures r.(user := s.user, isAuthenticated := s.isAuthenticated) == s
  {
    match read
    case Parsed(u) => Step(s, SetUser(u))
    case _ => s
  }

  /** A call a screen makes on the store, with the storage outcome where there is one. */
  datatype Call =
    | CallSetLoading(loading: bool)
    | CallSetError(error: Option<string>)
    | CallLogin(user: User, write: StorageOutcome)
    | CallLogout(remove: StorageOutcome)
    | CallSetProducts(products: seq<Product>)
    | CallAddToCart(product: Product)
    | CallRemoveFromCart(productId: int)
    | CallUpdateCartQuantity(productId: int, quantity: int)
    | CallClearCart
    | CallLoadSession(read: SessionRead)

  function Run(s: State, c: Call): State
  {
    match c
    case CallSetLoading(b) => Step(s, SetLoading(b))
    case CallSetError(e) => Step(s, SetError(e))
    case CallLogin(u, w) => Login(s, u, w).state
    case CallLogout(w) => LogoutCall(s, w)
    case CallSetProducts(ps) => Step(s, SetProducts(ps))
    case CallAddToCart(p) => Step(s, AddToCart(p))
    case CallRemoveFromCart(id) => Step(s, RemoveFromCart(id))
    case CallUpdateCartQuantity(id, q) => UpdateCartQuantityCall(s, id, q)
    case CallClearCart => Step(s, ClearCart)
    case CallLoadSession(r) => LoadSession(s, r)
  }

  /**
   * The store's invariant: one line per product, every quantity at least one, and
   * `isAuthenticated` mirroring the presence of a user.
   */
  predicate Valid(s: State)
  {
    && UniqueLines(s.cart)
    && (forall i | 0 <= i < |s.cart| :: s.cart[i].quantity >= 1)
    && (s.isAuthenticated <==> s.user.Some?)
  }

  lemma InitialStateValid()
    ensures Valid(InitialState)
  {
  }

  /** Every call the screens can make keeps the invariant. */
  lemma RunPreservesValid(s: State, c: Call)
    requires Valid(s)
    ensures Valid(Run(s, c))
  {
    match c
    case CallAddToCart(p) =>
      AddToCartPreservesValid(s, p);
    case CallRemoveFromCart(id) =>
      RemoveFromCartPreservesValid(s, id);
    case CallUpdateCartQuantity(id, q) =>
      if q <= 0 {
        RemoveFromCartPreservesValid(s, id);
      } else {
        SetQuantityPreservesValid(s, id, q);
      }
    case _ =>
  }

  lemma AddToCartPreservesValid(s: State, p: Product)
    requires Valid(s)
    ensures Valid(Step(s, AddToCart(p)))
  {
    AddToCartOneLinePerProduct(s, p);
  }

  lemma SetQuantityPreservesValid(s: State, id: int, q: int)
    requires Valid(s) && q > 0
    ensures Valid(Step(s, UpdateCartQuantity(id, q)))
  {
    var c := Step(s, UpdateCartQuantity(id, q)).cart;
    assert forall i | 0 <= i < |c| :: c[i].id() == s.cart[i].id();
  }

  lemma RemoveFromCartPreservesValid(s: State, id: int)
    requires Valid(s)
    ensures Valid(Step(s, RemoveFromCart(id)))
  {
    RemoveFromCartEffect(s, id);
    var c := Step(s, RemoveFromCart(id)).cart;
    Seqs.SubseqMembers(c, s.cart);
    forall i | 0 <= i < |c|
      ensures c[i].quantity >= 1
    {
      assert c[i] in s.cart;
    }
  }
}
