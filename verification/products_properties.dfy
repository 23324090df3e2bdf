/** Properties of the product service that relate several calls or hold
    across any sequence of them: orders are append-only audit records of a
    fixed shape, listing ids stay unique, purchases and removals show up in
    the history queries, and the sweep deletes only what has expired. */
module ProductsProperties {
  import opened Common
  import opened UserAccounts
  import opened ProductItems
  import opened Products

  /** No two listings share an id. */
  ghost predicate ItemIdsUnique(items: seq<ProductItem>)
  {
    forall i, j :: 0 <= i < j < |items| ==> items[i].id != items[j].id
  }

  /** The shape of every order the service writes: a write-off has no
      customer and costs nothing; a sale has a customer. */
  ghost predicate OrdersWellFormed(orders: seq<Order>)
  {
    forall k :: 0 <= k < |orders| ==>
      (orders[k].isRemoval <==> orders[k].customer.None?)
      && (orders[k].isRemoval ==> orders[k].cost == 0)
  }

  /** One call to the service. */
  datatype ProductOp =
    | Add(dto: ProductItemDto, user: Account)
    | Update(dto: ProductItemDto, user: Account)
    | Remove(itemId: ItemId, farmerId: AccountId, user: Account)
    | Buy(customerId: AccountId, itemId: ItemId, quantity: Int32, user: Account)
    | BuyBag(customerId: AccountId, itemId: ItemId, user: Account)
    | CreateBag(startTime: int, endTime: int, quantity: Int32, user: Account)
    | Sweep

  /** The store after one call at time `now`; a call that throws rolls its
      transaction back. */
  function Apply(s: Store, op: ProductOp, now: int): Store
  {
    match op
    case Add(dto, u) => (match AddProduct(s, dto, u) case Ok(r) => r.0 case Err(_) => s)
    case Update(dto, u) => (match UpdateProduct(s, dto, u) case Ok(r) => r case Err(_) => s)
    case Remove(i, f, u) => (match RemoveProduct(s, i, f, u, now) case Ok(r) => r.0 case Err(_) => s)
    case Buy(c, i, q, u) => (match BuyProduct(s, c, i, q, u, now) case Ok(r) => r.0 case Err(_) => s)
    case BuyBag(c, i, u) => (match BuySurpriseBag(s, c, i, u, now) case Ok(r) => r.0 case Err(_) => s)
    case CreateBag(st, en, q, u) => (match CreateSurpriseBag(s, st, en, q, u) case Ok(r) => r.0 case Err(_) => s)
    case Sweep => CleanUpExpiredSurpriseBags(s, now)
  }

  /** The store after a sequence of calls, each with its own time. */
  function ApplyAll(s: Store, ops: seq<(ProductOp, int)>): Store
    decreases |ops|
  {
    if |ops| == 0 then s else ApplyAll(Apply(s, ops[0].0, ops[0].1), ops[1..])
  }

  // ----- role guards -----

  /** The role guards read only the caller's granted authority: two callers
      with the same authority fare the same at both guards, no caller passes
      both, and an administrator passes neither. */
  lemma {:induction false} RoleGuardsFollowAuthority(a: Account, b: Account)
    ensures Authorities(a) == Authorities(b) ==>
      CheckFarmerRole(a) == CheckFarmerRole(b) && CheckCustomerRole(a) == CheckCustomerRole(b)
    ensures CheckFarmerRole(a).Some? || CheckCustomerRole(a).Some?
    ensures a.userType == ADMIN ==> CheckFarmerRole(a) == Some(Forbidden) && CheckCustomerRole(a) == Some(Forbidden)
  {
    AuthorityIdentifiesRole(a, b);
  }

  // ----- listing ids -----

  /** Changing one listing without changing its id keeps ids unique. */
  lemma ReplaceKeepsIdsUnique(items: seq<ProductItem>, k: nat, p: ProductItem)
    requires ItemIdsUnique(items) && k < |items| && p.id == items[k].id
    ensures ItemIdsUnique(items[k := p])
  {
  }

  /** Appending a listing with an id no listing has keeps ids unique. */
  lemma AppendKeepsIdsUnique(items: seq<ProductItem>, p: ProductItem)
    requires ItemIdsUnique(items)
    requires forall j :: 0 <= j < |items| ==> items[j].id != p.id
    ensures ItemIdsUnique(items + [p])
  {
  }

  /** A listing's id differs from the id of every listing after it. */
  lemma HeadIdFresh(items: seq<ProductItem>)
    requires ItemIdsUnique(items) && |items| > 0
    ensures ItemIdsUnique(items[1..])
    ensures forall x :: x in items[1..] ==> x.id != items[0].id
  {
    var tail := items[1..];
    forall x | x in tail
      ensures x.id != items[0].id
    {
      var m :| 0 <= m < |tail| && tail[m] == x;
      assert items[m + 1] == x;
    }
    forall i, j | 0 <= i < j < |tail|
      ensures tail[i].id != tail[j].id
    {
      assert tail[i] == items[i + 1] && tail[j] == items[j + 1];
    }
  }

  /** Putting a listing in front of others with other ids keeps ids unique. */
  lemma ConsKeepsIdsUnique(p: ProductItem, rest: seq<ProductItem>)
    requires ItemIdsUnique(rest)
    requires forall x :: x in rest ==> x.id != p.id
    ensures ItemIdsUnique([p] + rest)
  {
    var r := [p] + rest;
    forall i, j | 0 <= i < j < |r|
      ensures r[i].id != r[j].id
    {
      assert r[j] == rest[j - 1];
      if i > 0 {
        assert r[i] == rest[i - 1];
      }
    }
  }

  /** Deleting listings keeps ids unique. */
  lemma {:induction false} FilterKeepsIdsUnique(items: seq<ProductItem>, keep: ProductItem -> bool)
    requires ItemIdsUnique(items)
    ensures ItemIdsUnique(Filter(items, keep))
    decreases |items|
  {
    if |items| > 0 {
      HeadIdFresh(items);
      FilterKeepsIdsUnique(items[1..], keep);
      if keep(items[0]) {
        ConsKeepsIdsUnique(items[0], Filter(items[1..], keep));
      }
    }
  }

  /** Every call keeps listing ids unique: new listings get fresh ids,
      changed listings keep theirs, the sweep only deletes. */
  lemma {:induction false} ApplyKeepsIdsUnique(s: Store, op: ProductOp, now: int)
    requires ItemIdsUnique(s.items)
    ensures ItemIdsUnique(Apply(s, op, now).items)
  {
    match op
    case Add(dto, u) =>
      if AddProduct(s, dto, u).Ok? {
        var s' := AddProduct(s, dto, u).value.0;
        AppendKeepsIdsUnique(s.items, s'.items[|s.items|]);
        assert s'.items == s.items + [s'.items[|s.items|]];
      }
    case Update(dto, u) =>
      if UpdateProduct(s, dto, u).Ok? {
        var k := FindItem(s.items, dto.id.value).value;
        ReplaceKeepsIdsUnique(s.items, k, Patch(s.items[k], dto));
      }
    case Remove(i, f, u) =>
      if RemoveProduct(s, i, f, u, now).Ok? {
        var k := FindItem(s.items, i).value;
        ReplaceKeepsIdsUnique(s.items, k, s.items[k].(deleted := true));
      }
    case Buy(c, i, q, u) =>
      if BuyProduct(s, c, i, q, u, now).Ok? {
        var k := FindItem(s.items, i).value;
        ReplaceKeepsIdsUnique(s.items, k, s.items[k].(quantity := Wrap32(s.items[k].quantity - q)));
      }
    case BuyBag(c, i, u) =>
      if BuySurpriseBag(s, c, i, u, now).Ok? {
        var k := FindItem(s.items, i).value;
        ReplaceKeepsIdsUnique(s.items, k, s.items[k].(quantity := s.items[k].quantity - 1));
      }
    case CreateBag(st, en, q, u) =>
      if CreateSurpriseBag(s, st, en, q, u).Ok? {
        AppendKeepsIdsUnique(s.items, CreateSurpriseBag(s, st, en, q, u).value.1);
      }
    case Sweep =>
      FilterKeepsIdsUnique(s.items, (p: ProductItem) => !Expired(p, now));
  }

  /** Listing ids stay unique under any sequence of calls. */
  lemma {:induction false} ItemIdsStayUnique(s: Store, ops: seq<(ProductOp, int)>)
    requires ItemIdsUnique(s.items)
    ensures ItemIdsUnique(ApplyAll(s, ops).items)
    decreases |ops|
  {
    if |ops| > 0 {
      ApplyKeepsIdsUnique(s, ops[0].0, ops[0].1);
      ItemIdsStayUnique(Apply(s, ops[0].0, ops[0].1), ops[1..]);
    }
  }

  // ----- the order log -----

  /** Appending a well-formed order to a well-formed log keeps it well-formed. */
  lemma AppendKeepsWellFormed(orders: seq<Order>, o: Order)
    requires OrdersWellFormed(orders)
    requires (o.isRemoval <==> o.customer.None?) && (o.isRemoval ==> o.cost == 0)
    ensures OrdersWellFormed(orders + [o])
  {
    var r := orders + [o];
    forall k | 0 <= k < |r|
      ensures (r[k].isRemoval <==> r[k].customer.None?) && (r[k].isRemoval ==> r[k].cost == 0)
    {
      if k < |orders| {
        assert r[k] == orders[k];
      }
    }
  }

  /** Every call either leaves the orders alone or appends one well-formed order. */
  lemma {:induction false} ApplyAppendsOrders(s: Store, op: ProductOp, now: int)
    ensures var r := Apply(s, op, now).orders;
      && s.orders <= r && |r| <= |s.orders| + 1
      && (OrdersWellFormed(s.orders) ==> OrdersWellFormed(r))
  {
    match op
    case Remove(i, f, u) =>
      var res := RemoveProduct(s, i, f, u, now);
      if res.Ok? {
        var o := res.value.1;
        assert res.value.0.orders == s.orders + [o];
        if OrdersWellFormed(s.orders) {
          AppendKeepsWellFormed(s.orders, o);
        }
      }
    case Buy(c, i, q, u) =>
      var res := BuyProduct(s, c, i, q, u, now);
      if res.Ok? {
        var o := res.value.1;
        assert res.value.0.orders == s.orders + [o];
        if OrdersWellFormed(s.orders) {
          AppendKeepsWellFormed(s.orders, o);
        }
      }
    case BuyBag(c, i, u) =>
      var res := BuySurpriseBag(s, c, i, u, now);
      if res.Ok? {
        var o := res.value.1;
        assert res.value.0.orders == s.orders + [o];
        if OrdersWellFormed(s.orders) {
          AppendKeepsWellFormed(s.orders, o);
        }
      }
    case _ =>
  }

  /** Orders are append-only and keep their shape under any sequence of calls:
      no order is ever changed or deleted, not even by the sweep. */
  lemma {:induction false} OrdersAppendOnly(s: Store, ops: seq<(ProductOp, int)>)
    ensures s.orders <= ApplyAll(s, ops).orders
    ensures OrdersWellFormed(s.orders) ==> OrdersWellFormed(ApplyAll(s, ops).orders)
    decreases |ops|
  {
    if |ops| > 0 {
      ApplyAppendsOrders(s, ops[0].0, ops[0].1);
      OrdersAppendOnly(Apply(s, ops[0].0, ops[0].1), ops[1..]);
    }
  }

  // ----- buying -----

  /** Buying a non-negative quantity takes exactly that much stock: the new
      stock plus the quantity is the old stock, and stock stays non-negative. */
  lemma BuyTakesStock(s: Store, customerId: AccountId, itemId: ItemId, quantity: Int32, user: Account, now: int)
    requires BuyProduct(s, customerId, itemId, quantity, user, now).Ok?
    requires quantity >= 0
    ensures var k := FindItem(s.items, itemId).value;
      var q := BuyProduct(s, customerId, itemId, quantity, user, now).value.0.items[k].quantity;
      && q + quantity == s.items[k].quantity
      && 0 <= q < s.items[k].quantity + (if quantity == 0 then 1 else 0)
  {
  }

  /** Since the quantity is not checked, a negative one adds stock, and at
      the top of Java's `int` range it wraps around to negative stock. */
  lemma {:induction false} NegativeQuantityAddsStock(farmer: Account, customer: Account, now: int)
    requires farmer.userType == FARMER && farmer.id == 1
    requires customer.userType == CUSTOMER && customer.id == 2
    ensures var p := ProductItem(Some(7), Some("Apples"), 10, Some(200), None, false, 0, 0, false, Some(1));
      var s := Store([farmer, customer], [p], []);
      var r := BuyProduct(s, 2, 7, -5, customer, now);
      && r.Ok? && r.value.0.items[0].quantity == 15 && r.value.1.cost == -1000
    ensures var p := ProductItem(Some(7), Some("Apples"), 0x7FFF_FFFF, Some(200), None, false, 0, 0, false, Some(1));
      var s := Store([farmer, customer], [p], []);
      var r := BuyProduct(s, 2, 7, -1, customer, now);
      && r.Ok? && r.value.0.items[0].quantity == -0x8000_0000
  {
    var p := ProductItem(Some(7), Some("Apples"), 10, Some(200), None, false, 0, 0, false, Some(1));
    var s := Store([farmer, customer], [p], []);
    assert FindItem(s.items, 7) == Some(0);
    assert s.accounts[0].userType != CUSTOMER && s.accounts[1] == customer;
    assert FindCustomerById(s.accounts, 2) == Some(1);
    var p2 := p.(quantity := 0x7FFF_FFFF);
    var s2 := Store([farmer, customer], [p2], []);
    assert FindItem(s2.items, 7) == Some(0);
    assert FindCustomerById(s2.accounts, 2) == Some(1);
    assert Wrap32(0x7FFF_FFFF - -1) == -0x8000_0000;
  }

  /** A successful purchase is the one new entry of the customer's purchase
      history, and its listing is among the farmer's sold listings. */
  lemma {:induction false} PurchaseIsRecorded(s: Store, customerId: AccountId, itemId: ItemId, quantity: Int32,
                                              user: Account, now: int)
    requires BuyProduct(s, customerId, itemId, quantity, user, now).Ok?
    ensures var (s', o) := BuyProduct(s, customerId, itemId, quantity, user, now).value;
      && PurchasedProducts(s, customerId).Ok?
      && PurchasedProducts(s', customerId) == Ok(PurchasedProducts(s, customerId).value + [o])
      && (forall farmerId, u :: o.farmer == Some(farmerId) && SoldProducts(s', farmerId, u).Ok?
            ==> itemId in SoldProducts(s', farmerId, u).value)
  {
    var (s', o) := BuyProduct(s, customerId, itemId, quantity, user, now).value;
    FilterAppend(s.orders, o, (o: Order) => IsPurchaseBy(o, customerId));
    forall farmerId, u | o.farmer == Some(farmerId) && SoldProducts(s', farmerId, u).Ok?
      ensures itemId in SoldProducts(s', farmerId, u).value
    {
      var k := |s.orders|;
      assert s'.orders[k] == o && IsSaleBy(s'.orders[k], farmerId) && s'.orders[k].item == itemId;
    }
  }

  /** A surprise-bag purchase takes exactly one bag and records one sale of
      quantity one at the unit price. */
  lemma BagPurchaseTakesOne(s: Store, customerId: AccountId, itemId: ItemId, user: Account, now: int)
    requires BuySurpriseBag(s, customerId, itemId, user, now).Ok?
    ensures var (s', o) := BuySurpriseBag(s, customerId, itemId, user, now).value;
      var k := FindItem(s.items, itemId).value;
      && s'.items[k].quantity + 1 == s.items[k].quantity
      && s'.items[k].quantity >= 0
      && |s'.orders| == |s.orders| + 1 && o.quantity == 1 && o.cost == s.items[k].price.value
  {
  }

  /** A listing that is not a surprise bag cannot be bought as one, even on
      behalf of a customer that does not exist. */
  lemma NotABagIsBadRequest(s: Store, customerId: AccountId, itemId: ItemId, user: Account, now: int)
    requires user.userType == CUSTOMER && FindItem(s.items, itemId).Some?
    requires !s.items[FindItem(s.items, itemId).value].isSurpriseBag
    requires FindCustomerById(s.accounts, customerId).None?
    ensures BuySurpriseBag(s, customerId, itemId, user, now) == Err(BadRequest)
    ensures BuyProduct(s, customerId, itemId, 1, user, now) == Err(NotFound)
  {
  }

  // ----- removal -----

  /** A removed listing stays in the store (soft delete) with its stock, is
      never available again, its write-off is the one new entry of the
      farmer's removal history, and it leaves the farmer's own list. */
  lemma {:induction false} RemovalIsSoft(s: Store, itemId: ItemId, farmerId: AccountId, user: Account, now: int, t: int)
    requires RemoveProduct(s, itemId, farmerId, user, now).Ok?
    ensures var (s', o) := RemoveProduct(s, itemId, farmerId, user, now).value;
      var k := FindItem(s.items, itemId).value;
      && FindItem(s'.items, itemId) == Some(k)
      && s'.items[k].deleted && s'.items[k].quantity == s.items[k].quantity
      && !IsAvailable(s'.items[k], t)
      && s'.items[k] !in AvailableSurpriseBags(s', t)
      && o.cost == 0 && o.quantity == s.items[k].quantity && o.isRemoval
      && RemovedHistory(s, farmerId).Ok?
      && RemovedHistory(s', farmerId) == Ok(RemovedHistory(s, farmerId).value + [o])
      && itemId in FarmerListings(s'.items, farmerId)
      && FarmerListings(s'.items, farmerId) == FarmerListings(s.items, farmerId)
  {
    var (s', o) := RemoveProduct(s, itemId, farmerId, user, now).value;
    var k := FindItem(s.items, itemId).value;
    assert forall j :: 0 <= j < k ==> s'.items[j] == s.items[j];
    assert s'.items[k].id == Some(itemId);
    assert FindItem(s'.items, itemId) == Some(k);
    FilterAppend(s.orders, o, (o: Order) => IsRemovalBy(o, farmerId));
    OwnerKeepingUpdateKeepsListings(s.items, k, s'.items[k], farmerId);
  }

  /** Replacing a listing by one with the same id and owner leaves every
      farmer's list as it was. */
  lemma {:induction false} OwnerKeepingUpdateKeepsListings(items: seq<ProductItem>, k: nat, q: ProductItem, farmerId: AccountId)
    requires k < |items| && q.id == items[k].id && q.farmer == items[k].farmer
    ensures FarmerListings(items[k := q], farmerId) == FarmerListings(items, farmerId)
    decreases k
  {
    var items' := items[k := q];
    if k == 0 {
      assert items'[1..] == items[1..];
    } else {
      assert items'[1..] == items[1..][k - 1 := q];
      OwnerKeepingUpdateKeepsListings(items[1..], k - 1, q, farmerId);
    }
  }

  /** A listing the store gains at its end joins its owner's list, after the
      ones already there. */
  lemma {:induction false} AppendedListingJoinsList(items: seq<ProductItem>, p: ProductItem, farmerId: AccountId)
    requires p.farmer == Some(farmerId) && p.id.Some?
    ensures FarmerListings(items + [p], farmerId) == FarmerListings(items, farmerId) + [p.id.value]
    decreases |items|
  {
    if |items| == 0 {
      assert items + [p] == [p];
    } else {
      assert (items + [p])[1..] == items[1..] + [p];
      AppendedListingJoinsList(items[1..], p, farmerId);
    }
  }

  /** A product a farmer lists joins the end of that farmer's list; no other
      farmer's list changes. */
  lemma AddedProductIsListed(s: Store, dto: ProductItemDto, user: Account, other: AccountId)
    requires AddProduct(s, dto, user).Ok?
    ensures var (s', _) := AddProduct(s, dto, user).value;
      var farmerId := s.accounts[FindFarmerByLogin(s.accounts, user.login).value].id;
      var p := s'.items[|s.items|];
      && FarmerListings(s'.items, farmerId) == FarmerListings(s.items, farmerId) + [p.id.value]
      && (other != farmerId ==> FarmerListings(s'.items, other) == FarmerListings(s.items, other))
  {
    var (s', _) := AddProduct(s, dto, user).value;
    var p := s'.items[|s.items|];
    assert s'.items == s.items + [p];
    AppendedListingJoinsList(s.items, p, p.farmer.value);
    if other != p.farmer.value {
      AppendedOtherListing(s.items, p, other);
    }
  }

  /** A surprise bag a farmer creates joins the end of that farmer's list;
      no other farmer's list changes. */
  lemma CreatedBagIsListed(s: Store, startTime: int, endTime: int, quantity: Int32, user: Account, other: AccountId)
    requires CreateSurpriseBag(s, startTime, endTime, quantity, user).Ok?
    ensures var (s', p) := CreateSurpriseBag(s, startTime, endTime, quantity, user).value;
      var farmerId := s.accounts[FindFarmerByLogin(s.accounts, user.login).value].id;
      && FarmerListings(s'.items, farmerId) == FarmerListings(s.items, farmerId) + [p.id.value]
      && (other != farmerId ==> FarmerListings(s'.items, other) == FarmerListings(s.items, other))
  {
    var (s', p) := CreateSurpriseBag(s, startTime, endTime, quantity, user).value;
    AppendedListingJoinsList(s.items, p, p.farmer.value);
    if other != p.farmer.value {
      AppendedOtherListing(s.items, p, other);
    }
  }

  /** A listing appended under another owner leaves a farmer's list as it was. */
  lemma {:induction false} AppendedOtherListing(items: seq<ProductItem>, p: ProductItem, farmerId: AccountId)
    requires p.farmer != Some(farmerId)
    ensures FarmerListings(items + [p], farmerId) == FarmerListings(items, farmerId)
    decreases |items|
  {
    if |items| == 0 {
      assert items + [p] == [p];
    } else {
      assert (items + [p])[1..] == items[1..] + [p];
      AppendedOtherListing(items[1..], p, farmerId);
    }
  }

  // ----- the sweep and availability -----

  /** A bag that is available now is not deleted by a sweep now. */
  lemma AvailableBagSurvivesSweep(s: Store, now: int, p: ProductItem)
    requires p in AvailableSurpriseBags(s, now)
    ensures p in CleanUpExpiredSurpriseBags(s, now).items
  {
  }

  /** A sweep changes nothing about which bags are available at the time it
      runs, nor their order. */
  lemma {:induction false} SweepKeepsAvailableBags(s: Store, now: int)
    ensures AvailableSurpriseBags(CleanUpExpiredSurpriseBags(s, now), now) == AvailableSurpriseBags(s, now)
  {
    var notExpired := (p: ProductItem) => !Expired(p, now);
    var active := (p: ProductItem) => ActiveBag(p);
    var avail := (p: ProductItem) => IsAvailable(p, now);
    var activeLive := (p: ProductItem) => ActiveBag(p) && !Expired(p, now);
    var activeLiveAvail := (p: ProductItem) => ActiveBag(p) && !Expired(p, now) && IsAvailable(p, now);
    var activeAvail := (p: ProductItem) => ActiveBag(p) && IsAvailable(p, now);
    var swept := Filter(s.items, notExpired);
    FilterExtensional(Filter(swept, ActiveBag), ActiveBag, active);
    FilterCompose(s.items, notExpired, active, activeLive);
    FilterExtensional(s.items, (p: ProductItem) => notExpired(p) && active(p), activeLive);
    FilterCompose(s.items, activeLive, avail, activeLiveAvail);
    FilterExtensional(s.items, activeLiveAvail, activeAvail);
    FilterCompose(s.items, active, avail, activeAvail);
    FilterExtensional(s.items, ActiveBag, active);
    assert Filter(swept, ActiveBag) == Filter(s.items, activeLive) by {
      FilterExtensional(swept, ActiveBag, active);
      FilterCompose(s.items, notExpired, active, activeLive);
    }
  }

  /** Sweeping twice at the same time is sweeping once. */
  lemma {:induction false} SweepIdempotent(s: Store, now: int)
    ensures CleanUpExpiredSurpriseBags(CleanUpExpiredSurpriseBags(s, now), now) == CleanUpExpiredSurpriseBags(s, now)
  {
    var notExpired := (p: ProductItem) => !Expired(p, now);
    FilterCompose(s.items, notExpired, notExpired, notExpired);
  }

  // ----- updating -----

  /** A partial update applied twice is applied once, and one that supplies
      nothing leaves a regular listing as it was. */
  lemma PatchIdempotent(p: ProductItem, dto: ProductItemDto)
    ensures Patch(Patch(p, dto), dto) == Patch(p, dto)
    ensures (&& !p.isSurpriseBag && dto.name.None? && dto.price.None?
             && dto.imgUrl.None? && dto.quantity < 0) ==> Patch(p, dto) == p
  {
  }

  /** An update keeps the listing where it is, with its id, owner, kind and
      soft-delete flag, so the owner can still find and update it. */
  lemma {:induction false} UpdateKeepsOwnership(s: Store, dto: ProductItemDto, user: Account)
    requires UpdateProduct(s, dto, user).Ok?
    ensures var s' := UpdateProduct(s, dto, user).value;
      var k := FindItem(s.items, dto.id.value).value;
      && FindItem(s'.items, dto.id.value) == Some(k)
      && s'.items[k].farmer == s.items[k].farmer && s'.items[k].deleted == s.items[k].deleted
      && s'.items[k].isSurpriseBag == s.items[k].isSurpriseBag
      && UpdateProduct(s', dto, user).Ok?
  {
    var s' := UpdateProduct(s, dto, user).value;
    var k := FindItem(s.items, dto.id.value).value;
    assert forall j :: 0 <= j < k ==> s'.items[j] == s.items[j];
    assert s'.items[k].id == dto.id;
    assert FindItem(s'.items, dto.id.value) == Some(k);
  }

  // ----- worked examples -----

  /** Farmer F lists 10 units at 2.00; customer C buys 3: the order costs
      6.00, 7 units remain, and C's purchase history is that one order. */
  lemma {:induction false} ExampleBuyThree(f: Account, c: Account, now: int)
    requires f.userType == FARMER && f.id == 1 && f.login == "farmer@farm.com"
    requires c.userType == CUSTOMER && c.id == 2 && c.login == "customer@farm.com"
    ensures var dto := ProductItemDto(None, Some("Carrots"), 10, Some(200), None, false, 0, 0, None);
      var added := AddProduct(Store([f, c], [], []), dto, f);
      && added.Ok?
      && var s := added.value.0;
         var id := s.items[0].id.value;
         var bought := BuyProduct(s, 2, id, 3, c, now);
         && bought.Ok?
         && bought.value.1.cost == 600
         && bought.value.0.items[0].quantity == 7
         && PurchasedProducts(bought.value.0, 2) == Ok([bought.value.1])
         && bought.value.1.quantity == 3
  {
    var dto := ProductItemDto(None, Some("Carrots"), 10, Some(200), None, false, 0, 0, None);
    var s0 := Store([f, c], [], []);
    assert FindFarmerByLogin(s0.accounts, f.login) == Some(0);
    var s := AddProduct(s0, dto, f).value.0;
    var id := s.items[0].id.value;
    assert FindItem(s.items, id) == Some(0);
    assert s.accounts[1] == c;
    assert FindCustomerById(s.accounts, 2) == Some(1);
    var b := BuyProduct(s, 2, id, 3, c, now).value;
    assert b.0.accounts == s.accounts;
    assert FindCustomerById(b.0.accounts, 2) == Some(1);
    assert b.0.orders == [b.1];
    assert Filter(b.0.orders, (o: Order) => IsPurchaseBy(o, 2)) == [b.1] by {
      assert b.0.orders[1..] == [];
    }
  }

  /** A surprise bag of 5 with the window (T, T + 1 h): a purchase at T + 2 h
      is a `Conflict`; one at T + 30 min succeeds and leaves 4. */
  lemma {:induction false} ExampleSurpriseBagWindow(f: Account, c: Account, t: int)
    requires f.userType == FARMER && f.id == 1 && f.login == "farmer@farm.com"
    requires c.userType == CUSTOMER && c.id == 2 && c.login == "customer@farm.com"
    ensures var created := CreateSurpriseBag(Store([f, c], [], []), t, t + 3600, 5, f);
      && created.Ok?
      && var s := created.value.0;
         var id := created.value.1.id.value;
         && BuySurpriseBag(s, 2, id, c, t + 7200) == Err(Conflict)
         && BuySurpriseBag(s, 2, id, c, t + 1800).Ok?
         && BuySurpriseBag(s, 2, id, c, t + 1800).value.0.items[0].quantity == 4
  {
    var s0 := Store([f, c], [], []);
    assert FindFarmerByLogin(s0.accounts, f.login) == Some(0);
    var s := CreateSurpriseBag(s0, t, t + 3600, 5, f).value.0;
    var id := CreateSurpriseBag(s0, t, t + 3600, 5, f).value.1.id.value;
    assert FindItem(s.items, id) == Some(0);
    assert s.accounts[1] == c;
    assert FindCustomerById(s.accounts, 2) == Some(1);
  }
}
