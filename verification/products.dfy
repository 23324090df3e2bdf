/** The product service: listings created, partially updated, soft-removed
    and bought, surprise bags created and bought one at a time, the sweep of
    expired bags, and the order-history queries.

    The repositories are one immutable store: the accounts (farmer and
    customer profiles are accounts of that role), the listings and the
    append-only order records. Each operation is one transaction, so an
    operation that throws returns `Err` and the caller keeps the old store.
    The caller is the authenticated principal; the clock reading is `now`. */
module Products {
  import opened Common
  import opened UserAccounts
  import opened ProductItems

  /** The HTTP statuses the service throws; `ServerError` is a null
      reference (a missing id, price or owner) surfacing as status 500. */
  datatype ProductError = Forbidden | NotFound | Conflict | BadRequest | ServerError

  /** An order record: a sale when `isRemoval` is false, a write-off otherwise.
      `cost` is in cents. */
  datatype Order = Order(
    item: ItemId,
    customer: Option<AccountId>,
    farmer: Option<AccountId>,
    orderDate: int,
    quantity: Int32,
    cost: int,
    isRemoval: bool)

  datatype Store = Store(accounts: seq<Account>, items: seq<ProductItem>, orders: seq<Order>)

  const SURPRISE_BAG_NAME: string := "Surprise Bag"
  /** 5.0 in cents. */
  const SURPRISE_BAG_PRICE: int := 500
  const SURPRISE_BAG_IMAGE: string := "http://example.com/surprise_bag.jpg"

  /** `checkFarmerRole`: `Forbidden` unless the caller is a farmer. */
  function CheckFarmerRole(user: Account): (r: Option<ProductError>)
    ensures r.None? <==> user.userType == FARMER
    ensures r.Some? ==> r.value == Forbidden
  {
    if user.userType != FARMER then Some(Forbidden) else None
  }

  /** `checkCustomerRole`: `Forbidden` unless the caller is a customer. */
  function CheckCustomerRole(user: Account): (r: Option<ProductError>)
    ensures r.None? <==> user.userType == CUSTOMER
    ensures r.Some? ==> r.value == Forbidden
  {
    if user.userType != CUSTOMER then Some(Forbidden) else None
  }

  /** `productItemRepo.findById`. */
  function FindItem(items: seq<ProductItem>, id: ItemId): (r: Option<nat>)
    ensures r.Some? ==> r.value < |items| && items[r.value].id == Some(id)
    ensures r.Some? ==> forall j :: 0 <= j < r.value ==> items[j].id != Some(id)
    ensures r.None? <==> forall j :: 0 <= j < |items| ==> items[j].id != Some(id)
  {
    Find(items, (p: ProductItem) => p.id == Some(id))
  }

  /** `farmerRepo.findById`: an account of role farmer with that id. */
  function FindFarmerById(accounts: seq<Account>, id: AccountId): (r: Option<nat>)
    ensures r.Some? ==> r.value < |accounts| && accounts[r.value].id == id
                        && accounts[r.value].userType == FARMER
    ensures r.None? <==> forall j :: 0 <= j < |accounts| ==>
                           !(accounts[j].id == id && accounts[j].userType == FARMER)
  {
    Find(accounts, (a: Account) => a.id == id && a.userType == FARMER)
  }

  /** `farmerRepo.findByLogin`: an account of role farmer with that login. */
  function FindFarmerByLogin(accounts: seq<Account>, login: string): (r: Option<nat>)
    ensures r.Some? ==> r.value < |accounts| && accounts[r.value].login == login
                        && accounts[r.value].userType == FARMER
    ensures r.None? <==> forall j :: 0 <= j < |accounts| ==>
                           !(accounts[j].login == login && accounts[j].userType == FARMER)
  {
    Find(accounts, (a: Account) => a.login == login && a.userType == FARMER)
  }

  /** `customerRepo.findById`: an account of role customer with that id. */
  function FindCustomerById(accounts: seq<Account>, id: AccountId): (r: Option<nat>)
    ensures r.Some? ==> r.value < |accounts| && accounts[r.value].id == id
                        && accounts[r.value].userType == CUSTOMER
    ensures r.None? <==> forall j :: 0 <= j < |accounts| ==>
                           !(accounts[j].id == id && accounts[j].userType == CUSTOMER)
  {
    Find(accounts, (a: Account) => a.id == id && a.userType == CUSTOMER)
  }

  /** An identifier no stored listing carries: the generator's fresh UUID. */
  function FreshItemId(items: seq<ProductItem>): (id: ItemId)
    ensures forall j :: 0 <= j < |items| ==> items[j].id != Some(id)
    ensures forall j :: 0 <= j < |items| && items[j].id.Some? ==> items[j].id.value < id
  {
    if |items| == 0 then 0
    else
      var rest := FreshItemId(items[1..]);
      assert forall j :: 1 <= j < |items| ==> items[j] == items[1..][j - 1];
      match items[0].id
      case None => rest
      case Some(k) => if k < rest then rest else k + 1
  }

  /** A farmer profile's list of listings, `Farmer.productItems`. It is the
      inverse side of each listing's `farmer` reference, so what is stored is
      the reference: the list holds the ids of the listings that name the
      farmer as owner, in store order. */
  function FarmerListings(items: seq<ProductItem>, farmerId: AccountId): (r: seq<ItemId>)
    ensures |r| <= |items|
    ensures forall id :: id in r <==>
      exists k :: 0 <= k < |items| && items[k].farmer == Some(farmerId) && items[k].id == Some(id)
  {
    if |items| == 0 then []
    else
      var rest := FarmerListings(items[1..], farmerId);
      assert forall k :: 1 <= k < |items| ==> items[k] == items[1..][k - 1];
      assert forall id :: id in rest ==>
        exists k :: 0 <= k < |items| && items[k].farmer == Some(farmerId) && items[k].id == Some(id) by {
        forall id | id in rest
          ensures exists k :: 0 <= k < |items| && items[k].farmer == Some(farmerId) && items[k].id == Some(id)
        {
          var k :| 0 <= k < |items[1..]| && items[1..][k].farmer == Some(farmerId) && items[1..][k].id == Some(id);
          assert items[k + 1] == items[1..][k];
        }
      }
      var p := items[0];
      if p.farmer == Some(farmerId) && p.id.Some? then [p.id.value] + rest else rest
  }

  /** `addProduct`: a farmer lists a product under their own profile. The new
      listing copies the transfer object's fields, gets a fresh id and names
      the farmer as owner, which is what puts it in the farmer's list; the
      client-supplied id is not used. */
  function AddProduct(s: Store, dto: ProductItemDto, user: Account): (r: Result<(Store, ProductItemDto), ProductError>)
    ensures user.userType != FARMER ==> r == Err(Forbidden)
    ensures r.Err? && user.userType == FARMER ==> r.error == NotFound
    ensures r.Ok? <==> user.userType == FARMER && FindFarmerByLogin(s.accounts, user.login).Some?
    ensures r.Ok? ==>
      && var (s', out) := r.value;
         var f := FindFarmerByLogin(s.accounts, user.login).value;
         && |s'.items| == |s.items| + 1 && s'.items[..|s.items|] == s.items
         && s'.orders == s.orders && s'.accounts == s.accounts
         && var p := s'.items[|s.items|];
            && p.id.Some? && (forall j :: 0 <= j < |s.items| ==> s.items[j].id != p.id)
            && p.name == dto.name && p.quantity == dto.quantity && p.price == dto.price
            && p.imgUrl == dto.imgUrl && p.isSurpriseBag == dto.isSurpriseBag
            && p.startTime == dto.startTime && p.endTime == dto.endTime
            && !p.deleted && p.farmer == Some(s.accounts[f].id)
            && out == ToDto(p)
  {
    match CheckFarmerRole(user)
    case Some(e) => Err(e)
    case None =>
      match FindFarmerByLogin(s.accounts, user.login)
      case None => Err(NotFound)
      case Some(f) =>
        var p := Of(dto).(id := Some(FreshItemId(s.items)), farmer := Some(s.accounts[f].id));
        var s' := s.(items := s.items + [p]);
        assert s'.items[..|s.items|] == s.items;
        Ok((s', ToDto(p)))
  }

  /** The partial update of `updateProduct`: a present name, price or image
      and a non-negative quantity overwrite the listing's; the window is
      overwritten only on a surprise bag; nothing else changes. */
  function Patch(p: ProductItem, dto: ProductItemDto): (q: ProductItem)
    ensures q.id == p.id && q.farmer == p.farmer && q.deleted == p.deleted
    ensures q.isSurpriseBag == p.isSurpriseBag
    ensures q.name == (if dto.name.Some? then dto.name else p.name)
    ensures q.quantity == (if dto.quantity >= 0 then dto.quantity else p.quantity)
    ensures q.price == (if dto.price.Some? then dto.price else p.price)
    ensures q.imgUrl == (if dto.imgUrl.Some? then dto.imgUrl else p.imgUrl)
    ensures q.startTime == (if p.isSurpriseBag then dto.startTime else p.startTime)
    ensures q.endTime == (if p.isSurpriseBag then dto.endTime else p.endTime)
  {
    var p1 := if dto.name.Some? then p.(name := dto.name) else p;
    var p2 := if dto.quantity >= 0 then p1.(quantity := dto.quantity) else p1;
    var p3 := if dto.price.Some? then p2.(price := dto.price) else p2;
    var p4 := if dto.imgUrl.Some? then p3.(imgUrl := dto.imgUrl) else p3;
    if p4.isSurpriseBag then p4.(startTime := dto.startTime, endTime := dto.endTime) else p4
  }

  /** `updateProduct`: only the owner may update a listing. A missing id in
      the transfer object is a null passed to `findById`. */
  function UpdateProduct(s: Store, dto: ProductItemDto, user: Account): (r: Result<Store, ProductError>)
    ensures user.userType != FARMER ==> r == Err(Forbidden)
    ensures user.userType == FARMER && dto.id.None? ==> r == Err(ServerError)
    ensures user.userType == FARMER && dto.id.Some? && FindItem(s.items, dto.id.value).None?
            ==> r == Err(NotFound)
    ensures (&& user.userType == FARMER && dto.id.Some? && FindItem(s.items, dto.id.value).Some?
             && FindFarmerByLogin(s.accounts, user.login).None?)
            ==> r == Err(NotFound)
    ensures (&& user.userType == FARMER && dto.id.Some? && FindItem(s.items, dto.id.value).Some?
             && FindFarmerByLogin(s.accounts, user.login).Some?
             && s.items[FindItem(s.items, dto.id.value).value].farmer.None?)
            ==> r == Err(ServerError)
    ensures r.Ok? <==>
      && user.userType == FARMER && dto.id.Some?
      && FindItem(s.items, dto.id.value).Some?
      && FindFarmerByLogin(s.accounts, user.login).Some?
      && s.items[FindItem(s.items, dto.id.value).value].farmer
           == Some(s.accounts[FindFarmerByLogin(s.accounts, user.login).value].id)
    ensures (&& user.userType == FARMER && dto.id.Some? && FindItem(s.items, dto.id.value).Some?
             && FindFarmerByLogin(s.accounts, user.login).Some?
             && var p := s.items[FindItem(s.items, dto.id.value).value];
                p.farmer.Some? && p.farmer.value != s.accounts[FindFarmerByLogin(s.accounts, user.login).value].id)
            ==> r == Err(Forbidden)
    ensures r.Ok? ==>
      && var k := FindItem(s.items, dto.id.value).value;
         && r.value.accounts == s.accounts && r.value.orders == s.orders
         && r.value.items == s.items[k := Patch(s.items[k], dto)]
  {
    match CheckFarmerRole(user)
    case Some(e) => Err(e)
    case None =>
      if dto.id.None? then Err(ServerError)
      else
        match FindItem(s.items, dto.id.value)
        case None => Err(NotFound)
        case Some(k) =>
          match FindFarmerByLogin(s.accounts, user.login)
          case None => Err(NotFound)
          case Some(f) =>
            var p := s.items[k];
            if p.farmer.None? then Err(ServerError)
            else if p.farmer.value != s.accounts[f].id then Err(Forbidden)
            else Ok(s.(items := s.items[k := Patch(p, dto)]))
  }

  /** `removeProduct`: the farmer named by `farmerId` must be the caller, and
      the listing must belong to that farmer (a mismatch there is reported as
      `NotFound`). The listing is soft-deleted with its stock untouched, a
      zero-cost write-off recording the current stock is appended. The
      source also drops the listing from the farmer profile's list, but that
      list is the inverse side of the owner reference and the listing keeps
      its owner, so nothing of it is stored: the accounts are unchanged. */
  function RemoveProduct(s: Store, itemId: ItemId, farmerId: AccountId, user: Account, now: int)
    : (r: Result<(Store, Order), ProductError>)
    ensures user.userType != FARMER ==> r == Err(Forbidden)
    ensures user.userType == FARMER && FindItem(s.items, itemId).None? ==> r == Err(NotFound)
    ensures (&& user.userType == FARMER && FindItem(s.items, itemId).Some?
             && FindFarmerById(s.accounts, farmerId).None?)
            ==> r == Err(NotFound)
    ensures (&& user.userType == FARMER && FindItem(s.items, itemId).Some?
             && FindFarmerById(s.accounts, farmerId).Some?
             && s.accounts[FindFarmerById(s.accounts, farmerId).value].login != user.login)
            ==> r == Err(Forbidden)
    ensures (&& user.userType == FARMER && FindItem(s.items, itemId).Some?
             && FindFarmerById(s.accounts, farmerId).Some?
             && s.accounts[FindFarmerById(s.accounts, farmerId).value].login == user.login
             && s.items[FindItem(s.items, itemId).value].farmer.None?)
            ==> r == Err(ServerError)
    ensures (&& user.userType == FARMER && FindItem(s.items, itemId).Some?
             && FindFarmerById(s.accounts, farmerId).Some?
             && s.accounts[FindFarmerById(s.accounts, farmerId).value].login == user.login
             && s.items[FindItem(s.items, itemId).value].farmer.Some?
             && s.items[FindItem(s.items, itemId).value].farmer != Some(farmerId))
            ==> r == Err(NotFound)
    ensures r.Ok? <==>
      && user.userType == FARMER && FindItem(s.items, itemId).Some?
      && FindFarmerById(s.accounts, farmerId).Some?
      && s.accounts[FindFarmerById(s.accounts, farmerId).value].login == user.login
      && s.items[FindItem(s.items, itemId).value].farmer == Some(farmerId)
    ensures r.Ok? ==>
      && var (s', o) := r.value;
         var k := FindItem(s.items, itemId).value;
         var p := s.items[k];
         && s'.items == s.items[k := p.(deleted := true)]
         && s'.orders == s.orders + [o]
         && o == Order(itemId, None, Some(farmerId), now, p.quantity, 0, true)
         && s'.accounts == s.accounts
  {
    match CheckFarmerRole(user)
    case Some(e) => Err(e)
    case None =>
      match FindItem(s.items, itemId)
      case None => Err(NotFound)
      case Some(k) =>
        match FindFarmerById(s.accounts, farmerId)
        case None => Err(NotFound)
        case Some(f) =>
          var farmer := s.accounts[f];
          var p := s.items[k];
          if farmer.login != user.login then Err(Forbidden)
          else if p.farmer.None? then Err(ServerError)
          else if p.farmer.value != farmerId then Err(NotFound)
          else
            var o := Order(itemId, None, Some(farmerId), now, p.quantity, 0, true);
            Ok((Store(s.accounts, s.items[k := p.(deleted := true)], s.orders + [o]), o))
  }

  /** `buyProduct`: a customer buys `quantity` units as themselves. An
      unavailable listing or too little stock is a `Conflict`; the quantity
      itself is not checked. The stock drops by `quantity` in Java `int`
      arithmetic and one sale at `price × quantity` is appended. */
  function BuyProduct(s: Store, customerId: AccountId, itemId: ItemId, quantity: Int32,
                      user: Account, now: int): (r: Result<(Store, Order), ProductError>)
    ensures user.userType != CUSTOMER ==> r == Err(Forbidden)
    ensures user.userType == CUSTOMER && FindItem(s.items, itemId).None? ==> r == Err(NotFound)
    ensures (&& user.userType == CUSTOMER && FindItem(s.items, itemId).Some?
             && FindCustomerById(s.accounts, customerId).None?)
            ==> r == Err(NotFound)
    ensures (&& user.userType == CUSTOMER && FindItem(s.items, itemId).Some?
             && FindCustomerById(s.accounts, customerId).Some?
             && s.accounts[FindCustomerById(s.accounts, customerId).value].login != user.login)
            ==> r == Err(Forbidden)
    ensures (&& user.userType == CUSTOMER && FindItem(s.items, itemId).Some?
             && FindCustomerById(s.accounts, customerId).Some?
             && s.accounts[FindCustomerById(s.accounts, customerId).value].login == user.login
             && var p := s.items[FindItem(s.items, itemId).value];
                !IsAvailable(p, now) || p.quantity < quantity)
            ==> r == Err(Conflict)
    ensures (&& user.userType == CUSTOMER && FindItem(s.items, itemId).Some?
             && FindCustomerById(s.accounts, customerId).Some?
             && s.accounts[FindCustomerById(s.accounts, customerId).value].login == user.login
             && var p := s.items[FindItem(s.items, itemId).value];
                IsAvailable(p, now) && quantity <= p.quantity && p.price.None?)
            ==> r == Err(ServerError)
    ensures r.Ok? <==>
      && user.userType == CUSTOMER && FindItem(s.items, itemId).Some?
      && FindCustomerById(s.accounts, customerId).Some?
      && s.accounts[FindCustomerById(s.accounts, customerId).value].login == user.login
      && var p := s.items[FindItem(s.items, itemId).value];
         IsAvailable(p, now) && quantity <= p.quantity && p.price.Some?
    ensures r.Ok? ==>
      && var (s', o) := r.value;
         var k := FindItem(s.items, itemId).value;
         var p := s.items[k];
         && s'.accounts == s.accounts
         && s'.items == s.items[k := p.(quantity := Wrap32(p.quantity - quantity))]
         && s'.orders == s.orders + [o]
         && o.item == itemId && o.customer == Some(customerId) && o.farmer == p.farmer
         && o.quantity == quantity && o.cost == p.price.value * quantity
         && !o.isRemoval && o.orderDate == now
  {
    match CheckCustomerRole(user)
    case Some(e) => Err(e)
    case None =>
      match FindItem(s.items, itemId)
      case None => Err(NotFound)
      case Some(k) =>
        match FindCustomerById(s.accounts, customerId)
        case None => Err(NotFound)
        case Some(c) =>
          var p := s.items[k];
          if s.accounts[c].login != user.login then Err(Forbidden)
          else if !IsAvailable(p, now) || p.quantity < quantity then Err(Conflict)
          else if p.price.None? then Err(ServerError)
          else
            var o := Order(itemId, Some(customerId), p.farmer, now, quantity, p.price.value * quantity, false);
            Ok((s.(items := s.items[k := p.(quantity := Wrap32(p.quantity - quantity))],
                   orders := s.orders + [o]), o))
  }

  /** `buySurpriseBag`: like `buyProduct` with a quantity of one, but a listing
      that is not a surprise bag is a `BadRequest`, decided before the
      customer is looked up. */
  function BuySurpriseBag(s: Store, customerId: AccountId, itemId: ItemId, user: Account, now: int)
    : (r: Result<(Store, Order), ProductError>)
    ensures user.userType != CUSTOMER ==> r == Err(Forbidden)
    ensures user.userType == CUSTOMER && FindItem(s.items, itemId).None? ==> r == Err(NotFound)
    ensures (&& user.userType == CUSTOMER && FindItem(s.items, itemId).Some?
             && !s.items[FindItem(s.items, itemId).value].isSurpriseBag)
            ==> r == Err(BadRequest)
    ensures (&& user.userType == CUSTOMER && FindItem(s.items, itemId).Some?
             && s.items[FindItem(s.items, itemId).value].isSurpriseBag
             && FindCustomerById(s.accounts, customerId).None?)
            ==> r == Err(NotFound)
    ensures (&& user.userType == CUSTOMER && FindItem(s.items, itemId).Some?
             && s.items[FindItem(s.items, itemId).value].isSurpriseBag
             && FindCustomerById(s.accounts, customerId).Some?
             && s.accounts[FindCustomerById(s.accounts, customerId).value].login != user.login)
            ==> r == Err(Forbidden)
    ensures (&& user.userType == CUSTOMER && FindItem(s.items, itemId).Some?
             && s.items[FindItem(s.items, itemId).value].isSurpriseBag
             && FindCustomerById(s.accounts, customerId).Some?
             && s.accounts[FindCustomerById(s.accounts, customerId).value].login == user.login
             && !IsAvailable(s.items[FindItem(s.items, itemId).value], now))
            ==> r == Err(Conflict)
    ensures (&& user.userType == CUSTOMER && FindItem(s.items, itemId).Some?
             && FindCustomerById(s.accounts, customerId).Some?
             && s.accounts[FindCustomerById(s.accounts, customerId).value].login == user.login
             && var p := s.items[FindItem(s.items, itemId).value];
                p.isSurpriseBag && IsAvailable(p, now) && p.price.None?)
            ==> r == Err(ServerError)
    ensures r.Ok? <==>
      && user.userType == CUSTOMER && FindItem(s.items, itemId).Some?
      && FindCustomerById(s.accounts, customerId).Some?
      && s.accounts[FindCustomerById(s.accounts, customerId).value].login == user.login
      && var p := s.items[FindItem(s.items, itemId).value];
         p.isSurpriseBag && IsAvailable(p, now) && p.price.Some?
    ensures r.Ok? ==>
      && var (s', o) := r.value;
         var k := FindItem(s.items, itemId).value;
         var p := s.items[k];
         && s'.accounts == s.accounts
         && p.quantity >= 1
         && s'.items == s.items[k := p.(quantity := p.quantity - 1)]
         && s'.orders == s.orders + [o]
         && o.item == itemId && o.customer == Some(customerId) && o.farmer == p.farmer
         && o.quantity == 1 && o.cost == p.price.value
         && !o.isRemoval && o.orderDate == now
  {
    match CheckCustomerRole(user)
    case Some(e) => Err(e)
    case None =>
      match FindItem(s.items, itemId)
      case None => Err(NotFound)
      case Some(k) =>
        var p := s.items[k];
        if !p.isSurpriseBag then Err(BadRequest)
        else
          match FindCustomerById(s.accounts, customerId)
          case None => Err(NotFound)
          case Some(c) =>
            if s.accounts[c].login != user.login then Err(Forbidden)
            else if !IsAvailable(p, now) then Err(Conflict)
            else if p.quantity < 1 then Err(Conflict)
            else if p.price.None? then Err(ServerError)
            else
              var o := Order(itemId, Some(customerId), p.farmer, now, 1, p.price.value, false);
              Ok((s.(items := s.items[k := p.(quantity := p.quantity - 1)],
                     orders := s.orders + [o]), o))
  }

  /** `createSurpriseBag`: a farmer lists a surprise bag with the fixed name,
      price and image and the given window and quantity. */
  function CreateSurpriseBag(s: Store, startTime: int, endTime: int, quantity: Int32, user: Account)
    : (r: Result<(Store, ProductItem), ProductError>)
    ensures user.userType != FARMER ==> r == Err(Forbidden)
    ensures r.Err? && user.userType == FARMER ==> r.error == NotFound
    ensures r.Ok? <==> user.userType == FARMER && FindFarmerByLogin(s.accounts, user.login).Some?
    ensures r.Ok? ==>
      && var (s', p) := r.value;
         var f := FindFarmerByLogin(s.accounts, user.login).value;
         && s'.items == s.items + [p] && s'.orders == s.orders && s'.accounts == s.accounts
         && p.id.Some? && (forall j :: 0 <= j < |s.items| ==> s.items[j].id != p.id)
         && p.name == Some(SURPRISE_BAG_NAME) && p.price == Some(SURPRISE_BAG_PRICE)
         && p.imgUrl == Some(SURPRISE_BAG_IMAGE)
         && p.isSurpriseBag && !p.deleted
         && p.startTime == startTime && p.endTime == endTime && p.quantity == quantity
         && p.farmer == Some(s.accounts[f].id)
  {
    match CheckFarmerRole(user)
    case Some(e) => Err(e)
    case None =>
      match FindFarmerByLogin(s.accounts, user.login)
      case None => Err(NotFound)
      case Some(f) =>
        var p := ProductItem(Some(FreshItemId(s.items)), Some(SURPRISE_BAG_NAME), quantity,
                             Some(SURPRISE_BAG_PRICE), Some(SURPRISE_BAG_IMAGE), true,
                             startTime, endTime, false, Some(s.accounts[f].id));
        Ok((s.(items := s.items + [p]), p))
  }

  /** A surprise bag that is not soft-deleted: what
      `findByIsSurpriseBagTrueAndDeletedFalse` returns. */
  predicate ActiveBag(p: ProductItem)
  {
    p.isSurpriseBag && !p.deleted
  }

  /** A bag the sweep deletes at `now`. */
  predicate Expired(p: ProductItem, now: int)
  {
    ActiveBag(p) && p.endTime < now
  }

  /** `getAvailableSurpriseBags`: exactly the surprise bags available now,
      in store order. */
  function AvailableSurpriseBags(s: Store, now: int): (r: seq<ProductItem>)
    ensures forall p :: p in r <==> p in s.items && p.isSurpriseBag && IsAvailable(p, now)
    ensures forall p :: multiset(r)[p] == if p.isSurpriseBag && IsAvailable(p, now) then multiset(s.items)[p] else 0
  {
    Filter(Filter(s.items, ActiveBag), (p: ProductItem) => IsAvailable(p, now))
  }

  /** `cleanUpExpiredSurpriseBags`: hard-deletes every non-deleted surprise
      bag whose window ended before `now`, whatever its stock, and leaves
      every other listing, the accounts and the orders as they were. */
  function CleanUpExpiredSurpriseBags(s: Store, now: int): (r: Store)
    ensures r.accounts == s.accounts && r.orders == s.orders
    ensures forall p :: p in r.items <==> p in s.items && !Expired(p, now)
    ensures forall p :: multiset(r.items)[p] == if Expired(p, now) then 0 else multiset(s.items)[p]
  {
    s.(items := Filter(s.items, (p: ProductItem) => !Expired(p, now)))
  }

  /** A sale of a listing of `farmerId`. */
  predicate IsSaleBy(o: Order, farmerId: AccountId)
  {
    o.farmer == Some(farmerId) && !o.isRemoval
  }

  /** A sale to `customerId`. */
  predicate IsPurchaseBy(o: Order, customerId: AccountId)
  {
    o.customer == Some(customerId) && !o.isRemoval
  }

  /** A write-off by `farmerId`. */
  predicate IsRemovalBy(o: Order, farmerId: AccountId)
  {
    o.farmer == Some(farmerId) && o.isRemoval
  }

  /** The listings of the farmer's sales, in order, repeats included: the
      `findByFarmerIdAndIsRemovalFalse` query mapped to its orders' listings. */
  function SaleItems(orders: seq<Order>, farmerId: AccountId): (r: seq<ItemId>)
    ensures |r| <= |orders|
    ensures forall id :: id in r <==>
      exists k :: 0 <= k < |orders| && IsSaleBy(orders[k], farmerId) && orders[k].item == id
  {
    if |orders| == 0 then []
    else
      var rest := SaleItems(orders[1..], farmerId);
      assert forall k :: 1 <= k < |orders| ==> orders[k] == orders[1..][k - 1];
      assert forall id :: id in rest ==>
        exists k :: 0 <= k < |orders| && IsSaleBy(orders[k], farmerId) && orders[k].item == id by {
        forall id | id in rest
          ensures exists k :: 0 <= k < |orders| && IsSaleBy(orders[k], farmerId) && orders[k].item == id
        {
          var k :| 0 <= k < |orders[1..]| && IsSaleBy(orders[1..][k], farmerId) && orders[1..][k].item == id;
          assert orders[k + 1] == orders[1..][k];
        }
      }
      if IsSaleBy(orders[0], farmerId) then [orders[0].item] + rest else rest
  }

  /** `getSoldProducts`: the farmer, who must be the caller, gets the distinct
      listings of their sales, by id, in the order first sold (the order
      `Common.DistinctPrefix` gives `Distinct`). */
  function SoldProducts(s: Store, farmerId: AccountId, user: Account): (r: Result<seq<ItemId>, ProductError>)
    ensures user.userType != FARMER ==> r == Err(Forbidden)
    ensures user.userType == FARMER && FindFarmerById(s.accounts, farmerId).None? ==> r == Err(NotFound)
    ensures (&& user.userType == FARMER && FindFarmerById(s.accounts, farmerId).Some?
             && s.accounts[FindFarmerById(s.accounts, farmerId).value].login != user.login)
            ==> r == Err(Forbidden)
    ensures r.Ok? <==>
      && user.userType == FARMER && FindFarmerById(s.accounts, farmerId).Some?
      && s.accounts[FindFarmerById(s.accounts, farmerId).value].login == user.login
    ensures r.Ok? ==>
      && r.value == Distinct(SaleItems(s.orders, farmerId))
      && (forall i, j :: 0 <= i < j < |r.value| ==> r.value[i] != r.value[j])
      && (forall id :: id in r.value <==>
            exists k :: 0 <= k < |s.orders| && IsSaleBy(s.orders[k], farmerId) && s.orders[k].item == id)
  {
    match CheckFarmerRole(user)
    case Some(e) => Err(e)
    case None =>
      match FindFarmerById(s.accounts, farmerId)
      case None => Err(NotFound)
      case Some(f) =>
        if s.accounts[f].login != user.login then Err(Forbidden)
        else
          var ids := SaleItems(s.orders, farmerId);
          Ok(Distinct(ids))
  }

  /** `getPurchasedProducts`: the customer's sales, in order. */
  function PurchasedProducts(s: Store, customerId: AccountId): (r: Result<seq<Order>, ProductError>)
    ensures r.Err? <==> FindCustomerById(s.accounts, customerId).None?
    ensures r.Err? ==> r.error == NotFound
    ensures r.Ok? ==> forall o :: o in r.value <==> o in s.orders && IsPurchaseBy(o, customerId)
    ensures r.Ok? ==> forall o :: multiset(r.value)[o] == if IsPurchaseBy(o, customerId) then multiset(s.orders)[o] else 0
  {
    match FindCustomerById(s.accounts, customerId)
    case None => Err(NotFound)
    case Some(_) => Ok(Filter(s.orders, (o: Order) => IsPurchaseBy(o, customerId)))
  }

  /** `getHistoryOfRemovedProducts`: the farmer's write-offs, in order. */
  function RemovedHistory(s: Store, farmerId: AccountId): (r: Result<seq<Order>, ProductError>)
    ensures r.Err? <==> FindFarmerById(s.accounts, farmerId).None?
    ensures r.Err? ==> r.error == NotFound
    ensures r.Ok? ==> forall o :: o in r.value <==> o in s.orders && IsRemovalBy(o, farmerId)
    ensures r.Ok? ==> forall o :: multiset(r.value)[o] == if IsRemovalBy(o, farmerId) then multiset(s.orders)[o] else 0
  {
    match FindFarmerById(s.accounts, farmerId)
    case None => Err(NotFound)
    case Some(_) => Ok(Filter(s.orders, (o: Order) => IsRemovalBy(o, farmerId)))
  }
}
