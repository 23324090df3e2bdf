# daily-farm: inventory, orders and accounts in Dafny

This project models the two state machines at the core of the `daily-farm`
marketplace service and proves properties of them.

- **Inventory and orders** (`ProductsService`, `ProductItem`). Farmers list
  products and surprise bags, update them partially and soft-remove them.
  Customers buy listings by quantity and buy surprise bags one at a time.
  Every purchase and every removal appends an order record: a sale or a
  zero-cost write-off. An hourly sweep hard-deletes expired surprise bags.
  Three queries read the order log: sold listings, purchase history and
  removal history.
- **Accounts** (`AccountingManagement`, `UserAccount`). Registration applies
  a password-length policy and keeps logins unique. A password change keeps
  a bounded FIFO history of earlier hashes and rejects reuse. Revoke and
  activate form a two-state toggle, and the revoked flag locks the account
  out of the security layer. At start-up an administrator is seeded.

The model is functional. A store is an immutable value: sequences of
accounts, listings and orders, in the order the repositories scan them.
The product service's store and the account service's sequence of
accounts are two separate models. Each holds the accounts as its own
service sees them, and no property relates one to the other.
Every service operation is a pure function that returns
`Result<new store, error>`. Each Java method runs in one transaction, so
an exception rolls everything back. In the model this is structural: a
caller that gets `Err` keeps the store it had (`Apply` in both property
modules).

Conventions:

- The current time is an integer parameter `now`. It replaces
  `LocalDateTime.now()`.
- Prices and costs are integer cents, so the surprise bag's 5.0 is `500`.
- Java's `int` is `Common.Int32`. `buyProduct` subtracts stock in 32-bit
  two's-complement arithmetic (`Wrap32`).
- BCrypt is an injective encoding: `Matches(p, h)` holds exactly when `h`
  is `Encode(p)`.
- A Java reference that may be `null` is an `Option`. A runtime exception
  that the web layer answers with status 500 becomes `ServerError`: a null
  id passed to `findById` (Spring Data rejects it with
  `IllegalArgumentException`), and a `NullPointerException` from unboxing a
  `null` price, switching on a `null` role or reading the owner of a
  listing without a farmer.
- A farmer's list of listings (`Farmer.productItems`) is mapped by the
  listings' `farmer` column, so only that column is stored. The model keeps
  no list on the account and reads it off the listings (`FarmerListings`).
  Dropping a listing from the in-memory list in `removeProduct`, without
  clearing its owner, therefore changes nothing that is stored.
- Identifiers are naturals. A fresh identifier is larger than every stored
  one, which stands in for a fresh UUID.

Files:

| file | module | contents |
|---|---|---|
| `common.dfy` | `Common` | `Option`, `Result`, `Int32`, `Wrap32`, `Find`, `Filter`, `Distinct` and the filter lemmas |
| `user_account.dfy` | `UserAccounts` | the account entity, the hash abstraction and the `UserDetails` view |
| `accounting.dfy` | `Accounting` | the account service |
| `accounting_properties.dfy` | `AccountingProperties` | invariants over call sequences, and the toggle and reuse properties |
| `product_item.dfy` | `ProductItems` | the listing, its transfer object and `isAvailable` |
| `products.dfy` | `Products` | the order entity, the store, a farmer's list of listings and the product service |
| `products_properties.dfy` | `ProductsProperties` | invariants over call sequences, and the buy, remove and sweep properties with worked examples |

Where the documented behaviour of the system and its code disagree, the model follows the code:

- A duplicate registration throws `UserExistsException`, not a generic
  conflict. Revoking a revoked account throws `AccountRevokeException`, and
  activating an active one throws `AccountActivateException`. These are
  `UserExists`, `AccountRevoke` and `AccountActivate`.
- The password history keeps the last N hashes as they were stored, not N
  distinct passwords. It can hold the same password twice only if that was
  allowed earlier, which reuse rejection prevents.
- `updatePassword` checks the password policy before it looks the account
  up. A bad password for a missing login is therefore `PasswordInvalid`,
  not `UserNotFound`.

Source paths in the table are relative to the repository root.

## Model

| member | source | states |
|---|---|---|
| Common.Wrap32 | daily-farm/src/main/java/farming/products/service/ProductsService.java:174 | The result is Java's `int` congruent to the exact value mod 2^32. It equals the exact value when that fits in 32 bits. |
| Common.Find | daily-farm/src/main/java/farming/products/service/ProductsService.java:162-163 | A repository lookup returns the first row that matches. It returns nothing exactly when no row matches. |
| Common.Filter | daily-farm/src/main/java/farming/products/service/ProductsService.java:289-291 | A stream `filter` keeps exactly the matching elements, in their original order (the result is a subsequence of the input), each as often as it occurred. |
| Common.SubsequenceMultiset | daily-farm/src/main/java/farming/products/service/ProductsService.java:289-291 | A subsequence holds no element more often than the sequence it is taken from. |
| Common.FilterUnique | daily-farm/src/main/java/farming/products/service/ProductsService.java:289-291 | Any subsequence whose elements all match and that holds every matching element as often as the input is the filter's result, so the filter's contract fixes its result. |
| Common.Distinct | daily-farm/src/main/java/farming/products/service/ProductsService.java:201 | `distinct()` keeps the same set of elements with no repeats. |
| Common.DistinctKeepsRepeatFree | daily-farm/src/main/java/farming/products/service/ProductsService.java:201 | `distinct()` leaves a sequence without repeats as it is, so applying it twice is applying it once. |
| Common.DistinctPrefix | daily-farm/src/main/java/farming/products/service/ProductsService.java:201 | `distinct()` keeps first occurrences in encounter order: its result on any prefix of the input is a prefix of its result on the whole input. |
| Common.FilterAppend | daily-farm/src/main/java/farming/products/service/ProductsService.java:211 | Filtering a log with one more entry gives the old filtered log plus that entry, if it matches. |
| Common.FilterCompose | daily-farm/src/main/java/farming/products/service/ProductsService.java:289-291 | Filtering twice is filtering once by the conjunction of the two conditions. |
| Common.FilterExtensional | daily-farm/src/main/java/farming/products/service/ProductsService.java:289-291 | Filters by two conditions that agree on every element give the same result. |
| UserAccounts.NewAccount | daily-farm/src/main/java/farming/accounting/entity/UserAccount.java:52-66 | A new account carries the given id, login, hash, role, first and last name, email and phone. It is not revoked, it is activated at construction time, and its password history is empty. |
| UserAccounts.Authorities | daily-farm/src/main/java/farming/accounting/entity/UserAccount.java:72-75 | The account has exactly one authority: `TYPE_` followed by the role's name. |
| UserAccounts.AuthorityIdentifiesRole | daily-farm/src/main/java/farming/accounting/entity/UserAccount.java:74 | Two accounts have the same authority list exactly when they have the same role. |
| UserAccounts.StatusFlags | daily-farm/src/main/java/farming/accounting/entity/UserAccount.java:77-105 | Account and credential expiry always hold. Non-locked and enabled both hold exactly when the account is not revoked. Sign-in succeeds exactly for an unrevoked account and the password its hash encodes. |
| UserAccounts.NewAccountAuthenticates | daily-farm/src/main/java/farming/accounting/entity/UserAccount.java:54-66 | A new account's username is its login. It signs in with exactly the password it was created with. |
| Accounting.FindByLogin | daily-farm/src/main/java/farming/accounting/service/AccountingManagement.java:195 | The lookup finds an account with that login, or nothing exactly when no account has it. |
| Accounting.FreshAccountId | daily-farm/src/main/java/farming/accounting/entity/UserAccount.java:29-32 | The generated id is larger than the id of every stored account. |
| Accounting.Registration | daily-farm/src/main/java/farming/accounting/service/AccountingManagement.java:42-83 | A rejected password gives `PasswordInvalid`. Otherwise an existing login gives `UserExists`. Otherwise a missing role is a null `switch` and gives `ServerError`. Success happens exactly in the remaining case and appends one account with the login, role, name and contact fields, a hash of the password, a fresh id, no history, not revoked and activated now. |
| Accounting.GetUserAccount | daily-farm/src/main/java/farming/accounting/service/AccountingManagement.java:194-200 | It returns the stored account with that login. It gives `UserNotFound` exactly when no account has that login. |
| Accounting.PushHistory | daily-farm/src/main/java/farming/accounting/service/AccountingManagement.java:124-127 | The current hash is appended to the history, after the oldest entry is evicted when the history already holds N entries. An empty history that must be evicted from is the `removeFirst` exception. |
| Accounting.UpdatePassword | daily-farm/src/main/java/farming/accounting/service/AccountingManagement.java:102-141 | Checks run in this order: policy (`PasswordInvalid`), lookup (`UserNotFound`), match with the current hash or any history hash (`PasswordInvalid`), then evicting from an empty history (`NoSuchElement`). Success happens exactly when all of these pass. On success only that account changes: the new hash is stored, the old hash joins the history and the activation date is now. |
| Accounting.RevokeAccount | daily-farm/src/main/java/farming/accounting/service/AccountingManagement.java:153-166 | A missing login gives `UserNotFound` and a revoked account gives `AccountRevoke`. Success happens exactly otherwise and sets the revoked flag of that account only. |
| Accounting.ActivateAccount | daily-farm/src/main/java/farming/accounting/service/AccountingManagement.java:168-182 | A missing login gives `UserNotFound` and an active account gives `AccountActivate`. Success happens exactly otherwise, clears the flag and sets the activation date to now, for that account only. |
| Accounting.RemoveUser | daily-farm/src/main/java/farming/accounting/service/AccountingManagement.java:143-151 | It fails exactly on a missing login. Otherwise it returns the account with that login and leaves all the others. |
| Accounting.SeedAdmin | daily-farm/src/main/java/farming/accounting/service/AccountingManagement.java:216-229 | Afterwards an `admin` login exists. If one existed before, nothing changes. Otherwise one unrevoked administrator with password `admin` is appended. |
| AccountingProperties.ReplaceKeepsUnique | daily-farm/src/main/java/farming/accounting/entity/UserAccount.java:34-35 | Changing an account without changing its login keeps logins unique. |
| AccountingProperties.RegistrationKeepsUnique | daily-farm/src/main/java/farming/accounting/service/AccountingManagement.java:52-55 | A successful registration keeps logins unique. |
| AccountingProperties.RemoveKeepsUnique | daily-farm/src/main/java/farming/accounting/service/AccountingManagement.java:143-151 | Removing an account keeps logins unique. |
| AccountingProperties.ApplyKeepsUnique | daily-farm/src/main/java/farming/accounting/service/AccountingManagement.java:42-229 | Every account operation, successful or not, keeps logins unique. |
| AccountingProperties.LoginsStayUnique | daily-farm/src/main/java/farming/accounting/service/AccountingManagement.java:52-55 | Logins stay unique after any sequence of account operations. |
| AccountingProperties.HistoryWindow | daily-farm/src/main/java/farming/accounting/service/AccountingManagement.java:124-127 | With N ≥ 1, a change keeps the newest min(size + 1, N) hashes of the old history followed by the replaced hash. |
| AccountingProperties.ApplyKeepsHistoryBounded | daily-farm/src/main/java/farming/accounting/service/AccountingManagement.java:124-127 | With N ≥ 1, every operation keeps every history within N entries. |
| AccountingProperties.HistoryStaysBounded | daily-farm/src/main/java/farming/accounting/service/AccountingManagement.java:124-127 | With N ≥ 1, histories stay within N entries after any sequence of operations. |
| AccountingProperties.ChangeRejectsReuse | daily-farm/src/main/java/farming/accounting/service/AccountingManagement.java:111-123 | After a change from one password to another, changing to either of them again is `PasswordInvalid`. |
| AccountingProperties.RevokeThenActivate | daily-farm/src/main/java/farming/accounting/service/AccountingManagement.java:153-182 | Revoking and then activating restores the accounts, except that the activation date is the time of activation. |
| AccountingProperties.ToggleFailsInTargetState | daily-farm/src/main/java/farming/accounting/service/AccountingManagement.java:158-175 | Revoking twice gives `AccountRevoke`. Activating an active account gives `AccountActivate`. |
| AccountingProperties.RevokeLocksOut | daily-farm/src/main/java/farming/accounting/entity/UserAccount.java:92-105 | A revoked account is locked and disabled, and no password signs it in. |
| AccountingProperties.RegisteredAccountAuthenticates | daily-farm/src/main/java/farming/accounting/service/AccountingManagement.java:42-83 | A registered account is found by its login and signs in with exactly the registered password. Activating it gives `AccountActivate`. |
| AccountingProperties.SecondRegistrationConflicts | daily-farm/src/main/java/farming/accounting/service/AccountingManagement.java:52-55 | Registering the same login again with an acceptable password gives `UserExists`, whatever role is given, even none. |
| AccountingProperties.SeedAdminIdempotent | daily-farm/src/main/java/farming/accounting/service/AccountingManagement.java:220-228 | Seeding twice is the same as seeding once. |
| AccountingProperties.DefaultPolicy | daily-farm/src/main/java/farming/accounting/service/AccountingManagement.java:36-40 | The default policy rejects exactly a missing password or one shorter than 5 characters, and keeps 3 hashes. |
| AccountingProperties.MissingLoginNotFound | daily-farm/src/main/java/farming/accounting/service/AccountingManagement.java:194-199 | Lookup, revoke, activate and remove give `UserNotFound` for a missing login, and so does a password change that passes the policy. |
| ProductItems.Of | daily-farm/src/main/java/farming/products/entity/ProductItem.java:46-57 | A listing built from a transfer object is not deleted and has no owner. |
| ProductItems.DtoRoundTrip | daily-farm/src/main/java/farming/products/entity/ProductItem.java:46-71 | `toDto(of(dto))` gives back every field of the transfer object except the owner. |
| ProductItems.EntityRoundTrip | daily-farm/src/main/java/farming/products/entity/ProductItem.java:46-71 | `of(toDto(p))` gives back the listing, but not deleted and without an owner. |
| ProductItems.AvailabilityByKind | daily-farm/src/main/java/farming/products/entity/ProductItem.java:38-44 | The time matters only for surprise bags. A regular listing is available at every instant or at none. A bag is available exactly when the same listing sold as a regular one would be and the instant lies strictly inside its window. |
| ProductItems.UnavailableWhenDeletedOrEmpty | daily-farm/src/main/java/farming/products/entity/ProductItem.java:38-44 | A deleted listing or one without stock is never available. |
| ProductItems.WindowBoundsStrict | daily-farm/src/main/java/farming/products/entity/ProductItem.java:43 | A surprise bag is not available at its start instant or at its end instant. |
| ProductItems.WindowIsInterval | daily-farm/src/main/java/farming/products/entity/ProductItem.java:43 | The instants at which a bag is available form an interval, and it is nonempty only if the window spans more than one instant. |
| Products.CheckFarmerRole | daily-farm/src/main/java/farming/products/service/ProductsService.java:39-44 | `Forbidden` exactly when the caller is not a farmer. |
| Products.CheckCustomerRole | daily-farm/src/main/java/farming/products/service/ProductsService.java:46-51 | `Forbidden` exactly when the caller is not a customer. |
| Products.FindItem | daily-farm/src/main/java/farming/products/service/ProductsService.java:162-163 | It finds the first listing with that id, or nothing exactly when none has it. |
| Products.FindFarmerById | daily-farm/src/main/java/farming/products/service/ProductsService.java:97-98 | It finds a farmer account with that id, or nothing exactly when there is none. |
| Products.FindFarmerByLogin | daily-farm/src/main/java/farming/products/service/ProductsService.java:58-59 | It finds a farmer account with that login, or nothing exactly when there is none. |
| Products.FindCustomerById | daily-farm/src/main/java/farming/products/service/ProductsService.java:164-165 | It finds a customer account with that id, or nothing exactly when there is none. |
| Products.FreshItemId | daily-farm/src/main/java/farming/products/entity/ProductItem.java:20-23 | The generated id is carried by no stored listing and exceeds every stored one. |
| Products.FarmerListings | daily-farm/src/main/java/farming/farmer/entity/Farmer.java:29-30 | A farmer's list of listings is the inverse side of the listings' owner reference. It holds exactly the ids of the listings that name that farmer as owner. |
| Products.AddProduct | daily-farm/src/main/java/farming/products/service/ProductsService.java:53-64 | A non-farmer gets `Forbidden` and a missing farmer profile gets `NotFound`. Success happens exactly otherwise and appends one listing with a fresh id, the transfer object's fields, owned by the caller, not deleted. It returns that listing's transfer object and leaves accounts and orders alone. |
| Products.Patch | daily-farm/src/main/java/farming/products/service/ProductsService.java:78-85 | A present name, price or image and a non-negative quantity overwrite the listing's. The window is overwritten only on a surprise bag. Id, owner, kind and deleted flag never change. |
| Products.UpdateProduct | daily-farm/src/main/java/farming/products/service/ProductsService.java:66-88 | The error order is role (`Forbidden`), a missing id in the transfer object (`ServerError`), listing (`NotFound`), the caller's farmer profile (`NotFound`), a listing without an owner (`ServerError`), then an owner other than the caller (`Forbidden`). Success happens exactly when the caller's farmer profile owns the listing. It patches that listing alone and changes nothing else. |
| Products.RemoveProduct | daily-farm/src/main/java/farming/products/service/ProductsService.java:90-119 | The error order is role, listing (`NotFound`), farmer (`NotFound`), then the farmer's login against the caller's (`Forbidden`), then a listing without an owner (`ServerError`), then the owner against `farmerId` (`NotFound`). Success happens exactly when every check passes. The listing is soft-deleted with its stock unchanged, one write-off of the current stock at cost 0 is appended, and the accounts are unchanged. |
| Products.BuyProduct | daily-farm/src/main/java/farming/products/service/ProductsService.java:157-187 | The error order is role, listing, customer, the customer's login against the caller's (`Forbidden`), then an unavailable listing or too little stock (`Conflict`), then a listing without a price, whose `null` is unboxed (`ServerError`). Success happens exactly when every check passes. On success the stock becomes stock − q in `int` arithmetic. One sale of q at price × q is appended, by that customer from the listing's farmer. |
| Products.BuySurpriseBag | daily-farm/src/main/java/farming/products/service/ProductsService.java:226-262 | A listing that is not a bag gets `BadRequest` before the customer lookup. Then come the customer lookup (`NotFound`) and the caller check (`Forbidden`). An unavailable bag gets `Conflict`, and an available bag without a price gets `ServerError` from unboxing its `null`. Success happens exactly when every check passes. It decrements the stock by one and appends one sale of quantity 1 at the unit price. |
| Products.CreateSurpriseBag | daily-farm/src/main/java/farming/products/service/ProductsService.java:264-284 | Role and profile errors are as in adding a product. On success one bag is appended, named "Surprise Bag", priced 500 cents, with the fixed image and the given window and quantity, owned by the caller. Accounts and orders are unchanged. |
| Products.AvailableSurpriseBags | daily-farm/src/main/java/farming/products/service/ProductsService.java:286-294 | The result is exactly the surprise bags available now, each as often as stored. |
| Products.CleanUpExpiredSurpriseBags | daily-farm/src/main/java/farming/products/service/ProductsService.java:296-311 | Exactly the non-deleted surprise bags whose window ended before now are deleted. Every other listing, the accounts and the orders stay. |
| Products.SaleItems | daily-farm/src/main/java/farming/products/service/ProductsService.java:198-200 | An id occurs in the result exactly when some sale by the farmer is of that listing. |
| Products.SoldProducts | daily-farm/src/main/java/farming/products/service/ProductsService.java:189-204 | A non-farmer gets `Forbidden`, a missing farmer `NotFound`, and a farmer other than the caller `Forbidden`. Success happens exactly otherwise. The result is the distinct listings of the farmer's sales, with no repeats, each sold listing present. |
| Products.PurchasedProducts | daily-farm/src/main/java/farming/products/service/ProductsService.java:206-214 | It fails exactly for a missing customer. Otherwise it returns exactly the customer's sales, each as often as logged. |
| Products.RemovedHistory | daily-farm/src/main/java/farming/products/service/ProductsService.java:216-224 | It fails exactly for a missing farmer. Otherwise it returns exactly the farmer's write-offs, each as often as logged. |
| ProductsProperties.RoleGuardsFollowAuthority | daily-farm/src/main/java/farming/products/service/ProductsService.java:39-51 | The role guards depend only on the caller's authority. No caller passes both guards, and an administrator passes neither. |
| ProductsProperties.ReplaceKeepsIdsUnique | daily-farm/src/main/java/farming/products/entity/ProductItem.java:20-23 | Changing a listing without changing its id keeps ids unique. |
| ProductsProperties.AppendKeepsIdsUnique | daily-farm/src/main/java/farming/products/service/ProductsService.java:62 | Appending a listing with an unused id keeps ids unique. |
| ProductsProperties.HeadIdFresh | daily-farm/src/main/java/farming/products/entity/ProductItem.java:20-23 | With unique ids, the first listing's id is not carried by any later listing. |
| ProductsProperties.ConsKeepsIdsUnique | daily-farm/src/main/java/farming/products/entity/ProductItem.java:20-23 | Putting a listing with an unused id in front keeps ids unique. |
| ProductsProperties.FilterKeepsIdsUnique | daily-farm/src/main/java/farming/products/service/ProductsService.java:306 | Deleting listings keeps ids unique. |
| ProductsProperties.ApplyKeepsIdsUnique | daily-farm/src/main/java/farming/products/service/ProductsService.java:53-311 | Every product operation keeps listing ids unique. |
| ProductsProperties.ItemIdsStayUnique | daily-farm/src/main/java/farming/products/service/ProductsService.java:53-311 | Listing ids stay unique after any sequence of product operations. |
| ProductsProperties.AppendKeepsWellFormed | daily-farm/src/main/java/farming/products/service/ProductsService.java:107-114 | Appending an order of the right shape keeps the log well formed. In that shape a write-off has no customer and costs 0, and a sale has a customer. |
| ProductsProperties.ApplyAppendsOrders | daily-farm/src/main/java/farming/products/service/ProductsService.java:115 | Every operation appends at most one order, keeps the old log as a prefix and keeps the log well formed. |
| ProductsProperties.OrdersAppendOnly | daily-farm/src/main/java/farming/products/service/ProductsService.java:185 | No sequence of operations changes or deletes an order. A well-formed log stays well formed. |
| ProductsProperties.BuyTakesStock | daily-farm/src/main/java/farming/products/service/ProductsService.java:169-174 | Buying q ≥ 0 leaves stock − q, which is non-negative and, for q > 0, less than before. |
| ProductsProperties.NegativeQuantityAddsStock | daily-farm/src/main/java/farming/products/service/ProductsService.java:169-174 | Buying −5 of 10 succeeds with 15 left and cost −1000. Buying −1 at the top of `int` wraps the stock to −2^31. |
| ProductsProperties.PurchaseIsRecorded | daily-farm/src/main/java/farming/products/service/ProductsService.java:185-211 | After a purchase, the customer's purchase history is the old one plus that order. The listing is among its farmer's sold listings. |
| ProductsProperties.BagPurchaseTakesOne | daily-farm/src/main/java/farming/products/service/ProductsService.java:244-259 | A bag purchase takes exactly one bag, leaves non-negative stock and logs one sale of 1 at the unit price. |
| ProductsProperties.NotABagIsBadRequest | daily-farm/src/main/java/farming/products/service/ProductsService.java:231-237 | Buying a regular listing as a bag is `BadRequest` even for a missing customer. A regular purchase there is `NotFound`. |
| ProductsProperties.OwnerKeepingUpdateKeepsListings | daily-farm/src/main/java/farming/farmer/entity/Farmer.java:29-30 | Replacing a listing by one with the same id and owner leaves every farmer's list unchanged. |
| ProductsProperties.AppendedListingJoinsList | daily-farm/src/main/java/farming/farmer/entity/Farmer.java:62-65 | A listing appended to the store joins the end of its owner's list. |
| ProductsProperties.AppendedOtherListing | daily-farm/src/main/java/farming/farmer/entity/Farmer.java:29-30 | A listing appended under another owner leaves a farmer's list unchanged. |
| ProductsProperties.AddedProductIsListed | daily-farm/src/main/java/farming/products/service/ProductsService.java:61-62 | A product a farmer adds joins the end of that farmer's list. No other farmer's list changes. |
| ProductsProperties.CreatedBagIsListed | daily-farm/src/main/java/farming/products/service/ProductsService.java:279-282 | A surprise bag a farmer creates joins the end of that farmer's list. No other farmer's list changes. |
| ProductsProperties.RemovalIsSoft | daily-farm/src/main/java/farming/products/service/ProductsService.java:105-117 | The removed listing stays findable at its place with its stock, and is never available or offered as a bag again. The write-off is the one new entry of the removal history. The listing keeps its owner, so it stays in the farmer's list, which is unchanged. |
| ProductsProperties.AvailableBagSurvivesSweep | daily-farm/src/main/java/farming/products/service/ProductsService.java:301-306 | A bag available now is not deleted by a sweep now. |
| ProductsProperties.SweepKeepsAvailableBags | daily-farm/src/main/java/farming/products/service/ProductsService.java:286-311 | A sweep does not change the list of bags available at the time it runs. |
| ProductsProperties.SweepIdempotent | daily-farm/src/main/java/farming/products/service/ProductsService.java:296-311 | Sweeping twice at the same time is sweeping once. |
| ProductsProperties.PatchIdempotent | daily-farm/src/main/java/farming/products/service/ProductsService.java:78-85 | Applying a partial update twice is applying it once. One that supplies nothing leaves a regular listing unchanged. |
| ProductsProperties.UpdateKeepsOwnership | daily-farm/src/main/java/farming/products/service/ProductsService.java:71-86 | An update keeps the listing's place, owner, kind and deleted flag, so the same update succeeds again. |
| ProductsProperties.ExampleBuyThree | daily-farm/src/main/java/farming/products/service/ProductsService.java:53-214 | A farmer lists 10 at 200 cents and a customer buys 3. The cost is 600, 7 remain, and the purchase history is that one order of 3. |
| ProductsProperties.ExampleSurpriseBagWindow | daily-farm/src/main/java/farming/products/service/ProductsService.java:226-284 | A bag of 5 with window (T, T + 3600) gives `Conflict` at T + 7200. A purchase at T + 1800 succeeds and leaves 4. |

## Left out

- Null caller: every method of `ProductsService` that takes a caller (adding, updating and removing a listing, both purchases, sold products and creating a surprise bag) logs `user.getLogin()` before the role check, so a `null` caller throws `NullPointerException`. The model's caller is always an account, so the `user == null` branch of the role checks is not modelled.
- Null timestamps: a surprise bag with a `null` start or end time would throw in `isAvailable` and in the sweep. Instants are plain integers here.
- Floating point: prices and costs are `Double`/`double` in the source and exact integer cents here. `getProductsByPriceRange`, which queries by double bounds, is not part of this model.
- Products.AddProduct: the client-supplied id is ignored and a fresh one is always assigned. A JPA `save` of an entity with an existing id would merge instead.
- Products.CleanUpExpiredSurpriseBags: the hard delete ignores foreign keys. In the database, deleting a bag that has orders would fail.
- Products.SoldProducts: returns the distinct listing ids rather than their transfer objects.
- Products.PurchasedProducts: returns orders rather than their transfer objects; `Order.toDto` and its address mapping are not modelled.
- Products.RemovedHistory: returns orders rather than their transfer objects, as above.
- Accounting.RemoveUser: returns the removed account rather than its response transfer object (`UserAccount.build`). The model removes only the account. In the database, deleting a farmer cascades to that farmer's listings, and the delete fails on a foreign key when an order names the account or one of those listings. Neither the cascade nor that failure is modelled, because the account sequence here is separate from the product store.
- Products.AvailableSurpriseBags: returns the listings themselves rather than their transfer objects (`toDto`).
- The `lastHash == null` branch of `updatePassword` does not arise: a history is a sequence and is never null.
- Repository queries return rows in storage order here; the source's derived queries promise no order.
- Order ids, and the `productItem`/`customer`/`farmer` references of an order, are ids here, not entities.
- `getProduct`, `getProductsByFarmer`, `getAllProducts`, `getUser`, `editUser`, `getUserType`, `getPasswordHash` and `getActivationDate` are read-only lookups or a trivial name edit outside the two state machines.
- The farmer and customer profile services called from registration are not part of this model. Registration here creates only the account. A new farmer owns no listings, so that farmer's list is empty. The postal address is not modelled.
- Password length is counted in Dafny characters. Java counts UTF-16 code units.
- BCrypt salting: the model's encoding is deterministic. Only `matches` is relied on, and it agrees.
- Concurrency: each operation is atomic. Races between purchases of the last unit, or between a purchase and the sweep, are outside the model, and so is the scheduling of the hourly sweep.
- Logging, controllers, security configuration and token handling.
