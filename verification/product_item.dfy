/** A product listing, its transfer object, the field copies between the two,
    and the availability predicate. Prices are integer cents; instants are
    integers on one clock. */
module ProductItems {
  import opened Common

  /** A listing. `id` is `null` until the listing is stored; `farmer` is the
      owning farmer profile's id. A surprise bag is only for sale within
      its window; `deleted` is the soft-delete flag. */
  datatype ProductItem = ProductItem(
    id: Option<ItemId>,
    name: Option<string>,
    quantity: Int32,
    price: Option<int>,
    imgUrl: Option<string>,
    isSurpriseBag: bool,
    startTime: int,
    endTime: int,
    deleted: bool,
    farmer: Option<AccountId>)

  /** The transfer object of a listing: no soft-delete flag; the owner is
      carried as the farmer profile's id. */
  datatype ProductItemDto = ProductItemDto(
    id: Option<ItemId>,
    name: Option<string>,
    quantity: Int32,
    price: Option<int>,
    imgUrl: Option<string>,
    isSurpriseBag: bool,
    startTime: int,
    endTime: int,
    farmer: Option<AccountId>)

  /** `isAvailable`, with the clock reading passed in. */
  predicate IsAvailable(p: ProductItem, now: int)
  {
    if !p.isSurpriseBag then p.quantity > 0 && !p.deleted
    else p.quantity > 0 && p.startTime < now && now < p.endTime && !p.deleted
  }

  /** `ProductItem.of`: copies the transfer object's fields; the new listing is
      not deleted and has no owner yet. */
  function Of(dto: ProductItemDto): (p: ProductItem)
    ensures !p.deleted && p.farmer.None?
  {
    ProductItem(dto.id, dto.name, dto.quantity, dto.price, dto.imgUrl, dto.isSurpriseBag,
                dto.startTime, dto.endTime, false, None)
  }

  /** `toDto`: copies the listing's fields and its owner. */
  function ToDto(p: ProductItem): ProductItemDto
  {
    ProductItemDto(p.id, p.name, p.quantity, p.price, p.imgUrl, p.isSurpriseBag,
                   p.startTime, p.endTime, p.farmer)
  }

  /** `toDto(of(dto))` gives back every field of the transfer object except
      the owner, which `of` does not copy. */
  lemma DtoRoundTrip(dto: ProductItemDto)
    ensures ToDto(Of(dto)) == dto.(farmer := None)
    ensures dto.farmer.None? ==> ToDto(Of(dto)) == dto
  {
  }

  /** `of(toDto(p))` gives back the listing, except that it is not deleted
      and has no owner. */
  lemma EntityRoundTrip(p: ProductItem)
    ensures Of(ToDto(p)) == p.(deleted := false, farmer := None)
  {
  }

  /** The clock matters only for surprise bags: a regular listing's
      availability is the same at every instant, and a surprise bag is
      available exactly when the same listing sold as a regular one would be
      and the instant lies strictly inside its window. */
  lemma AvailabilityByKind(p: ProductItem, now: int, later: int)
    ensures !p.isSurpriseBag ==> (IsAvailable(p, now) <==> IsAvailable(p, later))
    ensures p.isSurpriseBag ==>
      (IsAvailable(p, now) <==> IsAvailable(p.(isSurpriseBag := false), later) && p.startTime < now < p.endTime)
  {
  }

  /** Neither a deleted listing nor one without stock is ever available,
      whatever its kind, window or the time. */
  lemma UnavailableWhenDeletedOrEmpty(p: ProductItem, now: int)
    requires p.deleted || p.quantity <= 0
    ensures !IsAvailable(p, now)
  {
  }

  /** Both ends of a surprise bag's window are excluded. */
  lemma WindowBoundsStrict(p: ProductItem)
    requires p.isSurpriseBag
    ensures !IsAvailable(p, p.startTime) && !IsAvailable(p, p.endTime)
  {
  }

  /** A surprise bag is available at some instant only if its window is
      nonempty, and then at every instant in between as long as its stock
      and flag stay the same. */
  lemma WindowIsInterval(p: ProductItem, t1: int, t2: int, t: int)
    requires p.isSurpriseBag && IsAvailable(p, t1) && IsAvailable(p, t2) && t1 <= t <= t2
    ensures p.startTime + 1 < p.endTime
    ensures IsAvailable(p, t)
  {
  }
}
