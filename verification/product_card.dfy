/** The product card of the shop grid: its badges and its buy button. */
module ProductCard {
  import opened Wrappers
  import opened Text
  import opened Types
  import opened Render

  /** The struck-through original price and the percentage shown next to the price. */
  datatype DiscountBadge = DiscountBadge(originalPrice: int, percent: int)

  /** The discount slot as the page writes it:
      `discount_percentage && discount_percentage > 0 && original_price && (...)`.
      A zero percentage or a zero original price is itself the value of the
      expression, and React prints it. */
  function DiscountSlotAsWritten(p: Product): (s: Slot<DiscountBadge>)
    ensures s.Stray? <==> (p.discountPercentage == Some(0) ||
      (p.discountPercentage.Some? && p.discountPercentage.value > 0 && p.originalPrice == Some(0)))
    ensures s.Stray? ==> s.text == "0"
    ensures s.Element? <==> HasDiscount(p)
  {
    match p.discountPercentage
    case None => Nothing
    case Some(d) =>
      if d == 0 then Stray("0")
      else if d < 0 then Nothing
      else match p.originalPrice
        case None => Nothing
        case Some(o) => if o == 0 then Stray("0") else Element(DiscountBadge(o, d))
  }

  /** A product without a discount shows a stray "0" next to its price. */
  lemma ZeroDiscountShowsStrayZero(p: Product)
    requires p.discountPercentage == Some(0)
    ensures DiscountSlotAsWritten(p) == Stray("0")
    ensures !Clean(DiscountSlotAsWritten(p))
  {
  }

  /** So does a discounted product whose original price was saved as 0. */
  lemma ZeroOriginalPriceShowsStrayZero(p: Product, d: int)
    requires d > 0 && p.discountPercentage == Some(d) && p.originalPrice == Some(0)
    ensures DiscountSlotAsWritten(p) == Stray("0")
  {
  }

  /** The discount slot as intended: the badge when the percentage is positive
      and an original price is set (a zero price counting as unset), else nothing. */
  function DiscountSlot(p: Product): (s: Slot<DiscountBadge>)
    ensures Clean(s)
    ensures s.Element? <==> HasDiscount(p)
    ensures s.Element? ==> s.value == DiscountBadge(p.originalPrice.value, p.discountPercentage.value)
  {
    if HasDiscount(p) then Element(DiscountBadge(p.originalPrice.value, p.discountPercentage.value))
    else Nothing
  }

  predicate HasDiscount(p: Product) {
    p.discountPercentage.Some? && p.discountPercentage.value > 0 &&
    p.originalPrice.Some? && p.originalPrice.value != 0
  }

  /** The page as written and the intended slot agree except on the stray zero:
      whenever the written slot shows something other than a bare "0", it is
      exactly the intended slot. */
  lemma DiscountSlotAgreesOffZero(p: Product)
    ensures !DiscountSlotAsWritten(p).Stray? ==> DiscountSlotAsWritten(p) == DiscountSlot(p)
    ensures DiscountSlotAsWritten(p).Stray? ==> DiscountSlot(p) == Nothing && DiscountSlotAsWritten(p).text == "0"
  {
  }

  /** The "Low Stock" badge. */
  predicate LowStock(p: Product) { p.stock < 10 && p.stock > 0 }

  /** The "Out of Stock" badge. */
  predicate OutOfStock(p: Product) { p.stock == 0 }

  /** Both corners' badges share one place: never both at once, and a product
      with 10 or more in stock shows neither. */
  lemma StockBadgesExclusive(p: Product)
    ensures !(LowStock(p) && OutOfStock(p))
    ensures p.stock >= 10 ==> !LowStock(p) && !OutOfStock(p)
    ensures 0 <= p.stock < 10 <==> LowStock(p) || OutOfStock(p)
  {
  }

  /** Both "Buy Product" buttons. */
  predicate BuyDisabled(p: Product) { p.stock == 0 }

  /** The badges over the card's image. */
  datatype CardBadge = FeaturedBadge | LowStockBadge | OutOfStockBadge

  /** The badges in page order: the featured ribbon on the left, then the one
      stock badge on the right, if any. */
  function Badges(p: Product): (r: seq<CardBadge>)
    ensures FeaturedBadge in r <==> p.featured
    ensures LowStockBadge in r <==> LowStock(p)
    ensures OutOfStockBadge in r <==> OutOfStock(p)
    ensures |r| <= 2
    ensures p.featured ==> r[0] == FeaturedBadge
  {
    (if p.featured then [FeaturedBadge] else []) +
    (if LowStock(p) then [LowStockBadge] else []) +
    (if OutOfStock(p) then [OutOfStockBadge] else [])
  }

  /** Where "Buy Product" leads. */
  function BuyTarget(p: Product): (path: string)
    ensures StartsWith(path, "/products/") && path[|"/products/"|..] == p.id
  {
    "/products/" + p.id
  }

  /** The card's image: the product image, or the placeholder. */
  function ImageSrc(p: Product): (src: string)
    ensures src != ""
    ensures p.imageUrl.Some? && p.imageUrl.value != "" ==> src == p.imageUrl.value
  {
    OptOrElse(p.imageUrl, "/placeholder.svg")
  }

  /** The rating the card's stars show: `rating || 0`. */
  function CardRating(p: Product): (r: real)
    ensures p.rating.None? ==> r == 0.0
    ensures p.rating.Some? ==> r == p.rating.value
  {
    if p.rating.Some? then p.rating.value else 0.0
  }
}
