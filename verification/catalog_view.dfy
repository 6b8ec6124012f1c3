/** `CatalogView`: the default variant on appear, variant selection and the image it
    scrolls to, the variant, price and add-to-cart labels, adding to the cart, and the
    cart badge.
 */
module Catalog {
  import opened Wrappers
  import opened Storefront
  import CartManager
  import Seqs

  /** The product screen's state. */
  datatype ProductScreen = ProductScreen(
    product: Option<Product>,
    selectedVariantId: Option<Id>,
    selectedImageIndex: int,
    isAddingToCart: bool,
    checkoutURL: Option<Url>)

  /** The first variant's id, or nothing for a product without variants. */
  function FirstVariantId(p: Option<Product>): (r: Option<Id>)
    ensures r.Some? <==> p.Some? && |p.value.variants| > 0
    ensures r.Some? ==> r.value == p.value.variants[0].id
  {
    if p.Some? && |p.value.variants| > 0 then Some(p.value.variants[0].id) else None
  }

  /** `onAppear()`: a given product selects its first variant; without one, the random
      product the query delivers (`delivered`, `None` when its callback never ran)
      becomes the product and its first variant is selected. */
  function OnAppear(s: ProductScreen, delivered: Option<Option<Product>>): (r: ProductScreen)
    ensures s.product.Some? ==> r == s.(selectedVariantId := FirstVariantId(s.product))
    ensures s.product.None? && delivered.None? ==> r == s
    ensures s.product.None? && delivered.Some? ==>
              r == s.(product := delivered.value, selectedVariantId := FirstVariantId(delivered.value))
  {
    if s.product.Some? then s.(selectedVariantId := FirstVariantId(s.product))
    else if delivered.Some? then s.(product := delivered.value, selectedVariantId := FirstVariantId(delivered.value))
    else s
  }

  /** The index of the first image with the given id, if any (`firstIndex(where:)`). */
  function FirstImageIndex(images: seq<Image>, id: Id): Option<nat>
  {
    Seqs.FirstIndexWhere(images, (i: Image) => i.id == id)
  }

  /** The variant picker is shown only for products with more than one variant; without it
      the only variant a product can have is the one selected on appear. */
  predicate ShowsVariantPicker(p: Product)
    ensures !ShowsVariantPicker(p) ==> forall v :: v in p.variants ==> FirstVariantId(Some(p)) == Some(v.id)
  {
    |p.variants| > 1
  }

  /** A variant button of the shown product's picker: select the variant and, when its image
      is among the product's images, scroll to the first such image; otherwise the image
      index stays. */
  function SelectVariant(s: ProductScreen, v: ProductVariant): (r: ProductScreen)
    requires s.product.Some? && ShowsVariantPicker(s.product.value) && v in s.product.value.variants
    ensures r.selectedVariantId == Some(v.id)
    ensures r.product == s.product && r.isAddingToCart == s.isAddingToCart && r.checkoutURL == s.checkoutURL
    ensures var images := s.product.value.images;
            v.image.Some? && FirstImageIndex(images, v.image.value.id).Some? ==>
              r.selectedImageIndex == FirstImageIndex(images, v.image.value.id).value
    ensures var images := s.product.value.images;
            (v.image.None? || FirstImageIndex(images, v.image.value.id).None?) ==>
              r.selectedImageIndex == s.selectedImageIndex
  {
    var found := if v.image.Some? then FirstImageIndex(s.product.value.images, v.image.value.id) else None;
    var index := if found.Some? then found.value as int else s.selectedImageIndex;
    s.(selectedVariantId := Some(v.id), selectedImageIndex := index)
  }

  /** A picker button's label: the title, suffixed " (OUT OF STOCK)" exactly when the
      variant cannot be bought. */
  function VariantLabel(v: ProductVariant): string
  {
    StockLabel(v.title, v.availableForSale)
  }

  /** The label shows the bare title exactly when the variant is for sale, and the title
      can always be read back from it. */
  lemma VariantLabelMarksUnavailable(v: ProductVariant)
    ensures VariantLabel(v) == v.title <==> v.availableForSale
    ensures |VariantLabel(v)| >= |v.title| && VariantLabel(v)[..|v.title|] == v.title
    ensures !v.availableForSale ==> VariantLabel(v)[|v.title|..] == OUT_OF_STOCK_SUFFIX
  {
    if !v.availableForSale {
      assert |VariantLabel(v)| == |v.title| + |OUT_OF_STOCK_SUFFIX|;
    }
  }

  /** The first variant whose id is the selected one (`first { $0.id == selectedVariantId }`). */
  function SelectedVariant(variants: seq<ProductVariant>, selected: Option<Id>): (r: Option<ProductVariant>)
    ensures r.Some? ==> exists i :: 0 <= i < |variants| && variants[i] == r.value && selected == Some(variants[i].id)
                                    && forall k :: 0 <= k < i ==> selected != Some(variants[k].id)
    ensures r.None? ==> forall k :: 0 <= k < |variants| ==> selected != Some(variants[k].id)
  {
    match Seqs.FirstIndexWhere(variants, (v: ProductVariant) => selected == Some(v.id))
    case Some(i) => Some(variants[i])
    case None => None
  }

  /** After appearing with a product that has variants, the price and add button describe
      its first variant. */
  lemma AppearSelectsFirstVariant(s: ProductScreen)
    requires s.product.Some? && |s.product.value.variants| > 0
    ensures SelectedVariant(s.product.value.variants, OnAppear(s, None).selectedVariantId) == Some(s.product.value.variants[0])
  {
  }

  /** When variant ids are distinct, picking a variant makes it the one the price and add
      button describe. */
  lemma PickedVariantIsSelected(variants: seq<ProductVariant>, v: ProductVariant)
    requires v in variants
    requires forall i, j :: 0 <= i < j < |variants| ==> variants[i].id != variants[j].id
    ensures SelectedVariant(variants, Some(v.id)) == Some(v)
  {
    var k :| 0 <= k < |variants| && variants[k] == v;
    var r := SelectedVariant(variants, Some(v.id));
    assert Some(v.id) == Some(variants[k].id);
    var i :| 0 <= i < |variants| && variants[i] == r.value && Some(v.id) == Some(variants[i].id)
             && forall m :: 0 <= m < i ==> Some(v.id) != Some(variants[m].id);
    assert i == k;
  }

  const OUT_OF_STOCK_PRICE: string := "Out of Stock"

  /** The price text: the selected variant's formatted price, or "Out of Stock" when no
      variant matches or formatting fails. `format` stands for the currency formatter. */
  function PriceText(p: Product, selected: Option<Id>, format: Money -> Option<string>): (r: string)
    ensures SelectedVariant(p.variants, selected).None? ==> r == OUT_OF_STOCK_PRICE
    ensures SelectedVariant(p.variants, selected).Some? && format(SelectedVariant(p.variants, selected).value.price).Some? ==>
              r == format(SelectedVariant(p.variants, selected).value.price).value
    ensures SelectedVariant(p.variants, selected).Some? && format(SelectedVariant(p.variants, selected).value.price).None? ==>
              r == OUT_OF_STOCK_PRICE
  {
    match SelectedVariant(p.variants, selected)
    case None => OUT_OF_STOCK_PRICE
    case Some(v) => format(v.price).GetOr(OUT_OF_STOCK_PRICE)
  }

  /** What the add-to-cart button shows. */
  datatype AddButtonFace = OutOfStockFace(text: string) | SpinnerFace | AddToCartFace(text: string)

  /** The button reads "Out of Stock - price" only for a selected variant known to be
      unavailable; otherwise it spins while adding, or reads "Add to cart - price". */
  function AddButton(s: ProductScreen, p: Product, format: Money -> Option<string>): (r: AddButtonFace)
    ensures var v := SelectedVariant(p.variants, s.selectedVariantId);
            r.OutOfStockFace? <==> v.Some? && !v.value.availableForSale
    ensures r.SpinnerFace? ==> s.isAddingToCart
    ensures r.OutOfStockFace? ==> r.text == "Out of Stock - " + PriceText(p, s.selectedVariantId, format)
    ensures r.AddToCartFace? ==> r.text == "Add to cart - " + PriceText(p, s.selectedVariantId, format) && !s.isAddingToCart
  {
    var v := SelectedVariant(p.variants, s.selectedVariantId);
    var price := PriceText(p, s.selectedVariantId, format);
    if v.Some? && !v.value.availableForSale then OutOfStockFace("Out of Stock - " + price)
    else if s.isAddingToCart then SpinnerFace
    else AddToCartFace("Add to cart - " + price)
  }

  /** The add-to-cart button (stock is not checked). The selected id is force-unwrapped, so
      a variant must be selected. Once the manager's completion runs, adding ends and the
      URL binding takes the delivered cart's checkout URL, or nothing. */
  function AddToCart(s: ProductScreen, cart: Option<Cart>, outcome: CartManager.MutationOutcome): (r: (ProductScreen, Option<Cart>, Option<CartManager.CartRequest>))
    requires s.selectedVariantId.Some?
    ensures r.2 == CartManager.AddItem(cart, s.selectedVariantId.value, outcome).request
    ensures r.1 == CartManager.AddItem(cart, s.selectedVariantId.value, outcome).cart
    ensures !r.0.isAddingToCart && r.0.checkoutURL == CheckoutUrlOf(r.1)
    ensures r.0.product == s.product && r.0.selectedVariantId == s.selectedVariantId
  {
    var step := CartManager.AddItem(cart, s.selectedVariantId.value, outcome);
    var delivered := step.completion.value;
    (s.(isAddingToCart := false, checkoutURL := CheckoutUrlOf(delivered)), step.cart, step.request)
  }

  /** An add whose response carries no cart still clears the URL when there was no cart,
      and keeps the existing cart's URL otherwise. */
  lemma FailedAddKeepsUrlOfCart(s: ProductScreen, cart: Option<Cart>)
    requires s.selectedVariantId.Some?
    ensures AddToCart(s, cart, CartManager.Response(None)).0.checkoutURL == CheckoutUrlOf(cart)
    ensures AddToCart(s, cart, CartManager.TransportFailure).1 == cart
  {
  }

  /** The cart badge count: the cart's total quantity, or 0 without a cart. */
  function BadgeCount(cart: Option<Cart>): (r: int)
    ensures cart.None? ==> r == 0
    ensures cart.Some? ==> r == cart.value.totalQuantity
  {
    if cart.Some? then cart.value.totalQuantity else 0
  }

  /** `BadgeButton` draws the count only when it is positive. */
  predicate BadgeDrawn(badgeCount: int)
  {
    badgeCount > 0
  }

  /** Without a cart, or right after a reset, no badge is drawn. */
  lemma NoCartNoBadge(cart: Option<Cart>)
    ensures !BadgeDrawn(BadgeCount(CartManager.ResetCart(cart).cart))
    ensures BadgeDrawn(BadgeCount(cart)) ==> cart.Some? && cart.value.totalQuantity > 0
  {
  }
}
