/** The pure mappers of src/services/catalog.js between the catalog API's JSON
    and the shapes the shop views and the admin form use. The HTTP fetchers of
    the same file are not part of this model. A JSON list that is missing or is
    not an array is `None`. */
module Catalog {
  import opened Common

  /** An image as the API stores it: `{ url, sort }`; `sort` may be absent or not a number. */
  datatype ApiImage = ApiImage(url: string, sort: Option<int>)

  /** An image with a numeric position, as the admin form holds it and the API receives it. */
  datatype SortedImage = SortedImage(url: string, sort: int)

  /** A variant as the API returns it. */
  datatype ApiVariant = ApiVariant(
    id: Option<int>,
    color: Option<string>,
    size: Option<string>,
    colorId: Option<int>,
    sizeId: Option<int>,
    sku: Option<string>,
    price: Option<int>,
    priceOverride: Option<int>,
    isDefault: Option<bool>,
    images: Option<seq<ApiImage>>)

  /** A product as the API returns it. */
  datatype ApiProduct = ApiProduct(
    id: Option<int>,
    name: Option<string>,
    slug: Option<string>,
    description: Option<string>,
    price: Option<int>,
    brandId: Option<int>,
    categoryId: Option<int>,
    brandName: Option<string>,
    images: Option<seq<ApiImage>>,
    variants: Option<seq<ApiVariant>>)

  /** A variant in the shop shape: image URLs only and an effective price. */
  datatype ShopVariant = ShopVariant(
    id: Option<int>,
    color: Option<string>,
    size: Option<string>,
    colorId: Option<int>,
    sizeId: Option<int>,
    sku: Option<string>,
    price: Option<int>,
    priceOverride: Option<int>,
    isDefault: Option<bool>,
    images: seq<string>)

  /** A product in the shop shape (what the storefront pages and the admin list read). */
  datatype ShopProduct = ShopProduct(
    id: Option<int>,
    name: Option<string>,
    slug: Option<string>,
    description: Option<string>,
    price: Option<int>,
    brandId: Option<int>,
    categoryId: Option<int>,
    brandName: Option<string>,
    images: seq<string>,
    variants: seq<ShopVariant>)

  /** A product in the admin shape: lists guaranteed, image objects kept. */
  datatype AdminProduct = AdminProduct(
    id: Option<int>,
    name: Option<string>,
    slug: Option<string>,
    description: Option<string>,
    price: Option<int>,
    brandId: Option<int>,
    categoryId: Option<int>,
    brandName: Option<string>,
    images: seq<ApiImage>,
    variants: seq<ApiVariant>)

  /** A price override field: absent (`null`/`undefined`), the empty text of a
      cleared input, or a number. */
  datatype Override = Unset | EmptyText | Amount(n: int)

  /** What the admin side hands to `mapAdminToApi`: the fields it reads. */
  datatype AdminVariantIn = AdminVariantIn(
    color: Option<string>,
    size: Option<string>,
    sku: Option<string>,
    priceOverride: Override,
    isDefault: Option<bool>,
    images: Option<seq<ApiImage>>)

  datatype AdminProductIn = AdminProductIn(
    categoryId: Option<int>,
    brandId: Option<int>,
    name: string,
    slug: string,
    description: string,
    price: Option<int>,
    images: Option<seq<ApiImage>>,
    variants: Option<seq<AdminVariantIn>>)

  /** The request body sent to the API. */
  datatype VariantOut = VariantOut(
    color: Option<string>,
    size: Option<string>,
    sku: string,
    priceOverride: Option<int>,
    isDefault: bool,
    images: seq<SortedImage>)

  datatype ProductOut = ProductOut(
    categoryId: Option<int>,
    brandId: Option<int>,
    name: string,
    slug: string,
    description: string,
    price: int,
    images: seq<SortedImage>,
    variants: seq<VariantOut>)

  // ---------------------------------------------------------------------------
  // API -> shop

  function ImageUrls(images: Option<seq<ApiImage>>): (r: seq<string>)
    ensures images.None? ==> r == []
    ensures images.Some? ==> |r| == |images.value|
    ensures images.Some? ==> forall k :: 0 <= k < |r| ==> r[k] == images.value[k].url
  {
    match images
    case None => []
    case Some(xs) => seq(|xs|, k requires 0 <= k < |xs| => xs[k].url)
  }

  /** `v.price ?? v.priceOverride ?? p.price` */
  function EffectivePrice(v: ApiVariant, productPrice: Option<int>): (r: Option<int>)
    ensures v.price.Some? ==> r == v.price
    ensures v.price.None? && v.priceOverride.Some? ==> r == v.priceOverride
    ensures v.price.None? && v.priceOverride.None? ==> r == productPrice
  {
    if v.price.Some? then v.price
    else if v.priceOverride.Some? then v.priceOverride
    else productPrice
  }

  function ShopVariantOf(v: ApiVariant, productPrice: Option<int>): ShopVariant {
    ShopVariant(v.id, v.color, v.size, v.colorId, v.sizeId, v.sku,
                EffectivePrice(v, productPrice), v.priceOverride, v.isDefault,
                ImageUrls(v.images))
  }

  /** mapProductApiToShop */
  function MapProductApiToShop(p: ApiProduct): (r: ShopProduct)
    ensures r.images == ImageUrls(p.images)
    ensures p.variants.None? ==> r.variants == []
    ensures p.variants.Some? ==> |r.variants| == |p.variants.value|
  {
    var vs := p.variants.GetOr([]);
    ShopProduct(p.id, p.name, p.slug, p.description, p.price, p.brandId, p.categoryId,
                p.brandName, ImageUrls(p.images),
                seq(|vs|, k requires 0 <= k < |vs| => ShopVariantOf(vs[k], p.price)))
  }

  /** Every field the shop mapper does not rewrite is carried over as the API sent it;
      each variant keeps its own fields, gets its images as URLs (the same number, in
      order; none for a non-list) and the first price of `price`, `priceOverride`,
      the product's price that is present. */
  lemma ShopMappingCarriesFields(p: ApiProduct, k: int)
    requires p.variants.Some? && 0 <= k < |p.variants.value|
    ensures var r := MapProductApiToShop(p);
      && r.id == p.id && r.name == p.name && r.slug == p.slug
      && r.description == p.description && r.price == p.price
      && r.brandId == p.brandId && r.categoryId == p.categoryId
      && r.brandName == p.brandName
      && var v, w := p.variants.value[k], r.variants[k];
      && w.id == v.id && w.color == v.color && w.size == v.size
      && w.colorId == v.colorId && w.sizeId == v.sizeId && w.sku == v.sku
      && w.priceOverride == v.priceOverride && w.isDefault == v.isDefault
      && (v.images.None? ==> w.images == [])
      && (v.images.Some? ==> |w.images| == |v.images.value|)
      && (v.images.Some? ==> forall j :: 0 <= j < |w.images| ==> w.images[j] == v.images.value[j].url)
      && w.price == (if v.price.Some? then v.price
                     else if v.priceOverride.Some? then v.priceOverride
                     else p.price)
  {
  }

  // ---------------------------------------------------------------------------
  // API -> admin

  /** mapProductApiToAdmin */
  function MapProductApiToAdmin(p: ApiProduct): (r: AdminProduct)
    ensures r.images == (if p.images.Some? then p.images.value else [])
    ensures r.variants == (if p.variants.Some? then p.variants.value else [])
    ensures r.id == p.id && r.name == p.name && r.slug == p.slug && r.price == p.price
    ensures r.brandId == p.brandId && r.categoryId == p.categoryId
    ensures r.description == p.description && r.brandName == p.brandName
  {
    AdminProduct(p.id, p.name, p.slug, p.description, p.price, p.brandId, p.categoryId,
                 p.brandName, p.images.GetOr([]), p.variants.GetOr([]))
  }

  // ---------------------------------------------------------------------------
  // admin -> API

  /** `x === null || x === "" || x === undefined ? null : Number(x)` */
  function NormalizeOverride(o: Override): (r: Option<int>)
    ensures r.None? <==> !o.Amount?
    ensures o.Amount? ==> r == Some(o.n)
  {
    match o
    case Amount(n) => Some(n)
    case _ => None
  }

  /** `typeof i.sort === "number" ? i.sort : idx`, over the whole list. */
  function SortImages(images: Option<seq<ApiImage>>): (r: seq<SortedImage>)
    ensures images.None? ==> r == []
    ensures images.Some? ==> |r| == |images.value|
    ensures images.Some? ==> forall k :: 0 <= k < |r| ==>
      r[k].url == images.value[k].url
      && r[k].sort == (if images.value[k].sort.Some? then images.value[k].sort.value else k)
  {
    var xs := images.GetOr([]);
    seq(|xs|, k requires 0 <= k < |xs| => SortedImage(xs[k].url, xs[k].sort.GetOr(k)))
  }

  function VariantToApi(v: AdminVariantIn): VariantOut {
    VariantOut(v.color, v.size, v.sku.GetOr(""), NormalizeOverride(v.priceOverride),
               v.isDefault == Some(true), SortImages(v.images))
  }

  /** mapAdminToApi */
  function MapAdminToApi(p: AdminProductIn): (r: ProductOut)
    ensures r.name == p.name && r.slug == p.slug && r.description == p.description
    ensures r.brandId == p.brandId && r.categoryId == p.categoryId
    ensures r.images == SortImages(p.images)
    ensures |r.variants| == |p.variants.GetOr([])|
  {
    var vs := p.variants.GetOr([]);
    ProductOut(p.categoryId, p.brandId, p.name, p.slug, p.description, p.price.GetOr(0),
               SortImages(p.images),
               seq(|vs|, k requires 0 <= k < |vs| => VariantToApi(vs[k])))
  }

  /** What mapAdminToApi promises per variant, in order: colour and size pass through
      or become null, the SKU defaults to "", a blank or absent override becomes null
      and any other is kept, the default flag becomes a boolean, and each image keeps
      a numeric sort or else takes its position. A missing price becomes 0. */
  lemma AdminToApiVariant(p: AdminProductIn, k: int)
    requires p.variants.Some? && 0 <= k < |p.variants.value|
    ensures var v, w := p.variants.value[k], MapAdminToApi(p).variants[k];
      && w.color == v.color && w.size == v.size
      && (v.sku.Some? ==> w.sku == v.sku.value) && (v.sku.None? ==> w.sku == "")
      && (w.priceOverride.Some? <==> v.priceOverride.Amount?)
      && (v.priceOverride.Amount? ==> w.priceOverride.value == v.priceOverride.n)
      && (w.isDefault <==> v.isDefault == Some(true))
      && |w.images| == |v.images.GetOr([])|
      && (forall j :: 0 <= j < |w.images| ==>
            && w.images[j].url == v.images.value[j].url
            && (v.images.value[j].sort.Some? ==> w.images[j].sort == v.images.value[j].sort.value)
            && (v.images.value[j].sort.None? ==> w.images[j].sort == j))
    ensures MapAdminToApi(p).price == (if p.price.Some? then p.price.value else 0)
  {
  }
}
