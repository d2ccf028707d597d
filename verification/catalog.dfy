/** The shop catalogue's display rules: when a product is on sale, the price
    it is shown at, the image it is shown with, and the slug every catalogue
    row receives on its first save. */
module Catalog {
  import opened Common

  /** The product fields the display rules read. `salePrice` is nullable;
      `image` and `imageUrl` are nullable text columns. */
  datatype Product = Product(name: string, price: real, salePrice: Option<real>, image: Option<string>, imageUrl: Option<string>)

  const RentalPlaceholder := "/static/images/rental/placeholder.jpg"


  /** `is_on_sale`: a sale price is set and is below the price. */
  predicate IsOnSale(p: Product)
  {
    p.salePrice.Some? && p.salePrice.value < p.price
  }

  /** `get_display_price`: the sale price while on sale, else the price. A
      product is never shown above its price, and is shown below it exactly
      when it is on sale. */
  function DisplayPrice(p: Product): (r: real)
    ensures r <= p.price
    ensures r < p.price <==> IsOnSale(p)
    ensures r == p.price || p.salePrice == Some(r)
  {
    if IsOnSale(p) then p.salePrice.value else p.price
  }

  /** `Product.get_image_url`: the image URL when one is given, else the stored
      image path (a text column has no `url` attribute, so the path itself),
      else the placeholder. There is always an image to show. */
  function ImageUrl(p: Product): (r: string)
    ensures r != ""
    ensures Given(p.imageUrl) ==> r == p.imageUrl.value
    ensures !Given(p.imageUrl) ==> r == StoredImage(p.image, ProductPlaceholder)
  {
    if Given(p.imageUrl) then p.imageUrl.value
    else if Given(p.image) then p.image.value
    else ProductPlaceholder
  }

  /** The stored image path, or the placeholder when there is none. */
  function StoredImage(image: Option<string>, placeholder: string): (r: string)
    ensures Given(image) ==> r == image.value
    ensures !Given(image) ==> r == placeholder
  {
    if Given(image) then image.value else placeholder
  }

  /** `RentalCategory.get_image_url`: the stored path, else the rental
      placeholder; never empty. */
  function RentalImageUrl(image: Option<string>): (r: string)
    ensures r != ""
    ensures r == StoredImage(image, RentalPlaceholder)
  {
    if Given(image) then image.value else RentalPlaceholder
  }

  /** The image URL is one of the product's own values or the placeholder, and
      a product with neither field shows the placeholder. */
  lemma ImageUrlSources(p: Product)
    ensures ImageUrl(p) == ProductPlaceholder <== !Given(p.imageUrl) && !Given(p.image)
    ensures ImageUrl(p) in {ProductPlaceholder} + (if p.imageUrl.Some? then {p.imageUrl.value} else {}) + (if p.image.Some? then {p.image.value} else {})
  {
  }

  /** The slug a row has after `save`: its own slug when it has one, else the
      slugified name (`slugify` is Django's, passed in). */
  function SlugOnSave(slug: string, name: string, slugify: string -> string): (r: string)
    ensures slug != "" ==> r == slug
    ensures slug == "" ==> r == slugify(name)
  {
    if slug == "" then slugify(name) else slug
  }

  /** Saving again changes nothing: a slug, once set, is never overwritten,
      and an empty slug is filled with the same text each time. */
  lemma {:induction false} SlugStable(slug: string, name: string, slugify: string -> string, n: nat)
    ensures SaveTimes(SlugOnSave(slug, name, slugify), name, slugify, n) == SlugOnSave(slug, name, slugify)
    decreases n
  {
    if n > 0 {
      SlugStable(slug, name, slugify, n - 1);
    }
  }

  /** The slug after n more saves. */
  function SaveTimes(slug: string, name: string, slugify: string -> string, n: nat): string
    decreases n
  {
    if n == 0 then slug else SlugOnSave(SaveTimes(slug, name, slugify, n - 1), name, slugify)
  }

  /** A catalogue row with a name and a slug: `Category`, `Brand`, `Product`
      and `RentalCategory` all fill the slug the same way in `save`. */
  class Named {
    var name: string
    var slug: string

    constructor (name: string, slug: string)
      ensures this.name == name && this.slug == slug
    {
      this.name, this.slug := name, slug;
    }

    /** `save`: an empty slug is filled from the name; a set one is kept. */
    method Save(slugify: string -> string)
      modifies this`slug
      ensures slug == SlugOnSave(old(slug), name, slugify)
    {
      if slug == "" {
        slug := slugify(name);
      }
    }
  }
}
