# Storefront core, modelled in Dafny

This project models the logic at the heart of a small React storefront with an admin back
office. It covers six parts:

- **Cart store** (`src/store/cart.js`). It holds an ordered list of lines. Each line is keyed
  by `${id}:${variantId ?? 0}` and holds a packed product snapshot and a quantity.
- **Catalog mappers** (`src/services/catalog.js`). They convert between the API's product JSON,
  the shop shape, the admin shape and the request body.
- **Product editor** (`src/pages/Admin/ProductForm.jsx`). This covers slugs and SKUs, loading a
  product into the form, the reducers that edit variants, the default flag and the variant
  images, the payload, and `validate`.
- **Product page** (`src/pages/ProductDetail.jsx`). This covers preselection, colour and size
  options, the selected variant, the gallery and the price, and the object handed to the cart.
- **Image slider** (`src/components/ImageSlider.jsx`). This covers slide normalisation, keys,
  the wrap-around index, the reset effect and what a render shows.
- **Admin search** (`src/pages/Admin/AdminPage.jsx`). This covers the debounced query, `norm`
  and the filtered product list.

Each source file is one module: `Cart`, `Catalog`, `ProductForm`, `ProductDetail`,
`ImageSlider` and `AdminPage`. The module `Common` holds what they share:

- `Option`;
- `String.prototype.trim`;
- ASCII `toLowerCase`;
- `includes`;
- `filter(Boolean)` on strings;
- decimal rendering of integers, and the fact that it is injective;
- a subsequence predicate.

The cart's `items` state and the editor's `form` state are classes whose methods replace the
state. Each such method is proved against a pure function that specifies the step. The
validator's duplicate check and the cart's `findIndex` are methods with loops. The slider's
`idx` state is a class. The mappers, the product page and the search are functions.

JavaScript `null`/`undefined` is `None`. A value that is not a list is `None` on an
`Option<seq<…>>`. Prices and quantities are integers. `Number(x) || d` reads as
"missing or zero gives `d`".

## Model

| member | source | states |
|---|---|---|
| Cart.IdTextInjective | src/store/cart.js:8 | `${id}` renders different product ids (or a missing one) as different texts |
| Cart.LineIdIdentity | src/store/cart.js:5-9 | two line ids are equal exactly when the product ids are equal and the variant ids are equal, a missing variant id counting as 0 |
| Cart.IdTextHasNoColon | src/store/cart.js:5-8 | a rendered product id never contains ':', so the separator in a line id is unambiguous |
| Cart.NormalizeImages | src/store/cart.js:11-14 | a non-list gives []; every kept URL is non-empty |
| Cart.NormalizeImagesMembers | src/store/cart.js:11-14 | a URL is kept exactly when it is non-empty and some entry (a string or an object's `url`) yields it |
| Cart.DecoratedNameShape | src/store/cart.js:21 | with a colour and a size the decorated name is name, colour and size joined by single spaces; a colour alone gives name and colour; a size alone follows the name after two spaces (the empty colour keeps its blanks); neither gives the plain name |
| Cart.SnapshotName | src/store/cart.js:18-22 | `displayName` wins when non-empty; otherwise a colour or size decorates the name; otherwise the plain name |
| Cart.Pack | src/store/cart.js:16-33 | the snapshot keeps id, variant id, SKU, colour and size; the price defaults to 0; images are normalised; the snapshot keys to the same line id as the product |
| Cart.ClampQty | src/store/cart.js:48 | the stored quantity is at least 1; a missing or sub-1 quantity gives 1; any other is kept |
| Cart.OneLinePerPair | src/store/cart.js:5-9 | in a well-formed cart no two lines share a (product id, variant id or 0) pair |
| Cart.IndexOf | src/store/cart.js:45 | returns the first position with that line id, or -1 when there is none |
| Cart.FindIndex | src/store/cart.js:45 | the search loop returns the first matching position, or -1 when nothing matches, agreeing with IndexOf |
| Cart.AddTo | src/store/cart.js:42-56 | the find-then-merge-or-append step computes exactly AddLine, the specification of add |
| Cart.AddMergesAt | src/store/cart.js:45-51 | when the line id is first found at k, add rewrites only line k, raising its quantity by the clamped amount |
| Cart.AddToExistingLine | src/store/cart.js:45-51 | adding to an existing line raises only its quantity, by the clamped amount; its first snapshot stays |
| Cart.AddNewLine | src/store/cart.js:44-53 | a new pair appends exactly one line at the end and leaves the rest as it was |
| Cart.AddSamePairTwice | src/store/cart.js:42-56 | adding the same pair twice yields one line holding the sum of both clamped quantities and the first snapshot |
| Cart.DistinctVariantsDistinctLines | src/store/cart.js:5-9 | the same product with two different variant ids yields two lines with distinct ids |
| Cart.AddPreservesWellFormed | src/store/cart.js:42-56 | add keeps quantities at least 1, ids derived from the snapshot, and ids unique |
| Cart.RemoveLine | src/store/cart.js:59-61 | an absent id leaves the list unchanged |
| Cart.RemoveLineMembers | src/store/cart.js:59-61 | remove keeps exactly the lines whose id differs |
| Cart.RemoveKeepsOrder | src/store/cart.js:60 | the lines remove keeps stay in their original order |
| Cart.RemoveExisting | src/store/cart.js:59-61 | with unique ids, remove drops exactly the one line at that position |
| Cart.RemovePreservesWellFormed | src/store/cart.js:59-61 | remove keeps the cart well-formed |
| Cart.SetQtyLine | src/store/cart.js:63-68 | same length; lines with other ids are unchanged; the matching line's quantity becomes the clamped quantity |
| Cart.SetQtyAt | src/store/cart.js:63-68 | with unique ids, setQty rewrites the quantity of exactly one line |
| Cart.SetQtyUnknownIsNoOp | src/store/cart.js:63-68 | setQty with an id that no line has changes nothing |
| Cart.SetQtyPreservesWellFormed | src/store/cart.js:63-68 | setQty keeps the cart well-formed |
| Cart.ItemsAtLeastLines | src/store/cart.js:72 | the item total is at least the number of lines |
| Cart.TotalsAfterAdd | src/store/cart.js:42-75 | add raises the item count by the clamped quantity, and the amount by that quantity times the receiving line's price |
| Cart.TotalsAfterRemove | src/store/cart.js:59-75 | remove takes exactly that line's quantity and amount out of the totals |
| Cart.TotalsAfterSetQty | src/store/cart.js:63-75 | setQty replaces that line's quantity and amount in the totals by the clamped one |
| Cart.NonNegativeAmounts | src/store/cart.js:74-75 | with no negative prices or quantities the amount is never negative |
| Cart.CartStore.constructor | src/store/cart.js:40 | a new store is empty |
| Cart.CartStore.Add | src/store/cart.js:42-56 | the new items are AddLine of the old ones, and the store stays well-formed |
| Cart.CartStore.Remove | src/store/cart.js:59-61 | the new items are RemoveLine of the old ones, and the store stays well-formed |
| Cart.CartStore.SetQty | src/store/cart.js:63-68 | the new items are SetQtyLine of the old ones, and the store stays well-formed |
| Cart.CartStore.Clear | src/store/cart.js:70 | the cart becomes empty and both totals are 0 |
| Cart.CartStore.TotalItems | src/store/cart.js:72 | the total holds at least one unit per line |
| Cart.CartStore.TotalAmount | src/store/cart.js:74-75 | the amount is never negative when no price is negative |
| Catalog.ImageUrls | src/services/catalog.js:12-16 | a list of images maps to its URLs, same length and order; a non-list maps to [] |
| Catalog.EffectivePrice | src/services/catalog.js:17 | the variant price, else its override, else the product price |
| Catalog.MapProductApiToShop | src/services/catalog.js:7-21 | product images become URL lists; a non-list `variants` becomes []; the variant count is kept |
| Catalog.ShopMappingCarriesFields | src/services/catalog.js:9-19 | every field the mapper does not rewrite, `brandName` included, is carried over; each variant's images and price follow the rules above |
| Catalog.MapProductApiToAdmin | src/services/catalog.js:25-31 | non-list `images`/`variants` become []; lists and all other fields are untouched |
| Catalog.NormalizeOverride | src/services/catalog.js:50-53 | null, "" and undefined give null; any other override keeps its amount |
| Catalog.SortImages | src/services/catalog.js:42-58 | each image keeps its URL and a numeric `sort`, else takes its position; the count is kept |
| Catalog.MapAdminToApi | src/services/catalog.js:34-61 | scalar fields pass through; images are sorted as above; the variant count is kept |
| Catalog.AdminToApiVariant | src/services/catalog.js:41-59 | per variant, in order: colour and size pass through or become null; SKU defaults to ""; override normalised; default coerced to boolean; images sorted; a missing price becomes 0 |
| ProductForm.Collapse | src/pages/Admin/ProductForm.jsx:22 | every run of characters outside a-z0-9 becomes one '-': the output has only slug characters and no "--" |
| ProductForm.StripEdgeDashes | src/pages/Admin/ProductForm.jsx:23 | no leading or trailing '-' remains, and no "--" is introduced |
| ProductForm.Slugify | src/pages/Admin/ProductForm.jsx:17-24 | the result uses only a-z, 0-9 and '-', with no edge dash and no "--" |
| ProductForm.SlugIsFixed | src/pages/Admin/ProductForm.jsx:17-24 | slugify leaves a slug unchanged |
| ProductForm.SlugifyIdempotent | src/pages/Admin/ProductForm.jsx:17-24 | slugify applied twice equals slugify applied once |
| ProductForm.SlugKeepsLettersAndDigits | src/pages/Admin/ProductForm.jsx:17-24 | the slug's letters and digits are those of the lower-cased input, in order |
| ProductForm.SlugOfWordIsNotBlank | src/pages/Admin/ProductForm.jsx:17-24 | an input with a letter or digit gives a non-blank slug |
| ProductForm.LastWithId | src/pages/Admin/ProductForm.jsx:136-137 | `new Map(list.map(c => [c.id, c])).get(id)`: finds an entry with that id, and none exactly when no entry has it |
| ProductForm.LastWithIdIsLast | src/pages/Admin/ProductForm.jsx:136-137 | the entry found is the last one with that id, as the map keeps the last entry written for a key |
| ProductForm.Lookup | src/pages/Admin/ProductForm.jsx:140-141 | a falsy id (missing or 0) looks up nothing; otherwise the map lookup |
| ProductForm.AttrLabel | src/pages/Admin/ProductForm.jsx:30-31 | the code, else the name, else "" |
| ProductForm.BuildVariantSku | src/pages/Admin/ProductForm.jsx:27-34 | the SKU is a slug |
| ProductForm.SkuSpellsNameColorSize | src/pages/Admin/ProductForm.jsx:27-34 | the SKU's letters and digits are those of the name, then the colour label, then the size label |
| ProductForm.EmptyForm | src/pages/Admin/ProductForm.jsx:50-61 | a new form has no variants, blank texts, price 0, and no brand or category |
| ProductForm.FromApiToForm | src/pages/Admin/ProductForm.jsx:104-127 | one form variant per API variant |
| ProductForm.LoadedForm | src/pages/Admin/ProductForm.jsx:104-127 | loading keeps ids, SKU (default ""), override and images (sort defaulted), coerces the default flag, and defaults texts to "" and the price to 0 |
| ProductForm.RecomputeAllVariantSkus | src/pages/Admin/ProductForm.jsx:135-145 | only the variants change, and their count is kept |
| ProductForm.RecomputeAt | src/pages/Admin/ProductForm.jsx:139-143 | each variant keeps every field except its SKU, which is rebuilt from the name and the looked-up colour and size |
| ProductForm.RecomputeMakesCurrent | src/pages/Admin/ProductForm.jsx:135-145 | afterwards every SKU is current, and each variant differs from before at most in its SKU |
| ProductForm.RecomputeKeepsFlags | src/pages/Admin/ProductForm.jsx:135-145 | recomputing leaves every variant's default flag as it was |
| ProductForm.RecomputeWhenCurrent | src/pages/Admin/ProductForm.jsx:135-145 | recomputing current SKUs changes nothing |
| ProductForm.RecomputeIdempotent | src/pages/Admin/ProductForm.jsx:135-145 | recomputing twice equals recomputing once |
| ProductForm.SetFieldUpdatesOneField | src/pages/Admin/ProductForm.jsx:148 | the form differs from the old one only in the edited field and the variants; each variant keeps all but its SKU, and every SKU is current |
| ProductForm.RenameRewritesSkus | src/pages/Admin/ProductForm.jsx:148 | a rename changes the name and each variant's SKU only |
| ProductForm.OnNameBlur | src/pages/Admin/ProductForm.jsx:130-132 | a blank slug is filled from the name's slug, every other field is kept, the variants keep their count and every SKU is current; a non-blank slug leaves the form unchanged |
| ProductForm.EditAt | src/pages/Admin/ProductForm.jsx:150-156 | after editing variant idx, each variant holds the edited fields (at idx) or its old ones (elsewhere), with the SKU those fields give |
| ProductForm.EditSetsOneVariant | src/pages/Admin/ProductForm.jsx:150-156 | the edit lands in variant idx; every other variant keeps all but its SKU; the other fields stay; every SKU is current |
| ProductForm.EditKeepsFlags | src/pages/Admin/ProductForm.jsx:150-156 | editing a variant field leaves every default flag as it was |
| ProductForm.EditTouchesOneVariant | src/pages/Admin/ProductForm.jsx:150-156 | with current SKUs, editing one variant changes only that variant (and its SKU) |
| ProductForm.SetVariantDefault | src/pages/Admin/ProductForm.jsx:158-163 | each variant's flag becomes "its index is idx"; nothing else changes |
| ProductForm.SetVariantDefaultMakesOne | src/pages/Admin/ProductForm.jsx:158-163 | afterwards exactly one variant is default, the one at idx |
| ProductForm.AddVariantAppendsOne | src/pages/Admin/ProductForm.jsx:165-177 | one more variant; the new one is blank with a fresh SKU and is default exactly when the list was empty; earlier variants differ at most in SKU |
| ProductForm.AddVariantKeepsOneDefault | src/pages/Admin/ProductForm.jsx:165-177 | "an empty list or exactly one default" is preserved |
| ProductForm.RemoveVariant | src/pages/Admin/ProductForm.jsx:179-185 | drops index idx; when variants remain and none is default, the first becomes default |
| ProductForm.RemoveVariantKeepsOneDefault | src/pages/Admin/ProductForm.jsx:179-185 | "an empty list or exactly one default" is preserved |
| ProductForm.Renumber | src/pages/Admin/ProductForm.jsx:212-225 | sorts become 0..n-1; URLs and order are kept |
| ProductForm.RenumberNumbered | src/pages/Admin/ProductForm.jsx:212-225 | renumbering a numbered list changes nothing |
| ProductForm.AppendKeepsNumbering | src/pages/Admin/ProductForm.jsx:194-204 | the variant's old images stay as a prefix; upload i follows as image (old length + i) with that sort; a numbered list stays numbered; the other variants and fields are untouched |
| ProductForm.RemoveImageDropsOne | src/pages/Admin/ProductForm.jsx:207-216 | exactly that URL disappears; the list is numbered; other variants and fields are untouched |
| ProductForm.MoveVariantImage | src/pages/Admin/ProductForm.jsx:218-229 | an out-of-range target returns the form unchanged; otherwise the two images swap and the list is renumbered |
| ProductForm.MoveSwapsUrls | src/pages/Admin/ProductForm.jsx:218-229 | the two URLs trade places, the list is numbered, and the URLs are a permutation of the old ones |
| ProductForm.MoveThenMoveBack | src/pages/Admin/ProductForm.jsx:218-229 | moving an image and moving it back restores a numbered form |
| ProductForm.PayloadOf | src/pages/Admin/ProductForm.jsx:251-288 | one payload variant per form variant |
| ProductForm.PayloadFromForm | src/pages/Admin/ProductForm.jsx:251-288 | the payload carries fresh SKUs (which are slugs), ids, flag and images; the override is its amount, or null when unset or empty; the slug is the form's or, when blank, the name's slug |
| ProductForm.PayloadSlugPresent | src/pages/Admin/ProductForm.jsx:258 | a name with a letter or digit always yields a non-blank payload slug |
| ProductForm.SavedVariantsLoseColorAndSize | src/services/catalog.js:46-48 | a saved form reaches the API with its variants in order, SKUs, overrides, flags and images, but with colour and size always null |
| ProductForm.CountTrueOne | src/pages/Admin/ProductForm.jsx:298-299 | the count of default flags is 1 exactly when exactly one flag is set |
| ProductForm.OptIdTextHasNoUnderscore | src/pages/Admin/ProductForm.jsx:304 | a rendered colour or size id never contains '_', so the `__` in a pair key is unambiguous |
| ProductForm.PairKeyIdentity | src/pages/Admin/ProductForm.jsx:304 | two `${colorId ?? ""}__${sizeId ?? ""}` keys are equal exactly when both ids are equal |
| ProductForm.ValidIff | src/pages/Admin/ProductForm.jsx:291-310 | validation passes exactly when name, slug, brand and category are present and a non-empty variant list has one default and no repeated (colorId, sizeId) pair |
| ProductForm.FindRepeatedPair | src/pages/Admin/ProductForm.jsx:302-307 | the loop with its set of seen keys reports a repeat exactly when two variants share a (colorId, sizeId) pair |
| ProductForm.Validate | src/pages/Admin/ProductForm.jsx:291-310 | returns the first failing message in the source's order, or none |
| ProductForm.ProductEditor.constructor | src/pages/Admin/ProductForm.jsx:50-61 | the editor starts on the empty form |
| ProductForm.ProductEditor.Load | src/pages/Admin/ProductForm.jsx:84-88 | the form becomes the loaded product |
| ProductForm.ProductEditor.UpdateField | src/pages/Admin/ProductForm.jsx:148 | the form steps by SetField and keeps "one default" |
| ProductForm.ProductEditor.NameBlur | src/pages/Admin/ProductForm.jsx:130-132 | the form steps by OnNameBlur |
| ProductForm.ProductEditor.UpdateVariantField | src/pages/Admin/ProductForm.jsx:150-156 | the form steps by SetVariantField and keeps "one default" |
| ProductForm.ProductEditor.MakeDefault | src/pages/Admin/ProductForm.jsx:158-163 | the form steps by SetVariantDefault and ends with one default |
| ProductForm.ProductEditor.NewVariant | src/pages/Admin/ProductForm.jsx:165-177 | the form steps by AddVariant and keeps "one default" |
| ProductForm.ProductEditor.DropVariant | src/pages/Admin/ProductForm.jsx:179-185 | the form steps by RemoveVariant and keeps "one default" |
| ProductForm.ProductEditor.AddVariantFiles | src/pages/Admin/ProductForm.jsx:187-204 | the uploads go to whichever variant sits at the captured index when they finish, as AppendUploads states; an index that no longer exists throws and leaves the form as it was |
| ProductForm.ProductEditor.DropVariantImage | src/pages/Admin/ProductForm.jsx:207-216 | the form steps by RemoveVariantImage |
| ProductForm.ProductEditor.MoveImage | src/pages/Admin/ProductForm.jsx:218-229 | the in-array swap gives MoveVariantImage of the old form |
| ProductForm.ProductEditor.Submit | src/pages/Admin/ProductForm.jsx:312-314 | the payload is PayloadOf the form and the error is the validator's verdict on it |
| ProductDetail.FirstDefault | src/pages/ProductDetail.jsx:36 | the first variant flagged default, or -1 when none is |
| ProductDetail.Preselect | src/pages/ProductDetail.jsx:35-36 | the default variant if one exists, else the first, else none |
| ProductDetail.InitialSelection | src/pages/ProductDetail.jsx:39-40 | colour and size start from the preselected variant, or null |
| ProductDetail.InitialSelectionSelects | src/pages/ProductDetail.jsx:35-83 | a product with variants opens with a variant selected |
| ProductDetail.Distinct | src/pages/ProductDetail.jsx:59-60 | `Array.from(new Set(...))`: the same members, no duplicates |
| ProductDetail.DistinctKeepsOrder | src/pages/ProductDetail.jsx:58-59 | the distinct values are a subsequence of the input |
| ProductDetail.DistinctInFirstOrder | src/pages/ProductDetail.jsx:58-59 | of two distinct values, the one that first appears earlier in the input comes first |
| ProductDetail.PresentValuesKeepOrder | src/pages/ProductDetail.jsx:58 | `filter(Boolean)` keeps the order of first appearances of the values it keeps |
| ProductDetail.ColorOptionsAreTheColors | src/pages/ProductDetail.jsx:58-61 | the options are exactly the non-empty colours of the variants, without duplicates |
| ProductDetail.ColorOptionsInOrder | src/pages/ProductDetail.jsx:57-60 | the colours are offered in the order of the first variant carrying each |
| ProductDetail.SizesFor | src/pages/ProductDetail.jsx:65-67 | the sizes of the variants the chosen colour allows (all of them with no colour) |
| ProductDetail.SizeOptions | src/pages/ProductDetail.jsx:63-70 | exactly the non-empty sizes of the allowed variants, without duplicates |
| ProductDetail.SizeOptionsInOrder | src/pages/ProductDetail.jsx:62-69 | the sizes are offered in the order of the first allowed variant carrying each |
| ProductDetail.FirstMatch | src/pages/ProductDetail.jsx:77-81 | the first variant matching the selection (null matches anything), or -1 |
| ProductDetail.SelectedVariant | src/pages/ProductDetail.jsx:73-83 | none for no variants; otherwise the first matching variant, and none exactly when nothing matches |
| ProductDetail.PickColor | src/pages/ProductDetail.jsx:139 | a colour click sets the colour and clears the size |
| ProductDetail.PickedColorSelects | src/pages/ProductDetail.jsx:58-83 | clicking any offered colour selects a variant of that colour |
| ProductDetail.PickSize | src/pages/ProductDetail.jsx:159 | a size click keeps the colour and sets the size |
| ProductDetail.PickedSizeSelects | src/pages/ProductDetail.jsx:63-83 | clicking any offered size selects a variant of that size and of the chosen colour |
| ProductDetail.Gallery | src/pages/ProductDetail.jsx:86-88 | the selected variant's images when non-empty, else the product's |
| ProductDetail.DisplayPrice | src/pages/ProductDetail.jsx:90 | the variant price, else the product price, else 0 |
| ProductDetail.CartPayload | src/pages/ProductDetail.jsx:189-202 | the product handed to the cart carries the selected id (or null), colour, size and the displayed price |
| ProductDetail.CartSnapshotOfPayload | src/pages/ProductDetail.jsx:189-202 | the cart stores the displayed price, the gallery without empties, the page's decorated name and the SKU, keyed by product id and variant id |
| ProductDetail.VariantsGetTheirOwnLines | src/pages/ProductDetail.jsx:194 | two variants share a cart line exactly when their ids agree (missing as 0) |
| ImageSlider.ImageId | src/components/ImageSlider.jsx:10 | objects give `id`, else `Id`; strings and other values give none |
| ImageSlider.SlideAt | src/components/ImageSlider.jsx:7-14 | an entry gives a slide exactly when it yields a non-empty URL; the slide carries that URL and its key |
| ImageSlider.Slides | src/components/ImageSlider.jsx:5-16 | no more slides than entries; every slide has a URL |
| ImageSlider.SlidesShowNormalizedImages | src/components/ImageSlider.jsx:5-16 | the slide URLs are, in order, exactly the URLs the cart keeps for the same list |
| ImageSlider.FallbackKeysDiffer | src/components/ImageSlider.jsx:12 | `img-<url>-<i>` keys at different positions differ, whatever the URLs |
| ImageSlider.JsRem | src/components/ImageSlider.jsx:31-37 | JavaScript `%`: the remainder is below the divisor in size, has the sign of the dividend (or is 0), and differs from the dividend by a multiple of the divisor |
| ImageSlider.Next | src/components/ImageSlider.jsx:31 | next stays in [0, n) |
| ImageSlider.Prev | src/components/ImageSlider.jsx:37 | prev stays in [0, n) |
| ImageSlider.PrevUndoesNext | src/components/ImageSlider.jsx:28-39 | on a valid index, prev undoes next and next undoes prev |
| ImageSlider.NextTimesShift | src/components/ImageSlider.jsx:31 | k clicks on next move a valid index k places round the ring |
| ImageSlider.FullTurn | src/components/ImageSlider.jsx:31 | n clicks on next return to the starting slide |
| ImageSlider.RenderAsWritten | src/components/ImageSlider.jsx:26-44 | no slides render the placeholder; an index in range shows that slide; an index past the end throws |
| ImageSlider.Render | src/components/ImageSlider.jsx:22-44 | never throws; the placeholder exactly for no slides; an in-range index shows its slide, a stale one slide 0 |
| ImageSlider.RenderAgreesInRange | src/components/ImageSlider.jsx:44 | for in-range indices the corrected render equals the written one |
| ImageSlider.ShrinkingGalleryThrows | src/components/ImageSlider.jsx:22-44 | on slide 3 of 3, switching to a 1-image gallery makes the written render throw; the corrected render shows the image |
| ImageSlider.Slider.constructor | src/components/ImageSlider.jsx:18 | the slider starts at index 0 |
| ImageSlider.Slider.SetImages | src/components/ImageSlider.jsx:3 | a new image list keeps the index until the effect runs |
| ImageSlider.Slider.SyncIndex | src/components/ImageSlider.jsx:22-24 | an index at or past the slide count resets to 0, any other is kept, and afterwards a non-empty list has the index in range |
| ImageSlider.Slider.ClickNext | src/components/ImageSlider.jsx:28-33 | the index becomes next of the old one, in range |
| ImageSlider.Slider.ClickPrev | src/components/ImageSlider.jsx:34-39 | the index becomes prev of the old one, in range |
| ImageSlider.Slider.ClickThumbnail | src/components/ImageSlider.jsx:53 | the index becomes the clicked thumbnail's |
| ImageSlider.Slider.ViewAsWritten | src/components/ImageSlider.jsx:26-44 | what the written render reads now: the placeholder for no slides, the slide at an in-range index, and a throw for an index the shorter list left past the end |
| ImageSlider.Slider.View | src/components/ImageSlider.jsx:26-44 | the corrected view: it never throws and agrees with the written render whenever the index is in range |
| AdminPage.DebouncedQuery | src/pages/Admin/AdminPage.jsx:24 | the stored query has no capitals and no leading or trailing white space |
| AdminPage.Norm | src/pages/Admin/AdminPage.jsx:43-46 | a missing value normalises to ""; the result has no capitals |
| AdminPage.RawFields | src/pages/Admin/AdminPage.jsx:53-57 | the searched texts are name, slug, brand name, then every variant SKU |
| AdminPage.Filtered | src/pages/Admin/AdminPage.jsx:48-62 | an empty normalised query returns the items unchanged |
| AdminPage.KeepOnlyMatches | src/pages/Admin/AdminPage.jsx:52-61 | every product the filter keeps is a loaded product that matches the query |
| AdminPage.KeepKeepsMatches | src/pages/Admin/AdminPage.jsx:52-61 | every loaded product that matches the query is kept |
| AdminPage.KeepCounts | src/pages/Admin/AdminPage.jsx:52-61 | a matching product is kept as many times as it occurs |
| AdminPage.KeepIsSubsequence | src/pages/Admin/AdminPage.jsx:52-61 | the filter keeps products in their original order |
| AdminPage.FilteredIsTheMatches | src/pages/Admin/AdminPage.jsx:48-62 | the list is a subsequence of the products; a product is in it exactly when the query is empty or one of its fields contains the query, and then as often as it is loaded |
| AdminPage.QueryCaseIsIgnored | src/pages/Admin/AdminPage.jsx:24-49 | queries equal up to case give the same list; `norm` leaves a debounced query as it is |
| AdminPage.FieldCaseIsIgnored | src/pages/Admin/AdminPage.jsx:58 | products whose texts differ only in case match the same queries |
| AdminPage.MatchesIff | src/pages/Admin/AdminPage.jsx:52-61 | for a non-empty query, a product matches exactly when its name, slug, brand name or a SKU contains it after lower-casing |
| AdminPage.BlankProductNeverMatches | src/pages/Admin/AdminPage.jsx:53-58 | a product with no name, slug, brand name or SKU never matches a non-empty query |
| Common.NonEmptyMembers | src/store/cart.js:13 | `filter(Boolean)` keeps exactly the non-empty strings |
| Common.NonEmptyCounts | src/store/cart.js:13 | `filter(Boolean)` keeps every occurrence of a non-empty string |
| Common.NonEmptyKeepsOrder | src/store/cart.js:13 | `filter(Boolean)` keeps the order of what it keeps |
| Common.IntTextInjective | src/store/cart.js:8 | decimal rendering of integers is injective |

## Left out

- HTTP and the API client (`getProducts`, `createProduct`, `updateProduct`, `deleteProduct`, and the rest) are network I/O. The model starts from the JSON they return or send.
- Persistence of the cart under the key `lepix-cart-v2` is storage plumbing. Only the in-memory list is modelled.
- Timers, locks and debouncing are time behaviour: the slider's 200 ms click lock, the admin search's 300 ms debounce and the `alive` flags of async effects. The debounce is modelled as the value it finally stores.
- The upload loop in `addVariantFiles` and the browser dialogs (`prompt`, `confirm`, `alert`) are foreign calls. The model takes the list of uploaded URLs as a parameter.
- NFD normalisation and diacritic stripping in `slugify` and `norm`, and Unicode case mapping, are left out. Lower-casing is ASCII only.
- `Intl` currency formatting is left out.
- JavaScript number coercion is left out: strings, NaN, Infinity and fractions. Prices, quantities and ids are integers, and a missing value is `None`.
- Image lists from the API are `{url, sort}` objects with a URL. Plain strings or objects without a URL inside API image lists are not modelled; `url: vi.url ?? vi` on load always takes `url`.
- The product-level `images` of the editor's form are always `[]` in the source and are not a field of the form.
- ProductForm.RemoveVariant: the source sets `arr[0].isDefault = true` on an object that the previous state still shares. The model is on values, so this aliasing is not captured.
- Selection of brands and categories, `quickAddBrand` and `quickAddCategory`, and all rendering are left out.
- ProductForm.SetVariantField, ProductForm.RemoveVariantImage, ProductForm.MoveVariantImage and their editor methods require a valid variant index (and a valid image index for a move). The UI calls them at once, for variants and images it has just rendered. ProductForm.AppendUploads requires one too, but its editor method ProductForm.ProductEditor.AddVariantFiles does not: it models the stale index.
- ProductForm.ProductEditor.AddVariantFiles: a throw from the update is modelled as an update that leaves the form as it was; what React does with the error afterwards is not modelled.
- ProductDetail.PickedSizeSelects is weaker than the general claim: it requires the chosen colour to be none or non-empty. With an empty-string colour, `!color` lists the sizes of every variant, while `color == null` fails and the match demands colour "", so a listed size need not select anything.
- ImageSlider.Slider.ClickNext and ImageSlider.Slider.ClickPrev require at least one slide, because the buttons are only rendered then.
- Catalog.MapAdminToApi is modelled as written: it reads `v.color`/`v.size`, while the editor's payload sends `colorId`/`sizeId`. ProductForm.SavedVariantsLoseColorAndSize states the consequence.

## Findings

| source | as written | input that shows it | evidently intended | confidence | as-written member | corrected member |
|---|---|---|---|---|---|---|
| src/components/ImageSlider.jsx:22-44 | the render reads `slides[idx].url` before the effect that resets a stale `idx` has run, so a render with `idx >= slides.length` reads past the end and throws | the product page shows slide 3 of a 3-image gallery, then the user picks a variant with 1 image: the slider re-renders with idx 2 and 1 slide | an index the effect is about to reset reads as slide 0, so the render always shows an existing slide or the placeholder | high, not executed | ImageSlider.RenderAsWritten, ImageSlider.ShrinkingGalleryThrows, ImageSlider.Slider.ViewAsWritten | ImageSlider.Render, ImageSlider.RenderAgreesInRange, ImageSlider.Slider.View |
