# Tezukuri Van: product ordering, admin editors and contact mail in Dafny

This project models the logic inside the Tezukuri Van marketing site and its admin
panel, a Next.js/React application backed by a hosted database. Each component's
deterministic rules are stated as Dafny functions over immutable data:

- the product display order, with one comparator copied into three pages;
- the admin order manager's arrow moves, drag-and-drop, renumbering and save rule;
- the admin product list: the new-product template, the delete filter and the tab state;
- the product form's saved record, its insert/update choice and its gallery edits;
- the hero-slider editor's move, remove and upload;
- the about-page section map, its field edits and its sequential save;
- the event date line and its ordinal suffixes;
- the value grid's column class and the section editor's choice of editor;
- the contact form's status machine;
- the contact endpoint's transport settings, mail and reply;
- the `customImage` rich-text node.

Every database, storage or e-mail call becomes an input: an `Ok`/`Err` result, or the
reply the call came back with. The model is pure and sequential.

One module per source file, plus four shared modules:

- `Wrappers` holds `Option` and `Result`.
- `SeqOps` holds swap, index removal, insertion and `arrayMove`.
- `JsText` covers string order (code-point order standing in for `localeCompare`), decimal printing and parsing, `parseInt`, and prefix and split helpers.
- `JsRecord` models a JavaScript object as an insertion-ordered list of key/value entries. `Object.values` order matters to the about-page save.

The main results:

- `ProductRank.SortedPermutationUnique` proves that two sorted arrangements of the same products with no ties are identical.
- From that, `ProductOrderManager.ReloadRestoresSavedOrder`, `AdminProducts.LoadShowsSavedOrder` and `PublicProducts.ShowsSavedOrder` prove that once ranks 1..N are stored, the order manager, the admin product list and the public products page each show exactly the saved arrangement, whatever order the rows come back in.
- `EventDates.FormatParseRoundTrip`, `ContactRoute.PlainTextRoundTrip`, `ContactRoute.MessageHtmlRoundTrip` and `CustomImage.RenderParseRoundTrip` prove that the strings and markup the code builds can be read back. For the image node this holds for the parse rule as modelled; the browser and editor steps it abstracts are listed under "Left out".

`src/extensions/CustomImage.ts` declares only src, alt, title and width for the rich-text image node, and renders one centred image.

## Model

| member | source | states |
|---|---|---|
| `ProductRank.Compare` | src/components/admin/ProductOrderManager.tsx:149-160 | two truthy ranks compare by their difference; a truthy rank comes before a falsy one; two falsy ranks compare by id order, and tie exactly when the ids are equal |
| `ProductRank.CompareAntisymmetric` | src/app/products/page.tsx:19-30 | swapping the two products negates the comparator's answer |
| `ProductRank.LeTotal` | src/app/admin/products/page.tsx:63-74 | of any two products, one may precede the other |
| `ProductRank.LeTransitive` | src/app/admin/products/page.tsx:123-134 | "may precede" is transitive, so the comparator is a total preorder and the sort is well defined |
| `ProductRank.ZeroRankIsNoRank` | src/app/admin/products/page.tsx:64-73 | a rank of 0 and a missing rank are indistinguishable to the comparator, on either side |
| `ProductRank.InsertSorted` | src/app/products/page.tsx:19 | inserting into a sorted list keeps it sorted and adds exactly that product |
| `ProductRank.SortProducts` | src/components/admin/ProductOrderManager.tsx:149 | the sort returns a permutation of its input, ordered by the comparator |
| `ProductRank.SortedPermutationUnique` | src/app/products/page.tsx:19-30 | two sorted arrangements of the same products with no ties are the same list, so the comparator alone decides the display |
| `ProductRank.HeadsAgree` | src/app/products/page.tsx:19-30 | two such arrangements start with the same product |
| `ProductOrderManager.Initial` | src/components/admin/ProductOrderManager.tsx:111-114 | the manager starts with no products, loading, not saving, with no changes |
| `ProductOrderManager.FillOrder` | src/components/admin/ProductOrderManager.tsx:143-146 | a product without a rank gets its 1-based fetch position; a present rank, including 0, is kept; no other field changes |
| `ProductOrderManager.Renumber` | src/components/admin/ProductOrderManager.tsx:182-185 | every rank becomes the 1-based position and everything else about each product is unchanged |
| `ProductOrderManager.FindIndex` | src/components/admin/ProductOrderManager.tsx:172 | the result is the first position holding the id, or none when no product has it |
| `ProductOrderManager.FetchProducts` | src/components/admin/ProductOrderManager.tsx:131-168 | on an error the list is kept; otherwise the list is a sorted permutation of the filled-in rows, every one ranked; loading ends either way |
| `ProductOrderManager.MoveProduct` | src/components/admin/ProductOrderManager.tsx:170-190 | an unknown id or a move past either end changes nothing; otherwise exactly positions i and i±1 trade products, the ranks become 1..N and `hasChanges` is set |
| `ProductOrderManager.CanMoveUp` | src/components/admin/ProductOrderManager.tsx:312 | for a product in the list, the up arrow is enabled exactly when there is a product above it to trade with |
| `ProductOrderManager.CanMoveDown` | src/components/admin/ProductOrderManager.tsx:313 | for a product in the list, the down arrow is enabled exactly when there is a product below it to trade with |
| `ProductOrderManager.MoveGatedByButtons` | src/components/admin/ProductOrderManager.tsx:312-313 | with unique ids, an arrow button is enabled exactly when pressing it changes the state |
| `ProductOrderManager.DragEnd` | src/components/admin/ProductOrderManager.tsx:192-212 | dropping a product on itself changes nothing; otherwise the list is the old one with the dragged product moved to the target index, the dragged product sits there, ranks are 1..N and `hasChanges` is set |
| `ProductOrderManager.StripRanksArrayMove` | src/components/admin/ProductOrderManager.tsx:200-206 | renumbering after the move touches only ranks: moving and then erasing ranks equals erasing ranks and then moving |
| `ProductOrderManager.OrderRequests` | src/components/admin/ProductOrderManager.tsx:221-226 | one update per product, in list order, writing that product's rank under its id |
| `ProductOrderManager.SaveOrder` | src/components/admin/ProductOrderManager.tsx:214-247 | the parent is notified and `hasChanges` cleared exactly when every update reported no error; a rejected batch keeps the flag; saving ends either way |
| `ProductOrderManager.ResetOrder` | src/components/admin/ProductOrderManager.tsx:249-252 | reset reloads as a fetch does and always clears `hasChanges` |
| `ProductOrderManager.NumberedIsSortedWithoutTies` | src/components/admin/ProductOrderManager.tsx:182-185 | a list ranked 1..N is already sorted and has no ties |
| `ProductOrderManager.ReloadRestoresSavedOrder` | src/components/admin/ProductOrderManager.tsx:131-162 | after ranks 1..N are saved, reloading the rows in any order shows exactly the saved arrangement |
| `AdminProducts.EmptyProduct` | src/app/admin/products/page.tsx:25-35 | the template has empty id and texts, an empty gallery, `in_stock` true and rank 0, which counts as no rank |
| `AdminProducts.EmptyProductSortsAfterRanked` | src/app/admin/products/page.tsx:34 | the template sorts after every product with a truthy rank |
| `AdminProducts.LoadProducts` | src/app/admin/products/page.tsx:53-82 | a failed query leaves the page as it was; otherwise the list is a sorted permutation of the rows, with no rank filled in |
| `AdminProducts.LoadShowsSavedOrder` | src/app/admin/products/page.tsx:63-75 | with ranks 1..N stored, the admin list loaded from the rows in any order is the saved arrangement |
| `AdminProducts.HandleAddProduct` | src/app/admin/products/page.tsx:89-92 | the form opens on the template in adding mode; the list and tab are kept |
| `AdminProducts.HandleEdit` | src/app/admin/products/page.tsx:94-96 | the form opens on the chosen product; nothing else changes |
| `AdminProducts.RemoveId` | src/app/admin/products/page.tsx:108 | a product stays exactly when its id differs; with no product of that id the list is unchanged |
| `AdminProducts.RemoveIdKeepsOrder` | src/app/admin/products/page.tsx:108 | the filter distributes over concatenation, so the kept products stay in their order |
| `AdminProducts.HandleDelete` | src/app/admin/products/page.tsx:98-110 | without confirmation or on a failed delete nothing changes; otherwise every product with that id leaves the list |
| `AdminProducts.HandleSaved` | src/app/admin/products/page.tsx:112-139 | the form closes; a successful reload gives a sorted permutation of the rows, a failed one keeps the list |
| `AdminProducts.HandleCancel` | src/app/admin/products/page.tsx:141-144 | the form closes and the list and tab are kept |
| `AdminProducts.HandleTabChange` | src/app/admin/products/page.tsx:146-151 | the tab becomes the chosen one and the open form is always abandoned |
| `PublicProducts.DisplayOrder` | src/app/products/page.tsx:19-30 | the products shown are a sorted permutation of the rows |
| `PublicProducts.Render` | src/app/products/page.tsx:13-37 | the page is the message "Error loading products" exactly when the query failed; otherwise it has one card per product, in display order, linking to `/products/<id>` |
| `PublicProducts.ShowsSavedOrder` | src/app/products/page.tsx:19-30 | with ranks 1..N stored, the public page shows the arrangement saved in the admin panel |
| `ProductForm.BuildProductData` | src/components/admin/ProductForm.tsx:55-65 | the brand is always "TEZUKURI VAN", a missing rank is written as 0, and every other column is the form's |
| `ProductForm.BrandIgnoresForm` | src/components/admin/ProductForm.tsx:61 | the brand typed into the form has no effect on the saved record |
| `ProductForm.SubmitRequest` | src/components/admin/ProductForm.tsx:69-90 | a non-empty id updates that row and an empty id inserts; both write the same record |
| `ProductForm.AfterSubmit` | src/components/admin/ProductForm.tsx:84-99 | the form closes exactly when the write succeeded; an insert that returned its row gives the submitted form that id and changes nothing else |
| `ProductForm.RemoveGalleryImage` | src/components/admin/ProductForm.tsx:223-229 | exactly gallery index i is dropped and the rest keep their order; an index outside the gallery changes nothing |
| `ProductForm.AppendGalleryImage` | src/components/admin/ProductForm.tsx:249-271 | a successful upload with a non-empty public URL appends it at the end; otherwise the form is unchanged |
| `ProductForm.SetMainImage` | src/components/admin/ProductForm.tsx:196-203 | corrected: applied to the live form, only a non-empty uploaded URL replaces the main image, and nothing else changes |
| `ProductForm.SetMainImageAsWritten` | src/components/admin/ProductForm.tsx:196-203 | as written: a successful upload yields the render-time form with the new URL, a failed one leaves the live form; with no edit in between it agrees with the corrected handler |
| `ProductForm.MainImageUploadDropsGalleryImage` | src/components/admin/ProductForm.tsx:196-203 | as written, a gallery image added while the main-image upload is pending is lost when it resolves |
| `ProductForm.MainImageKeepsGalleryImage` | src/components/admin/ProductForm.tsx:264-270 | corrected, the main-image and gallery uploads commute, so the gallery keeps the image whichever resolves last |
| `ProductForm.AppendThenRemove` | src/components/admin/ProductForm.tsx:223-270 | removing the image just appended restores the form |
| `HeroSliderEditor.Move` | src/components/admin/HeroSliderEditor.tsx:44-50 | an out-of-range target leaves the list alone; otherwise exactly idx and idx+dir trade places; the multiset of images is preserved |
| `HeroSliderEditor.MoveForwardThenBack` | src/components/admin/HeroSliderEditor.tsx:44-50 | moving an image forward and then back restores the list |
| `HeroSliderEditor.Remove` | src/components/admin/HeroSliderEditor.tsx:52-54 | exactly index idx is dropped, so the list is one shorter; any other idx leaves it alone |
| `HeroSliderEditor.Upload` | src/components/admin/HeroSliderEditor.tsx:25-38 | a failed upload leaves the list alone; a successful one appends exactly its URL; busy is cleared either way |
| `HeroSliderEditor.SaveRequest` | src/components/admin/HeroSliderEditor.tsx:16-19 | save writes the current list under the `hero` key |
| `SeqOps.Swap` | src/components/admin/ProductOrderManager.tsx:179 | the two positions trade elements and all others stay |
| `SeqOps.SwapPermutes` | src/components/admin/HeroSliderEditor.tsx:48 | a swap preserves the multiset |
| `SeqOps.RemoveIndex` | src/components/admin/HeroSliderEditor.tsx:53 | an in-range index is dropped with the rest shifted down; an out-of-range index removes nothing |
| `SeqOps.FilterIndexFrom` | src/components/admin/ProductForm.tsx:226-228 | the index-keyed `filter` drops exactly the element whose index matches |
| `SeqOps.RemoveIndexMultiset` | src/components/admin/HeroSliderEditor.tsx:53 | removal takes exactly one copy of the removed element out of the multiset |
| `SeqOps.InsertAt` | src/extensions/CustomImage.ts:89-92 | the element lands at the position; those before keep their places and those after shift up by one |
| `SeqOps.InsertAtMultiset` | src/extensions/CustomImage.ts:89-92 | insertion adds exactly one copy of the element to the multiset |
| `SeqOps.ArrayMove` | src/components/admin/ProductOrderManager.tsx:200 | the moved element ends at the target; removing it there gives the list with it removed at the source; elements between shift by one |
| `SeqOps.ArrayMovePermutes` | src/components/admin/ProductOrderManager.tsx:200 | moving preserves the multiset |
| `JsText.LexCompare` | src/components/admin/ProductOrderManager.tsx:159 | the id order answers -1, 0 or 1; its partners below show it is a strict total order |
| `JsText.LexCompareZeroIff` | src/components/admin/ProductOrderManager.tsx:159 | the id order reports a tie exactly for equal ids |
| `JsText.LexCompareAntisymmetric` | src/components/admin/ProductOrderManager.tsx:159 | swapping the ids negates the id order's answer |
| `JsText.LexCompareTransitive` | src/components/admin/ProductOrderManager.tsx:159 | the id order is transitive |
| `JsText.NatToString` | src/lib/eventUtils.ts:29 | a number prints as a non-empty digit string with no leading zero |
| `JsText.NatToStringValue` | src/lib/eventUtils.ts:29 | the printed digits denote the number |
| `JsText.ReadNatOfNumeral` | src/lib/eventUtils.ts:29 | reading a printed number back before a non-digit gives the number and the rest |
| `JsText.ParseInt` | src/app/api/contact/route.ts:7 | blank text gives NaN (none), and a negative result needs a leading minus sign; `ParseIntOfNumeral` is its inverse on printed numbers |
| `JsText.ParseIntOfDigits` | src/app/api/contact/route.ts:7 | `parseInt` of a digit string without a leading zero gives its value |
| `JsText.ParseIntOfNumeral` | src/app/api/contact/route.ts:7 | `parseInt` reads a printed number back exactly |
| `JsText.ReplaceChar` | src/app/api/contact/route.ts:42 | a text without the character is unchanged, and when the replacement lacks it none survives |
| `JsText.ReplaceCharAppend` | src/app/api/contact/route.ts:42 | the global replace works piecewise over concatenation |
| `JsRecord.Set` | src/app/admin/about/page.tsx:57 | assigning an existing key keeps the key order; a new key is appended at the end; other entries stay put |
| `JsRecord.SetGet` | src/app/admin/about/page.tsx:68-76 | after assigning a key, reading it gives the value and every other key reads as before |
| `JsRecord.SetUnique` | src/app/admin/about/page.tsx:55-58 | assignment keeps keys unique |
| `JsRecord.Delete` | src/app/admin/about/page.tsx:93 | after removing a key it is absent and every other key reads as before |
| `AdminAbout.LastIndexOf` | src/app/admin/about/page.tsx:56-58 | the result is the last row with that section name, or none exactly when no row has it |
| `AdminAbout.BuildSectionMap` | src/app/admin/about/page.tsx:55-58 | the section map has one entry per section name |
| `AdminAbout.SectionMapLastWins` | src/app/admin/about/page.tsx:55-58 | the map holds, under each name, the last row with that name, and nothing under a name no row has |
| `AdminAbout.FetchSections` | src/app/admin/about/page.tsx:49-63 | a failed query leaves the map empty; otherwise it is keyed uniquely by section name |
| `AdminAbout.HandleChange` | src/app/admin/about/page.tsx:68-76 | the field of that section takes the value; the section's other fields and every other section are unchanged; an existing section keeps the key order, and a new one is appended at the end holding just the field |
| `AdminAbout.SetItemField` | src/app/admin/about/page.tsx:84 | the chosen field of the item takes the value and the other is kept |
| `AdminAbout.HandleValueItemChange` | src/app/admin/about/page.tsx:78-86 | item i's field takes the value and the list keeps its length and other items; it fails exactly when there is no values section, the items are a string, or i is not a position |
| `AdminAbout.UpdateFor` | src/app/admin/about/page.tsx:93-97 | the row is selected by its id and the payload is every other column |
| `AdminAbout.Updates` | src/app/admin/about/page.tsx:90 | one update per section, in the map's insertion order |
| `AdminAbout.FirstFailure` | src/app/admin/about/page.tsx:99-104 | the result is the first failing reply, or none exactly when every reply succeeded |
| `AdminAbout.HandleSave` | src/app/admin/about/page.tsx:88-109 | sections are written in map order, stopping after the first failure; "Saved successfully!" exactly when every write succeeded |
| `AdminAbout.FirstFailureAt` | src/app/admin/about/page.tsx:99-104 | an error after a run of successes is the first failure |
| `EventDates.OrdinalSuffix` | src/lib/eventUtils.ts:14-22 | the suffix is two letters and agrees with the English ordinal rule for every number up to 110 |
| `EventDates.SuffixOfDay` | src/lib/eventUtils.ts:14-22 | days 4 to 20 and 24 to 30 take "th", 1, 21 and 31 take "st", 2 and 22 take "nd", 3 and 23 take "rd" |
| `EventDates.SuffixDivergesAt111` | src/lib/eventUtils.ts:15-17 | past the days of a month the shortcut gives "111st" where English has "111th" |
| `EventDates.FormatEventDate` | src/lib/eventUtils.ts:27-33 | in both layouts the line opens with the start month, day and suffix and closes with ", " and the end year |
| `EventDates.AfterStartDay` | src/lib/eventUtils.ts:28-33 | what follows the start day ends, in both layouts, with ", " and the end year |
| `EventDates.FormatParseRoundTrip` | src/lib/eventUtils.ts:27-33 | the same-year line "M D1s ~ D2s, Y" gives back the month, both days and the year once; the cross-year line gives back both full dates |
| `EventDates.FormatInjective` | src/app/admin/events/page.tsx:56-62 | two lines are equal only when the start dates agree and the end days and years agree, and with different years the end months agree too |
| `EventDates.ReadOrdinalOf` | src/lib/eventUtils.ts:24-25 | a day followed by its suffix is read back as that day |
| `EventDates.ReadDayYearOf` | src/lib/eventUtils.ts:29 | the tail "Ds, Y" is read back as the day and the year |
| `EventDates.CrossYearTailOf` | src/lib/eventUtils.ts:32 | the tail "Y1 ~ M2 D2s, Y2" is read back as the start year and the end date |
| `EventDates.EmptyEvent` | src/app/admin/events/page.tsx:21-28 | the new-event template has every field empty |
| `ValueSection.ColumnClass` | src/components/ValueSection.tsx:12-17 | the class lays out one or two values in that many columns and every other count in three |
| `ValueSection.ColumnsForCount` | src/components/ValueSection.tsx:12-17 | one or two values get that many columns; every other count, zero included, gets three |
| `ValueSection.Cards` | src/components/ValueSection.tsx:23-25 | one card per value, in the same order, keyed by its index and carrying that value's title and description |
| `SectionEditor.IsPlainTextSection` | src/components/admin/SectionEditor.tsx:32-35 | the keys edited as plain text, hero, contact_cta and about_preview; `EditorFor` states the choice both ways |
| `SectionEditor.EditorFor` | src/components/admin/SectionEditor.tsx:32-58 | the plain text box is used exactly for hero, contact_cta and about_preview, and the rich-text editor for every other key |
| `SectionEditor.Initial` | src/components/admin/SectionEditor.tsx:14-15 | the editor starts from the section's title and content, or "" when absent |
| `SectionEditor.SaveRequest` | src/components/admin/SectionEditor.tsx:20-23 | save writes only title and content, to the row with the section's key |
| `SectionEditor.SaveUnedited` | src/components/admin/SectionEditor.tsx:14-23 | saving without edits writes back what the section held |
| `ContactForm.EmptyFields` | src/components/ContactForm.tsx:6 | all three fields start empty |
| `ContactForm.Initial` | src/components/ContactForm.tsx:6-9 | the form starts idle with empty fields |
| `ContactForm.EditName` | src/components/ContactForm.tsx:39 | typing a name changes only the name |
| `ContactForm.EditEmail` | src/components/ContactForm.tsx:50 | typing an email changes only the email |
| `ContactForm.EditMessage` | src/components/ContactForm.tsx:61 | typing a message changes only the message |
| `ContactForm.SubmitDisabled` | src/components/ContactForm.tsx:68 | the button is disabled while loading and enabled in the idle, success and error states |
| `ContactForm.Submit` | src/components/ContactForm.tsx:11-13 | submitting sets loading, which disables the button, before any reply |
| `ContactForm.ReceiveAsWritten` | src/components/ContactForm.tsx:15-28 | an ok reply gives success and clears the fields; a non-ok one gives error and keeps them; a rejected fetch leaves the state untouched |
| `ContactForm.StuckAfterNetworkFailure` | src/components/ContactForm.tsx:13-28 | as written, a network failure leaves the form loading with its button disabled |
| `ContactForm.Receive` | src/components/ContactForm.tsx:23-28 | corrected: any failure, the network included, gives error and keeps what was typed |
| `ContactForm.SubmissionAlwaysSettles` | src/components/ContactForm.tsx:68 | with the correction every submission re-enables the button, and it agrees with the written code whenever a response arrives |
| `ContactRoute.OrDefault` | src/app/api/contact/route.ts:6 | an unset or empty variable falls back to the default |
| `ContactRoute.TransportOf` | src/app/api/contact/route.ts:5-13 | the host falls back to smtp.gmail.com; the port is `parseInt` of the variable or "587"; secure exactly when SMTP_SECURE is "true" |
| `ContactRoute.PortDefaults` | src/app/api/contact/route.ts:7 | without SMTP_PORT the port is 587, and a numeral in SMTP_PORT gives its value |
| `ContactRoute.MessageHtml` | src/app/api/contact/route.ts:42 | no newline survives the rewrite, and a message without one is unchanged |
| `ContactRoute.MessageHtmlRoundTrip` | src/app/api/contact/route.ts:42 | only newlines are rewritten: a message without its own `<` is recovered exactly |
| `ContactRoute.PlainText` | src/app/api/contact/route.ts:33 | the body opens with the name line, ends with the message unaltered, and adds only the 24 characters of labels and line breaks |
| `ContactRoute.PlainTextRoundTrip` | src/app/api/contact/route.ts:33 | the plain-text body carries the three fields unaltered and can be read back when name and email are single lines |
| `ContactRoute.HtmlBody` | src/app/api/contact/route.ts:34-49 | the body opens with the fixed header and ends with the fixed footer; just before the footer sits the rewritten message, which reads back as the message when it has no `<` of its own |
| `ContactRoute.MailFor` | src/app/api/contact/route.ts:28-50 | the sender is "Tezukuri Van Contact" with SMTP_USER, or "undefined" when unset, as address; the recipient is CONTACT_EMAIL or the fallback address; the subject is the fixed prefix followed by the name; replyTo is the email; when name and email contain no newline the text reads back as the three fields; the HTML is the body above |
| `ContactRoute.Respond` | src/app/api/contact/route.ts:56-66 | HTTP 200 exactly when the mail was sent, with "ok" and the message id; otherwise 500 with "error" and the error's message or "Unknown error" |
| `ContactRoute.FormSucceedsIffSent` | src/app/api/contact/route.ts:53-66 | end to end, with the form's reply handling as written, the form reports success exactly when the mail was sent, and only then clears the fields |
| `CustomImage.Defaults` | src/extensions/CustomImage.ts:24-31 | src, alt and title default to null and width to "300px" |
| `CustomImage.RenderHtml` | src/extensions/CustomImage.ts:52-77 | a centred div holding exactly one marked img whose style width is the width attribute, or "300px" when it is falsy |
| `CustomImage.ImageStyleWidth` | src/extensions/CustomImage.ts:67-73 | the image style's width is the given width |
| `CustomImage.GetAttributeAfter` | src/extensions/CustomImage.ts:65-66 | the marker merged after the node's attributes is found |
| `CustomImage.HtmlAttributesLookup` | src/extensions/CustomImage.ts:41-43 | src, alt and title read back from the rendered attributes as they were, null ones as absent |
| `CustomImage.ParseImage` | src/extensions/CustomImage.ts:38-46 | the parsed width is never empty: it is the style width, or "300px" |
| `CustomImage.Normalize` | src/extensions/CustomImage.ts:44-53 | a node with a non-empty width is its own normal form; only the width is ever normalised |
| `CustomImage.RenderParseRoundTrip` | src/extensions/CustomImage.ts:34-77 | parsing the rendered markup finds exactly one image with the same src, alt and title and the width that was drawn |
| `CustomImage.InsertCustomImage` | src/extensions/CustomImage.ts:88-93 | exactly one `customImage` node carrying the given options is inserted at a collapsed cursor between blocks, and the rest of the document is kept |
| `CustomImage.NodeAttrs` | src/extensions/CustomImage.ts:24-31 | the stored node takes src, alt and title from the options and the width or its default |
| `CustomImage.AlignIgnored` | src/extensions/CustomImage.ts:30 | `align` is not an attribute of the node and has no effect on it |

## Left out

- Database, storage and authentication calls are not modelled. Each query, update, insert, delete or upload enters as an `Ok`/`Err` input. Login redirects and `getPublicUrl` are not modelled.
- The concurrency of `Promise.all` in the order save is not modelled. The batch enters as one error slot per update, or as a rejection; there is no rollback.
- `new Date`, `toLocaleDateString`, `getDate` and `getFullYear` are locale and time-zone dependent, so the month name, day and year are inputs. `formatEventTime` is not modelled for the same reason.
- `parseFloat` on the price and rank fields is floating point and can give NaN, so the rank is an optional integer. Typing into the form is not modelled beyond that.
- `localeCompare` depends on the locale. Ids are compared by code-point order instead (`JsText.LexCompare`).
- dnd-kit sensors, transforms and collision detection are library behaviour and are not modelled. `ProductOrderManager.DragEnd` requires both ids to be in the list; the `over == null` case, where `findIndex` gives -1, is library behaviour.
- ProductRank.SortProducts: does not state stability. When two products tie (equal ranks, or equal ids without a rank), the order of the sorted list is that of this insertion sort; the runtime's sort is stable too, but stability is not part of the contract.
- CustomImage.RenderParseRoundTrip: models only the node's `getAttrs` rule over the rendered style text. Two steps between render and parse are not modelled. (a) The browser's CSS object model normalises `style.width` and drops values it cannot parse, so "width: 400" reads back as "" and the node gets "300px". (b) Tiptap 2 renders each declared attribute onto the img as an HTML attribute, and on parsing merges each attribute's default parse, `getAttribute("width")`, over `getAttrs`. So a width of "" is drawn as "300px" in the style but parses back as "", where the model gives "300px".
- JsRecord: JavaScript objects list integer-like keys ("0", "42") first, in ascending order, before the other keys in insertion order. The model keeps insertion order for every key, so it assumes section names are not array indices.
- Tiptap editor wiring, the HTML string it stores, and `mergeAttributes` internals are not modelled. `insertContent` replaces a non-empty selection (a selected node or a text range); `CustomImage.InsertCustomImage` covers only a collapsed cursor between blocks. Markup is a tree of elements with attribute lists and style declarations, not a string.
- nodemailer and `sendMail` are external e-mail. The send outcome is an input, and the transport's password is not modelled.
- ContactRoute.MailFor: takes the JSON fields as strings. A missing or non-string `message` makes `message.replace` throw, and the route then answers 500; that case is not modelled. The text is stated to read back only when name and email contain no newline, since a newline in either shifts the labelled lines.
- ContactRoute.MessageHtml: the name, email and message are put into the HTML without escaping, as in the code. The round trip is stated only for messages without `<`.
- JsText.ParseInt: skips only the ASCII whitespace characters, not the full Unicode set JavaScript skips. Numbers beyond double precision are exact here.
- UI components are presentational and not modelled: the header menu, event modal, event list, animations, static pages, layout, footer and Tailwind config.
- `src/types/product.ts` is not part of this model: its field names do not match the database rows the pages use, so the row shape (`id`, optional `order`, `gallery_images`, ...) is modelled instead.
- ProductForm.AfterSubmit: takes the form as submitted. `setFormData({ ...formData, id })` at src/components/admin/ProductForm.tsx:88 spreads that render-time form, so edits typed while the insert is pending are written over; the model has no such edits.
- `alert`, `console` and `confirm` are not modelled beyond the confirmation answer. `HandleDelete` takes that answer as an input.
- AdminAbout.HandleValueItemChange: mutates the shared item object in place, so the previous state also sees the edit. The model describes only the new state.

## Findings

| source | as written | input that shows it | evidently intended | confidence | as-written member | corrected member |
|---|---|---|---|---|---|---|
| src/components/ContactForm.tsx:13-28 | the status is set to `loading` before `fetch`, and there is no `catch` | `fetch` rejects (network down, request blocked): the status stays `loading` and the submit button stays disabled until reload | a failed request shows the error message and re-enables the button | medium, not executed | `ContactForm.StuckAfterNetworkFailure` | `ContactForm.SubmissionAlwaysSettles` |
| src/components/admin/ProductForm.tsx:196-203 | after `await uploadImage(file)` the handler calls `setFormData({ ...formData, image_url: url })` with the form captured at render time | add a gallery image, or type into a field, while a main-image upload is pending; when the upload resolves the gallery image or the typed text is gone | update through `prev`, as the gallery handlers at lines 223-229 and 264-270 do | medium, not executed | `ProductForm.MainImageUploadDropsGalleryImage` | `ProductForm.MainImageKeepsGalleryImage` |
