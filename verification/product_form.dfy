/** The product edit form: the record it writes, the choice between update and
    insert, and the gallery list edits. */
module ProductForm {
  import opened Wrappers
  import opened ProductRank
  import SeqOps

  /** The columns written on save (everything but the id). */
  datatype ProductData = ProductData(
    name: string,
    description: string,
    price: Option<real>,
    image_url: string,
    gallery_images: seq<string>,
    brand: string,
    category: string,
    in_stock: bool,
    order: int)

  /** The database call a submit makes. */
  datatype Write = UpdateRow(id: string, data: ProductData) | InsertRow(data: ProductData)

  /** The reply to the write: for an insert, the id of the new row, when the row came back. */
  datatype WriteReply = Written(insertedId: Option<string>) | WriteFailed(message: string)

  datatype SubmitResult = SubmitResult(form: Product, saved: bool)

  const Brand: string := "TEZUKURI VAN"

  /** The record built from the form: the brand is fixed, a missing rank is 0, and
      the other columns are the form's. */
  function BuildProductData(form: Product): (d: ProductData)
    ensures d.brand == Brand
    ensures form.order.Some? ==> d.order == form.order.value
    ensures form.order.None? ==> d.order == 0
    ensures d.name == form.name && d.description == form.description && d.price == form.price
    ensures d.image_url == form.image_url && d.gallery_images == form.gallery_images
    ensures d.category == form.category && d.in_stock == form.in_stock
  {
    ProductData(form.name, form.description, form.price, form.image_url, form.gallery_images,
                Brand, form.category, form.in_stock, form.order.GetOr(0))
  }

  /** Whatever brand the form holds, the saved one is the shop's. */
  lemma BrandIgnoresForm(form: Product, other: string)
    ensures BuildProductData(form.(brand := other)) == BuildProductData(form)
  {
  }

  /** A non-empty id updates that row; an empty id inserts a new one. */
  function SubmitRequest(form: Product): (w: Write)
    ensures w.UpdateRow? <==> form.id != ""
    ensures w.UpdateRow? ==> w.id == form.id
    ensures w.data == BuildProductData(form)
  {
    if form.id != "" then UpdateRow(form.id, BuildProductData(form))
    else InsertRow(BuildProductData(form))
  }

  /** After the reply: an insert that returned its row gives the submitted form that
      row's id and changes nothing else; `saved` (which closes the form) holds exactly when
      there was no error. */
  function AfterSubmit(form: Product, reply: WriteReply): (r: SubmitResult)
    ensures r.saved <==> reply.Written?
    ensures form.id == "" && reply.Written? && reply.insertedId.Some? ==>
      r.form == form.(id := reply.insertedId.value)
    ensures !(form.id == "" && reply.Written? && reply.insertedId.Some?) ==> r.form == form
  {
    match reply
    case WriteFailed(_) => SubmitResult(form, false)
    case Written(inserted) =>
      if form.id == "" && inserted.Some? then SubmitResult(form.(id := inserted.value), true)
      else SubmitResult(form, true)
  }

  /** The remove button on gallery image i. */
  function RemoveGalleryImage(form: Product, i: int): (r: Product)
    ensures 0 <= i < |form.gallery_images| ==>
      r.gallery_images == form.gallery_images[..i] + form.gallery_images[i + 1..]
    ensures !(0 <= i < |form.gallery_images|) ==> r == form
    ensures r.(gallery_images := form.gallery_images) == form
  {
    form.(gallery_images := SeqOps.RemoveIndex(form.gallery_images, i))
  }

  /** A gallery upload: the public URL is appended when the upload succeeded and the
      URL is non-empty. */
  function AppendGalleryImage(form: Product, upload: Result<string>): (r: Product)
    ensures upload.Ok? && upload.value != "" ==>
      r.gallery_images == form.gallery_images + [upload.value]
    ensures !(upload.Ok? && upload.value != "") ==> r == form
    ensures r.(gallery_images := form.gallery_images) == form
  {
    if upload.Ok? && upload.value != "" then
      form.(gallery_images := form.gallery_images + [upload.value])
    else form
  }

  /** The main-image upload, applied to the live form as the gallery handlers do:
      `uploadImage` gives null on a failed upload, and only a non-empty URL replaces
      the image. */
  function SetMainImage(form: Product, url: Option<string>): (r: Product)
    ensures url.Some? && url.value != "" ==> r.image_url == url.value
    ensures !(url.Some? && url.value != "") ==> r == form
    ensures r.(image_url := form.image_url) == form
  {
    if url.Some? && url.value != "" then form.(image_url := url.value) else form
  }

  /** The main-image handler as written: once the upload resolves it spreads the
      form captured when the handler was rendered, so the live form `current` is
      replaced by that `snapshot` with the new URL. A failed upload updates nothing. */
  function SetMainImageAsWritten(snapshot: Product, current: Product, url: Option<string>): (r: Product)
    ensures url.Some? && url.value != "" ==>
      r.image_url == url.value && r.(image_url := snapshot.image_url) == snapshot
    ensures !(url.Some? && url.value != "") ==> r == current
    ensures current == snapshot ==> r == SetMainImage(current, url)
  {
    if url.Some? && url.value != "" then snapshot.(image_url := url.value) else current
  }

  /** As written, a gallery image added while the main-image upload is pending is
      gone once that upload resolves. */
  lemma MainImageUploadDropsGalleryImage(snapshot: Product, g: string, u: string)
    requires g != "" && u != ""
    ensures var current := AppendGalleryImage(snapshot, Ok(g));
      |SetMainImageAsWritten(snapshot, current, Some(u)).gallery_images| < |current.gallery_images|
  {
    var current := AppendGalleryImage(snapshot, Ok(g));
    assert |current.gallery_images| == |snapshot.gallery_images| + 1;
  }

  /** Corrected, on the live form: a main-image upload and a gallery upload that
      resolve in either order give the same form, so neither loses the other's edit. */
  lemma MainImageKeepsGalleryImage(form: Product, upload: Result<string>, url: Option<string>)
    ensures SetMainImage(AppendGalleryImage(form, upload), url)
      == AppendGalleryImage(SetMainImage(form, url), upload)
    ensures SetMainImage(AppendGalleryImage(form, upload), url).gallery_images
      == AppendGalleryImage(form, upload).gallery_images
  {
  }

  /** Removing the image just appended gives back the original gallery. */
  lemma AppendThenRemove(form: Product, url: string)
    requires url != ""
    ensures RemoveGalleryImage(AppendGalleryImage(form, Ok(url)), |form.gallery_images|) == form
  {
    var g := form.gallery_images + [url];
    assert g[..|form.gallery_images|] + g[|form.gallery_images| + 1..] == form.gallery_images;
  }
}
