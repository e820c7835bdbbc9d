/** The admin banner manager: the edit dialog's form, the image and save
    guards, the active switch and the preview of active banners. */
module Banners {
  import opened Wrappers
  import opened Text
  import opened Seqs
  import opened Types
  import opened Rows
  import opened Uploads
  import Carousel

  /** The dialog's form: a banner row without its id. */
  datatype BannerForm = BannerForm(
    imageUrl: string,
    title: string,
    subtitle: string,
    buttonText: string,
    buttonLink: string,
    isActive: bool,
    sortOrder: int)

  const DefaultButtonText := "Shop Now"
  const DefaultButtonLink := "/products"

  /** `emptyBanner`. */
  const EmptyBannerForm := BannerForm("", "", "", DefaultButtonText, DefaultButtonLink, true, 0)

  /** The dialog: the banner being edited, if any, the form, the image preview. */
  datatype Dialog = Dialog(editing: Option<Banner>, form: BannerForm, preview: Option<string>, open: bool)

  /** The edit form for an existing banner: null texts become empty, an empty
      button text or link falls back to its default, the rest is copied. */
  function FormOf(b: Banner): (f: BannerForm)
    ensures f.imageUrl == b.imageUrl && f.isActive == b.isActive && f.sortOrder == b.sortOrder
    ensures f.title == b.title.GetOr("") && f.subtitle == b.subtitle.GetOr("")
    ensures f.buttonText == (if b.buttonText == "" then DefaultButtonText else b.buttonText)
    ensures f.buttonLink == (if b.buttonLink == "" then DefaultButtonLink else b.buttonLink)
  {
    BannerForm(b.imageUrl, OptOrElse(b.title, ""), OptOrElse(b.subtitle, ""),
      OrElse(b.buttonText, DefaultButtonText), OrElse(b.buttonLink, DefaultButtonLink),
      b.isActive, b.sortOrder)
  }

  /** `handleOpenDialog`: editing an existing banner loads it into the form; a
      new banner starts from the defaults and goes after the existing ones. */
  function OpenDialog(banners: seq<Banner>, banner: Option<Banner>): (d: Dialog)
    ensures d.open && d.editing == banner
    ensures banner.Some? ==> d.form == FormOf(banner.value) && d.preview == Some(banner.value.imageUrl)
    ensures banner.None? ==> d.preview.None? && d.form.sortOrder == |banners|
    ensures banner.None? ==> d.form.imageUrl == "" && d.form.title == "" && d.form.subtitle == ""
    ensures banner.None? ==> d.form.buttonText == "Shop Now" && d.form.buttonLink == "/products" && d.form.isActive
  {
    match banner
    case Some(b) => Dialog(banner, FormOf(b), Some(b.imageUrl), true)
    case None => Dialog(None, EmptyBannerForm.(sortOrder := |banners|), None, true)
  }

  /** A saved banner that already had its defaults opens with exactly its own
      values: the form mapping loses nothing. */
  lemma FormOfKeepsSavedValues(b: Banner)
    requires b.title.Some? && b.subtitle.Some? && b.buttonText != "" && b.buttonLink != ""
    ensures var f := FormOf(b);
      Banner(b.id, f.imageUrl, Some(f.title), Some(f.subtitle), f.buttonText, f.buttonLink, f.isActive, f.sortOrder) == b
  {
  }

  /** `handleImageUpload` with the banner limit, when the storage service
      answers: `d` is the dialog at that moment, `captured` the form as it was
      when the file was chosen (the handler's closure), and `stored` the
      service's answer (the public URL, or an error). Nothing changes unless
      the file passed the checks and was stored; then the captured form, with
      the new URL, replaces the form. */
  function UploadImage(d: Dialog, captured: BannerForm, file: FileInfo, stored: Result<string, string>): (r: Dialog)
    ensures CheckImage(file, BannerImageLimit).Err? || stored.Err? ==> r == d
    ensures CheckImage(file, BannerImageLimit).Ok? && stored.Ok? ==>
      r == d.(form := captured.(imageUrl := stored.value), preview := Some(stored.value))
  {
    if CheckImage(file, BannerImageLimit).Err? then d
    else match stored
      case Ok(url) => d.(form := captured.(imageUrl := url), preview := Some(url))
      case Err(_) => d
  }

  /** Without edits during the upload only the image changes; a title typed
      while the upload was in flight is replaced by the one from before. */
  lemma UploadKeepsOnlyCapturedEdits(d: Dialog, captured: BannerForm, file: FileInfo, url: string)
    requires CheckImage(file, BannerImageLimit).Ok?
    ensures d.form == captured ==> UploadImage(d, captured, file, Ok(url)).form == d.form.(imageUrl := url)
    ensures d.form.title != captured.title ==> UploadImage(d, captured, file, Ok(url)).form.title != d.form.title
  {
  }

  /** The remove button on the preview clears the image and the preview; the
      other fields of the form stay as typed. */
  function RemoveImage(d: Dialog): (r: Dialog)
    ensures r.form.imageUrl == "" && r.preview.None?
    ensures r.form == d.form.(imageUrl := "")
    ensures r.editing == d.editing && r.open == d.open
  {
    d.(form := d.form.(imageUrl := ""), preview := None)
  }

  /** What `handleSave` asks of the backend. */
  datatype SaveRequest = NoRequest | UpdateRow(id: string, form: BannerForm) | InsertRow(form: BannerForm)

  /** The request `handleSave` makes: none without an image, an update when an
      existing banner with an id is being edited, an insert otherwise. */
  function SaveRequestOf(d: Dialog): (q: SaveRequest)
    ensures q.NoRequest? <==> d.form.imageUrl == ""
    ensures q.UpdateRow? <==> d.form.imageUrl != "" && d.editing.Some? && d.editing.value.id != ""
    ensures q.UpdateRow? ==> q.id == d.editing.value.id && q.form == d.form
    ensures q.InsertRow? ==> q.form == d.form
  {
    if d.form.imageUrl == "" then NoRequest
    else if d.editing.Some? && d.editing.value.id != "" then UpdateRow(d.editing.value.id, d.form)
    else InsertRow(d.form)
  }

  /** `handleSave`: the dialog closes only when a request was made and it succeeded. */
  function Save(d: Dialog, backendOk: bool): (r: Dialog)
    ensures r.open <==> d.open && (d.form.imageUrl == "" || !backendOk)
    ensures r.form == d.form && r.editing == d.editing
  {
    if SaveRequestOf(d).NoRequest? || !backendOk then d else d.(open := false)
  }

  /** The save guard: a new banner saved before any upload sends nothing and
      the dialog stays open, and so does any dialog whose image was removed;
      an upload that stores a URL lets the save through; an existing banner
      reopened and saved is updated by its id, and the dialog closes when the
      backend agrees. */
  lemma SaveTargetsDialog(banners: seq<Banner>, b: Banner, d: Dialog, captured: BannerForm,
                          file: FileInfo, url: string, backendOk: bool)
    ensures SaveRequestOf(OpenDialog(banners, None)) == NoRequest
    ensures Save(OpenDialog(banners, None), backendOk) == OpenDialog(banners, None)
    ensures SaveRequestOf(RemoveImage(d)) == NoRequest
    ensures Save(RemoveImage(d), backendOk) == RemoveImage(d)
    ensures CheckImage(file, BannerImageLimit).Ok? && url != "" ==>
      SaveRequestOf(UploadImage(d, captured, file, Ok(url))) != NoRequest
    ensures b.id != "" && b.imageUrl != "" ==>
      SaveRequestOf(OpenDialog(banners, Some(b))) == UpdateRow(b.id, FormOf(b)) &&
      !Save(OpenDialog(banners, Some(b)), true).open
  {
  }

  /** The banners after `toggleActive(id, isActive)`: when the update
      succeeds (`backendOk`), the banner with that id gets the negation of the
      value the switch showed; when it fails, nothing changes. */
  function ToggleActive(banners: seq<Banner>, id: string, isActive: bool, backendOk: bool): (r: seq<Banner>)
    ensures |r| == |banners|
    ensures !backendOk ==> r == banners
    ensures backendOk ==> forall i :: 0 <= i < |r| ==>
      (banners[i].id == id ==> r[i] == banners[i].(isActive := !isActive)) &&
      (banners[i].id != id ==> r[i] == banners[i])
  {
    if !backendOk then banners
    else seq(|banners|, i requires 0 <= i < |banners| => ActiveIf(banners[i], id, !isActive))
  }

  function ActiveIf(b: Banner, id: string, active: bool): Banner {
    if b.id == id then b.(isActive := active) else b
  }

  /** Flipping the switch twice, each time from the value on screen, restores
      the table (ids are the table's primary key). */
  lemma ToggleTwiceRestores(banners: seq<Banner>, i: nat)
    requires i < |banners|
    requires forall j :: 0 <= j < |banners| && banners[j].id == banners[i].id ==> j == i
    ensures var id := banners[i].id;
      var once := ToggleActive(banners, id, banners[i].isActive, true);
      ToggleActive(once, id, once[i].isActive, true) == banners
  {
    var id := banners[i].id;
    var once := ToggleActive(banners, id, banners[i].isActive, true);
    var twice := ToggleActive(once, id, once[i].isActive, true);
    forall j | 0 <= j < |banners| ensures twice[j] == banners[j] {
      if banners[j].id == id {
        assert j == i;
      }
    }
  }

  /** `handleDelete(id)`, on the list the page shows after its refetch. */
  function DeleteBanner(banners: seq<Banner>, id: string, confirmed: bool, backendOk: bool): seq<Banner> {
    DeleteById(banners, (b: Banner) => b.id, id, confirmed, backendOk)
  }

  function IsActive(b: Banner): bool { b.isActive }

  /** `activeBanners`: the active banners, in the list's order. */
  function ActiveBanners(banners: seq<Banner>): (r: seq<Banner>)
    ensures forall i :: 0 <= i < |r| ==> r[i].isActive && r[i] in banners
    ensures forall b :: b in banners && b.isActive ==> b in r
    ensures IsSubsequence(r, banners)
  {
    FilterIsSubsequence(banners, IsActive);
    Filter(banners, IsActive)
  }

  /** The preview button is disabled exactly when no banner is active. */
  lemma PreviewDisabledIffNoneActive(banners: seq<Banner>)
    ensures |ActiveBanners(banners)| == 0 <==> forall i :: 0 <= i < |banners| ==> !banners[i].isActive
  {
    FilterLength(banners, IsActive);
    CountPositiveIff(banners, IsActive);
  }

  /** The preview's heading and button text: those of the first active banner,
      with their fallbacks. */
  function PreviewTexts(banners: seq<Banner>): (r: (string, string))
    ensures r.0 != "" && r.1 != ""
    ensures |ActiveBanners(banners)| == 0 ==> r == ("Banner Title", "Shop Now")
    ensures |ActiveBanners(banners)| > 0 ==>
      var first := ActiveBanners(banners)[0];
      (first.title.Some? && first.title.value != "" ==> r.0 == first.title.value) &&
      (first.title.None? || first.title.value == "" ==> r.0 == "Banner Title") &&
      (first.buttonText != "" ==> r.1 == first.buttonText) &&
      (first.buttonText == "" ==> r.1 == "Shop Now")
  {
    var active := ActiveBanners(banners);
    if |active| == 0 then ("Banner Title", "Shop Now")
    else (OptOrElse(active[0].title, "Banner Title"), OrElse(active[0].buttonText, "Shop Now"))
  }

  /** The home page's carousel fetches the active banners in the same order, so
      its first slide is the banner the preview shows: the same button text,
      and the same title whenever the banner has one. Without a title the
      preview says "Banner Title" while the home page says "Discover Your". */
  lemma PreviewMatchesFirstSlide(banners: seq<Banner>)
    requires |ActiveBanners(banners)| > 0
    ensures var first := ActiveBanners(banners)[0];
      var h := Carousel.View(Carousel.State(ActiveBanners(banners), 0, false));
      h.Slide? && h.buttonText == PreviewTexts(banners).1 &&
      (first.title.Some? && first.title.value != "" ==> h.title == PreviewTexts(banners).0) &&
      (first.title.None? || first.title.value == "" ==> h.title == "Discover Your" && PreviewTexts(banners).0 == "Banner Title")
  {
  }
}
