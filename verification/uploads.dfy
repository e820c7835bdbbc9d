/** The checks both admin image pickers make before uploading a file. */
module Uploads {
  import opened Wrappers
  import opened Text
  import opened Types

  const MiB := 1024 * 1024

  /** The banner picker's limit, 10 MiB. */
  const BannerImageLimit := 10 * MiB

  /** The product picker's limit, 5 MiB. */
  const ProductImageLimit := 5 * MiB

  /** The limit on a customer's review photo, also 5 MiB. */
  const ReviewImageLimit := 5 * MiB

  datatype UploadError = NotAnImage | TooLarge

  /** `handleImageUpload`'s guards: the type must start with `image/`, checked
      first, then the size must not exceed the limit. */
  function CheckImage(file: FileInfo, limit: int): (r: Result<(), UploadError>)
    ensures r.Ok? <==> StartsWith(file.mimeType, "image/") && file.size <= limit
    ensures r == Err(NotAnImage) <==> !StartsWith(file.mimeType, "image/")
    ensures r == Err(TooLarge) <==> StartsWith(file.mimeType, "image/") && file.size > limit
  {
    if !StartsWith(file.mimeType, "image/") then Err(NotAnImage)
    else if file.size > limit then Err(TooLarge)
    else Ok(())
  }

  /** The limit is inclusive: an image of exactly the limit is accepted, one
      byte more is refused; a file that is not an image is refused as such
      whatever its size. */
  lemma LimitIsInclusive(mimeType: string, limit: int)
    ensures StartsWith(mimeType, "image/") ==>
      CheckImage(FileInfo(mimeType, limit), limit).Ok? &&
      CheckImage(FileInfo(mimeType, limit + 1), limit) == Err(TooLarge)
    ensures !StartsWith(mimeType, "image/") ==>
      forall size :: CheckImage(FileInfo(mimeType, size), limit) == Err(NotAnImage)
  {
  }

  /** Any type beginning `image/` passes the type check, whatever follows. */
  lemma ImageTypesPass(subtype: string, size: int, limit: int)
    requires size <= limit
    ensures CheckImage(FileInfo("image/" + subtype, size), limit).Ok?
  {
    assert ("image/" + subtype)[..|"image/"|] == "image/";
  }
}
