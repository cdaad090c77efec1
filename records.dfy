/** The records the server stores and the client caches, the status codes the
    controllers answer with, and the checks Laravel's validator applies to an
    uploaded file. */
module Records {
  import opened Wrappers

  /** A row of `clothing_items`: the model's fillable fields plus the id and
      the creation time the listing orders by. */
  datatype Item = Item(
    id: nat,
    name: string,
    description: Option<string>,
    categoryId: nat,
    color: Option<string>,
    size: Option<string>,
    brand: Option<string>,
    imagePath: Option<string>,
    favorite: bool,
    userId: nat,
    createdAt: int)

  /** A row of `categories`. */
  datatype Category = Category(
    id: nat,
    name: string,
    description: Option<string>,
    icon: Option<string>,
    color: Option<string>)

  /** A scalar request value: a JSON boolean or number, or a form/query string. */
  datatype Scalar = SBool(b: bool) | SInt(i: int) | SStr(s: string)

  /** An uploaded file: the extension guessed from its content (what `image`
      and `mimes` check), the extension of the client's file name (what the
      stored name keeps), and its size in bytes. */
  datatype UploadedFile = UploadedFile(guessedExtension: string, clientExtension: string, sizeBytes: nat)

  /** `max:2048` on a file is in kilobytes. */
  const MaxImageBytes: nat := 2048 * 1024

  /** Laravel's `image` rule. */
  predicate IsImage(f: UploadedFile)
  {
    f.guessedExtension in {"jpg", "jpeg", "png", "bmp", "gif", "svg", "webp"}
  }

  /** `mimes:jpeg,png,jpg,gif`. */
  predicate IsJpegPngGif(f: UploadedFile)
  {
    f.guessedExtension in {"jpeg", "png", "jpg", "gif"}
  }

  predicate WithinImageLimit(f: UploadedFile)
  {
    f.sizeBytes <= MaxImageBytes
  }

  /** PHP truthiness of a nullable string column: null, "" and "0" are false. */
  predicate IsSet(p: Option<string>)
  {
    p.Some? && p.value != "" && p.value != "0"
  }

  /** The file `Storage::delete` removes for this column: its path when the
      column is set, nothing otherwise. */
  function PathOf(p: Option<string>): set<string>
  {
    if IsSet(p) then {p.value} else {}
  }
}

/** HTTP status codes the controllers answer with. */
module Http {
  const Ok: int := 200
  const Created: int := 201
  const NoContent: int := 204
  const BadRequest: int := 400
  const Forbidden: int := 403
  const NotFound: int := 404
  const Conflict: int := 409
  const Unprocessable: int := 422
}
