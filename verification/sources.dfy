/** The choice between a fetched image and the blank placeholder made by
    `_get_album_cover` and `_get_artist_image`.  The HTTP requests, the HTML
    parsing and the image decoding are not modelled: their outcomes are the
    inputs here. */
module Sources {

  import opened Results

  /** Where a tile's image comes from. */
  datatype ImageSource = UseBlank | Download(url: string)

  /** Python's truthiness of a string. */
  predicate Truthy(s: string) { s != "" }

  /** `_get_album_cover`: `coverUrl` is None when the cover lookup raised
      IndexError.  A missing or empty URL gives the blank tile. */
  function AlbumCoverSource(coverUrl: Option<string>): (r: ImageSource)
    ensures r == UseBlank <==> coverUrl.None? || !Truthy(coverUrl.value)
    ensures r.Download? ==> coverUrl == Some(r.url)
  {
    if coverUrl.Some? && Truthy(coverUrl.value) then Download(coverUrl.value) else UseBlank
  }

  /** The artist page as far as `_get_artist_image` looks at it: a 404, or a
      page whose background-image element is absent (None), present without
      a `content` attribute (Some(None)) or present with one (Some(Some(c))). */
  datatype ArtistPage = NotFound | Page(background: Option<Option<string>>)

  /** The URL string `_get_artist_image` builds from the element: `str(...)` of the
      attribute, which is the text "None" when the attribute is missing. */
  function BackgroundUrl(element: Option<string>): string
  {
    match element
    case None => "None"
    case Some(c) => c
  }

  /** `_get_artist_image`: a 404 or a page without a usable URL gives the
      blank tile; otherwise the URL found is downloaded.  An element without a
      `content` attribute yields the URL "None", which is downloaded too. */
  function ArtistImageSource(page: ArtistPage): (r: ImageSource)
    ensures r == UseBlank <==>
      page.NotFound? || page.background.None? || page.background == Some(Some(""))
    ensures page.Page? && page.background == Some(None) ==> r == Download("None")
    ensures r.Download? ==> page.Page? && page.background.Some? && Truthy(r.url)
  {
    match page
    case NotFound => UseBlank
    case Page(background) =>
      var url := if background.Some? then BackgroundUrl(background.value) else "";
      if Truthy(url) then Download(url) else UseBlank
  }
}
