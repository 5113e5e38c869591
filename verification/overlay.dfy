/** The geometry of `_insert_tile_title` (where the translucent banner and
    the title text go on a tile) and the overlaid text built in
    `_create_image`.  Drawing itself is not modelled. */
module Overlay {

  import opened Results
  import opened Grid
  import opened Decimal

  /** The banner starts this many pixels below the tile's top edge. */
  const BannerOffset: int := 235

  /** Offset of the text origin from the tile's top-left corner. */
  const TextOffsetX: int := 8
  const TextOffsetY: int := 240

  /** An axis-aligned rectangle given by two corners, as passed to
      `draw.rectangle`. */
  datatype Rect = Rect(left: int, top: int, right: int, bottom: int)

  /** The banner rectangle drawn for the tile at cursor `c`.  The bottom edge
      is computed as 2*y + 300, and replaced by 600 when that is zero. */
  function Banner(c: Cursor): (r: Rect)
    ensures r.left == c.x && r.right == c.x + TileSize && r.top == c.y + BannerOffset
    ensures r.bottom != 2 * c.y + TileSize <==> c.y == -TileSize / 2
    ensures c.y >= 0 ==> r.top < r.bottom && r.bottom - (c.y + TileSize) == c.y
  {
    var bottom := c.y * 2 + TileSize;
    Rect(c.x, c.y + BannerOffset, c.x + TileSize, if bottom == 0 then bottom + TileSize * 2 else bottom)
  }

  /** Where the wrapped title is drawn for the tile at cursor `c`. */
  function TextOrigin(c: Cursor): (r: Cursor)
    ensures var b := Banner(c);
      && b.left < r.x < b.right
      && b.top < r.y
      && (c.y >= 0 ==> r.y < b.bottom)
  {
    Cursor(c.x + TextOffsetX, c.y + TextOffsetY)
  }

  /** The playcount suffix appended to a title when playcounts are shown. */
  function PlaycountSuffix(playcount: int): string
  {
    ". (" + IntToString(playcount) + ")"
  }

  /** The text overlaid on a tile: its title, followed by the playcount
      suffix exactly when `showPlaycount` is set. */
  function Label(title: string, playcount: int, showPlaycount: bool): string
  {
    if showPlaycount then title + PlaycountSuffix(playcount) else title
  }

  /** Reads a playcount back from the text after a title: None unless the
      text has the shape ". (" integer ")". */
  function ParseSuffix(s: string): Option<int>
  {
    if |s| >= 4 && s[..3] == ". (" && s[|s| - 1] == ')' then ParseInt(s[3..|s| - 1])
    else None
  }

  /** The overlaid text starts with the title; what follows it is nothing
      when playcounts are hidden, and a suffix that reads back as the
      playcount when they are shown. */
  lemma LabelRoundTrip(title: string, playcount: int, showPlaycount: bool)
    ensures var shown := Label(title, playcount, showPlaycount);
      && |title| <= |shown| && shown[..|title|] == title
      && (showPlaycount <==> |shown| > |title|)
      && (showPlaycount ==> ParseSuffix(shown[|title|..]) == Some(playcount))
  {
    var shown := Label(title, playcount, showPlaycount);
    if showPlaycount {
      var digits := IntToString(playcount);
      var s := shown[|title|..];
      assert s == ". (" + digits + ")";
      assert s[..3] == ". (" && s[3..|s| - 1] == digits;
      IntRoundTrip(playcount);
    }
  }
}
