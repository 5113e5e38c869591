/** The collage builders: the factory that picks a builder for an entity
    name, `create`, and the placement of tiles and their titles on the
    canvas (`_create_image`, `_insert_tile_title`). */
module Collage {

  import opened Results
  import opened Grid
  import opened TextWrap
  import opened Overlay
  import opened Tiles

  /** `CollageBuilderConfig`; `showPlaycount` defaults to true. */
  datatype BuilderConfig = BuilderConfig(cols: int, rows: int, period: string, showPlaycount: bool)

  /** Entity names the factory knows, one per builder class. */
  const EntityArtist: string := "artist"
  const EntityAlbum: string := "album"
  const EntityTrack: string := "track"

  /** A builder: its class and its configuration. */
  datatype Builder = Builder(kind: BuilderKind, config: BuilderConfig)

  /** The error the factory raises for a name it has no builder for. */
  datatype FactoryError = InvalidEntity(entity: string)

  /** The `ENTITY` attribute of each builder class. */
  function EntityOf(kind: BuilderKind): string
  {
    match kind
    case ArtistBuilder => EntityArtist
    case AlbumBuilder => EntityAlbum
    case TrackBuilder => EntityTrack
  }

  /** `CollageBuilderFactory(entity, config, client)`: the builder registered
      for `entity`, or the error for a name that has none. */
  function NewBuilder(entity: string, config: BuilderConfig): (r: Result<Builder, FactoryError>)
    ensures r.Success? <==> entity in {EntityArtist, EntityAlbum, EntityTrack}
    ensures r.Success? ==> EntityOf(r.value.kind) == entity && r.value.config == config
    ensures r.Failure? ==> r.error == InvalidEntity(entity)
  {
    if entity == EntityArtist then Success(Builder(ArtistBuilder, config))
    else if entity == EntityAlbum then Success(Builder(AlbumBuilder, config))
    else if entity == EntityTrack then Success(Builder(TrackBuilder, config))
    else Failure(InvalidEntity(entity))
  }

  /** The factory and the builders' `ENTITY` attributes are inverse: asking
      for a builder's own entity name yields that builder class. */
  lemma FactoryRoundTrip(kind: BuilderKind, config: BuilderConfig)
    ensures NewBuilder(EntityOf(kind), config) == Success(Builder(kind, config))
  {
  }

  /** One tile as composited: where it is pasted, the banner behind its
      title, where the text goes and the wrapped text itself. */
  datatype Placement = Placement(tile: Tile, cursor: Cursor, banner: Rect, textOrigin: Cursor, text: string)

  /** The finished collage: canvas size and the tiles in paste order. */
  datatype Image = Image(width: int, height: int, placements: seq<Placement>)

  /** The placement of a tile pasted at cursor `c`. */
  function PlaceTile(t: Tile, c: Cursor, showPlaycount: bool, width: string -> nat): Placement
  {
    Placement(t, c, Banner(c), TextOrigin(c), JoinLines(Wrap(Label(t.title, t.playcount, showPlaycount), width)))
  }

  function PlacedTiles(img: Image): seq<Tile>
  {
    seq(|img.placements|, k requires 0 <= k < |img.placements| => img.placements[k].tile)
  }

  /** `_create_image`: allocate a cols*300 by rows*300 canvas and paste the
      tiles one after another, moving the cursor as `_create_image` does. */
  method CreateImage(tiles: seq<Tile>, cols: int, rows: int, showPlaycount: bool, width: string -> nat)
    returns (img: Image)
    ensures img.width == cols * TileSize && img.height == rows * TileSize
    ensures |img.placements| == |tiles|
    ensures forall k :: 0 <= k < |tiles| ==>
      img.placements[k] == PlaceTile(tiles[k], CursorAt(k, CanvasWidth(cols)), showPlaycount, width)
    ensures cols >= 1 ==> forall k :: 0 <= k < |tiles| ==>
      img.placements[k].cursor == Cursor((k % cols) * TileSize, (k / cols) * TileSize)
    ensures cols <= 0 ==> forall k :: 0 <= k < |tiles| ==>
      img.placements[k].cursor == Cursor(0, k * TileSize)
  {
    var collageWidth := CanvasWidth(cols);
    var collageHeight := CanvasHeight(rows);
    var placements: seq<Placement> := [];
    var cursor := Cursor(0, 0);
    for i := 0 to |tiles|
      invariant |placements| == i
      invariant cursor == CursorAt(i, collageWidth)
      invariant forall k {:trigger placements[k]} :: 0 <= k < i ==>
        placements[k] == PlaceTile(tiles[k], CursorAt(k, collageWidth), showPlaycount, width)
    {
      var tile := tiles[i];
      var title := tile.title;
      if showPlaycount {
        title := title + PlaycountSuffix(tile.playcount);
      }
      assert title == Label(tile.title, tile.playcount, showPlaycount);
      var text := InsertNewlines(title, width);
      var placed := Placement(tile, cursor, Banner(cursor), TextOrigin(cursor), text);
      assert placed == PlaceTile(tile, cursor, showPlaycount, width);
      placements := placements + [placed];

      var y := cursor.y;
      var x := cursor.x + TileSize;
      if cursor.x >= collageWidth - TileSize {
        y := cursor.y + TileSize;
        x := 0;
      }
      assert Cursor(x, y) == Advance(cursor, collageWidth);
      cursor := Cursor(x, y);
    }
    img := Image(collageWidth, collageHeight, placements);
    forall k: nat | k < |tiles| {
      CursorClosedForm(k, cols);
    }
  }

  /** Each placed tile sits at the k-th cursor of the walk over a canvas of
      `cols` columns, with the banner, text origin and wrapped label that
      `_insert_tile_title` draws for it, the label showing the playcount
      exactly when `showPlaycount` is set. */
  ghost predicate LaidOut(img: Image, cols: int, showPlaycount: bool, width: string -> nat)
  {
    forall k :: 0 <= k < |img.placements| ==>
      img.placements[k] == PlaceTile(img.placements[k].tile, CursorAt(k, CanvasWidth(cols)), showPlaycount, width)
  }

  lemma PlacementsLaidOut(img: Image, tiles: seq<Tile>, cols: int, showPlaycount: bool, width: string -> nat)
    requires |img.placements| == |tiles|
    requires forall k :: 0 <= k < |tiles| ==>
      img.placements[k] == PlaceTile(tiles[k], CursorAt(k, CanvasWidth(cols)), showPlaycount, width)
    ensures LaidOut(img, cols, showPlaycount, width)
  {
  }

  /** `create` after the top items have been fetched: build one tile per
      item, take the tiles in the order the concurrent tasks completed
      (`joined`, any arrangement of them), sort them by playcount and
      composite them.  When the top items arrive ranked, every grid position
      shows the playcount of the item at that position; tiles of equal
      playcount keep their completion order. */
  method Create(b: Builder, topItems: seq<TopItem>, images: seq<ImageData>, joined: seq<Tile>, width: string -> nat)
    returns (img: Image)
    requires |images| == |topItems|
    requires forall i :: 0 <= i < |topItems| ==> Readable(RecipeOf(b.kind), topItems[i].item)
    requires multiset(joined) == multiset(CreateTiles(b.kind, topItems, images))
    ensures img.width == b.config.cols * TileSize && img.height == b.config.rows * TileSize
    ensures |img.placements| == |topItems|
    ensures multiset(PlacedTiles(img)) == multiset(CreateTiles(b.kind, topItems, images))
    ensures Ranked(PlacedTiles(img))
    ensures Ranked(joined) ==> PlacedTiles(img) == joined
    ensures Ranked(CreateTiles(b.kind, topItems, images)) ==>
      forall k :: 0 <= k < |topItems| ==>
        PlacedTiles(img)[k].playcount == CreateTiles(b.kind, topItems, images)[k].playcount
    ensures LaidOut(img, b.config.cols, b.config.showPlaycount, width)
    ensures b.config.cols >= 1 && |topItems| <= b.config.cols * b.config.rows ==>
      forall k :: 0 <= k < |img.placements| ==>
        && 0 <= img.placements[k].cursor.x && img.placements[k].cursor.x + TileSize <= img.width
        && 0 <= img.placements[k].cursor.y && img.placements[k].cursor.y + TileSize <= img.height
  {
    var built := CreateTiles(b.kind, topItems, images);
    var tiles := SortByPlaycount(joined);
    SortAfterJoin(joined, built);
    img := Composite(tiles, b.config.cols, b.config.rows, b.config.showPlaycount, width);
  }

  /** The tail of `create`: `_create_image` on the sorted tiles, summarised
      as the tiles it places, where it places them and whether they stay
      on the canvas. */
  method Composite(tiles: seq<Tile>, cols: int, rows: int, showPlaycount: bool, width: string -> nat)
    returns (img: Image)
    ensures img.width == cols * TileSize && img.height == rows * TileSize
    ensures PlacedTiles(img) == tiles
    ensures LaidOut(img, cols, showPlaycount, width)
    ensures cols >= 1 && |tiles| <= cols * rows ==>
      forall k :: 0 <= k < |img.placements| ==>
        && 0 <= img.placements[k].cursor.x && img.placements[k].cursor.x + TileSize <= img.width
        && 0 <= img.placements[k].cursor.y && img.placements[k].cursor.y + TileSize <= img.height
  {
    img := CreateImage(tiles, cols, rows, showPlaycount, width);
    assert PlacedTiles(img) == tiles;
    PlacementsLaidOut(img, tiles, cols, showPlaycount, width);
    if cols >= 1 && |tiles| <= cols * rows {
      PlacementsInCanvas(img, cols, rows);
    }
  }

  /** When the tiles fit the grid, every tile placed by the cursor walk lies
      inside the canvas. */
  lemma PlacementsInCanvas(img: Image, cols: int, rows: int)
    requires cols >= 1 && |img.placements| <= cols * rows
    requires img.width == CanvasWidth(cols) && img.height == CanvasHeight(rows)
    requires forall k :: 0 <= k < |img.placements| ==> img.placements[k].cursor == CursorAt(k, CanvasWidth(cols))
    ensures forall k :: 0 <= k < |img.placements| ==>
      && 0 <= img.placements[k].cursor.x && img.placements[k].cursor.x + TileSize <= img.width
      && 0 <= img.placements[k].cursor.y && img.placements[k].cursor.y + TileSize <= img.height
  {
    forall k | 0 <= k < |img.placements|
      ensures 0 <= img.placements[k].cursor.x && img.placements[k].cursor.x + TileSize <= img.width
      ensures 0 <= img.placements[k].cursor.y && img.placements[k].cursor.y + TileSize <= img.height
    {
      CursorInCanvas(k, cols, rows);
    }
  }
}
