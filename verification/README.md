# Last.fm collage generator — layout, wrap and validation model

This project models the deterministic core of a Last.fm collage generator.
The generator takes a user's top artists, albums or tracks over a period and
lays one 300×300 tile per item into a `cols × rows` grid. Each tile gets a
translucent banner carrying its title, wrapped to the tile width, and
optionally its playcount. The model covers:

- the parameter check in front of the builder (`CollageGenerator._validate_parameters`) and the order of steps in `generate`;
- the factory that maps an entity name to the artist, album or track builder;
- tile construction per entity kind and the playcount sort after the concurrent fetch;
- the canvas size and the cursor walk of `_create_image`;
- the banner and text geometry of `_insert_tile_title`;
- the greedy title wrap of `_insert_newline_characters_to_text`;
- the blank-versus-download decision of the two image resolvers.

The rendered width of a string under the tile font (`font.getlength`) is a
parameter `width: string -> nat` of every operation that measures text.

Modules, one per file: `Results` (Option/Result/Outcome), `Arith` (division
facts), `Grid`, `TextWrap`, `Decimal` (Python's `str(int)` and its inverse),
`Overlay`, `Tiles`, `Sources`, `Collage` and `Generator`.

Behaviour of the code that the model makes explicit:

- The playcount suffix is `". (" + n + ")"`, with a full stop before the space.
- The grid check has no lower bound. Zero and negative column or row counts pass validation.
- With a fixed per-character width `w`, a title of L characters wraps into `L div k + 1` lines, where k is the least count with `k*w >= 275`. An empty title gives one empty line, and a title whose length is a multiple of k ends in an empty line (`TextWrap.MonospaceWrap`).
- The banner's bottom edge is `2*y + 300`. For every row below the first it extends `y` pixels past the tile. The replacement for a zero bottom edge is taken only at `y = -150`, so it never fires for a real cursor (`Overlay.Banner`).
- An artist page whose background element has no `content` attribute yields the URL text `"None"`. That URL is downloaded, not replaced by the blank tile (`Sources.ArtistImageSource`).
- Tiles of equal playcount keep the order in which their fetch tasks completed, not the order of the top items (`Collage.Create`).

## Model

| member | source | states |
|---|---|---|
| Grid.CursorIsRowMajor | src/lastfmcollagegenerator/collage.py:94-112 | for at least one column, the cursor of the k-th tile is ((k mod cols)·300, (k div cols)·300) |
| Grid.CursorWithoutColumns | src/lastfmcollagegenerator/collage.py:106-112 | for zero or negative columns, the wrap test fires every time and the k-th tile goes to (0, 300·k) |
| Grid.CursorInCanvas | src/lastfmcollagegenerator/collage.py:87-112 | for at most cols·rows tiles, every tile lies inside the cols·300 by rows·300 canvas |
| Grid.CursorOrder | src/lastfmcollagegenerator/collage.py:106-112 | a later tile comes strictly later in row-major order, so no two tiles share a cell |
| TextWrap.WrapConcat | src/lastfmcollagegenerator/collage.py:141-155 | the wrap yields at least one line, and the lines concatenated without separators give back the title |
| TextWrap.WrapLines | src/lastfmcollagegenerator/collage.py:145-153 | every non-final line is non-empty with width ≥ 275 and every proper non-empty prefix narrower than 275; the residual line is empty or narrower than 275, and so is every non-empty prefix of it |
| TextWrap.MonospaceWrap | src/lastfmcollagegenerator/collage.py:141-155 | with every character w pixels wide, a title of L characters gives L div k + 1 lines, each full line k characters long and the last L mod k |
| TextWrap.InsertNewlines | src/lastfmcollagegenerator/collage.py:141-155 | the character loop returns the greedy lines joined with newlines |
| Decimal.IntRoundTrip | src/lastfmcollagegenerator/collage.py:99 | the decimal rendering of the playcount parses back to the playcount |
| Overlay.Banner | src/lastfmcollagegenerator/collage.py:122-128 | the banner spans x to x+300 from y+235 down; its bottom is 2y+300 except exactly at y = -150; for y ≥ 0 the top is above the bottom and the bottom overshoots the tile by y |
| Overlay.TextOrigin | src/lastfmcollagegenerator/collage.py:138 | the text origin lies inside the banner's columns and below its top, and above its bottom for y ≥ 0 |
| Overlay.LabelRoundTrip | src/lastfmcollagegenerator/collage.py:97-99 | the overlaid text starts with the title and is longer exactly when playcounts are shown; the rest then reads back as the playcount |
| Tiles.RecipeOf | src/lastfmcollagegenerator/collage.py:318-319 | only the artist builder uses the artist tile construction; the track builder shares the album builder's |
| Tiles.ArtistTile | src/lastfmcollagegenerator/collage.py:212-223 | an artist tile carries the resolved image, the item weight as playcount and the artist name as title |
| Tiles.AlbumTile | src/lastfmcollagegenerator/collage.py:281-293 | an album or track tile's title splits into the artist, " - " and the item title; playcount is the weight |
| Tiles.SortByPlaycount | src/lastfmcollagegenerator/collage.py:189 | the sorted tiles are a permutation of the joined tiles and are non-increasing by playcount |
| Tiles.SortKeepsRankedOrder | src/lastfmcollagegenerator/collage.py:189 | tiles already in ranking order come out unchanged |
| Tiles.SortAfterJoin | src/lastfmcollagegenerator/collage.py:186-189 | whatever order the tasks completed in, the sort yields exactly the built tiles; a completion order that is already ranked comes out unchanged, and when the built tiles are ranked every position gets the playcount of the built tile at that position |
| Tiles.RankingIgnoresCompletionOrder | src/lastfmcollagegenerator/collage.py:179-190 | any two completion orders of the same tiles sort to the same playcount at every position |
| Sources.AlbumCoverSource | src/lastfmcollagegenerator/collage.py:296-309 | the blank tile is used exactly when the cover URL is missing or empty, otherwise that URL is downloaded |
| Sources.ArtistImageSource | src/lastfmcollagegenerator/collage.py:226-259 | the blank tile is used exactly on a 404, a missing background element or an empty content attribute; a missing attribute downloads "None" |
| Collage.NewBuilder | src/lastfmcollagegenerator/collage.py:337-353 | the factory succeeds exactly for the three entity names, returns the builder whose ENTITY is that name with the given config, and raises on any other name |
| Collage.FactoryRoundTrip | src/lastfmcollagegenerator/collage.py:337-353 | asking the factory for a builder's own entity name gives that builder |
| Collage.CreateImage | src/lastfmcollagegenerator/collage.py:78-113 | the canvas is cols·300 by rows·300 and each tile is placed at its row-major cell with its banner, text origin and wrapped label |
| Collage.Create | src/lastfmcollagegenerator/collage.py:69-76 | the collage holds exactly the tiles built from the top items, ranked by playcount; each sits at the row-major cursor of its position with the banner, text origin and wrapped label `_insert_tile_title` draws, the label carrying the playcount exactly when the builder's config asks for it; all of them lie inside the canvas when they fit the grid; the completion order is kept when it is already ranked, and when the top items arrive ranked every position shows the playcount of the top item at that position |
| Collage.Composite | src/lastfmcollagegenerator/collage.py:76 | compositing the sorted tiles places exactly those tiles in that order, each at its row-major cursor with its banner, text origin and label, inside the canvas when the tiles fit the grid |
| Generator.ValidateParameters | src/lastfmcollagegenerator/collage_generator.py:57-78 | passes exactly for a known entity, cols ≤ 5, rows ≤ 5 and a known period; the entity error comes first, then the grid error, then the period error |
| Generator.DefaultBuilderConfig | src/lastfmcollagegenerator/collage_generator.py:42-46 | the builder config carries the grid and period and leaves show_playcount at its default of true |
| Generator.Generate | src/lastfmcollagegenerator/collage_generator.py:23-55 | a rejected call takes no step and carries the exact error the validator raised; an accepted one builds the config, the client, the builder and requests cols·rows top items, in that order; an accepted name without a builder stops after the client |
| Generator.ValidationComesFirst | src/lastfmcollagegenerator/collage_generator.py:31-33 | a run takes any step exactly when validation passed, and the builder is built only after the client |

## Left out

- HTTP requests, HTML scraping, image decoding, thumbnailing and PNG encoding are not modelled. The resolved image of each tile is an input. Only the blank-versus-download decision is modelled. The decision (`Sources.ImageSource`) and the tile image (`Tiles.ImageData`) are deliberately separate types: the image that a download yields is not modelled, so nothing ties the images given to `Collage.Create` to the decision.
- Transport and decode failures are not modelled. They include a download of the URL "None" and the uncaught errors on the album cover path. In the source they propagate and abort the collage.
- Pixel drawing is not modelled: `Image.new`, `paste`, `draw.rectangle`, `draw.text` and the blank tile image. The model records what would be drawn where.
- PIL's refusal of a negative canvas size is not modelled. The model's canvas dimensions are the products cols·300 and rows·300 whatever their sign.
- Font loading is not modelled. The font's measurement is the parameter `width`.
- `font.getlength` returns a float; `width` is a whole number of pixels. The only use of the measurement is the test `>= 275`, which gives the same answer on the float and on its floor, so nothing is lost. TextWrap.MonospaceWrap covers only whole-pixel per-character widths.
- The thread pool and `as_completed` are not modelled. `Collage.Create` takes the joined tiles in any order that is a permutation of the built tiles.
- Tiles.SortByPlaycount: stability among equal playcounts is built into the definition but not stated as a property. Tie order depends on completion order anyway.
- Collage.Create: assumes a top-items lookup that answers for all three entity kinds. The client in src/lastfmcollagegenerator/lastfm/client.py defines only `get_user` and `get_top_albums`, so the artist builder's call to `get_top_artists` (collage.py:209) and the track builder's call to `get_top_tracks` (collage.py:327) raise AttributeError and no artist or track collage is built from that client. The lookup's answer is an input of the model.
- Generator.Generate: records the top-items request for every builder kind as the step `TopItemsRequested`. It does not model that, with the client as written, this request raises AttributeError for the artist and track builders.
- The Last.fm client itself (`get_user`, `get_top_albums`) is not modelled.
- The contents of ENTITIES and PERIODS (constants.py) are not part of this model. They are the parameter `Options`. The factory's three names are taken as "artist", "album" and "track".
- `__repr__`, logging and the API key configuration are not modelled.
