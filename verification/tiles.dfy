/** Tiles built from a user's top items, and the post-join ordering of
    `_create_tiles_from_top_items`. */
module Tiles {

  /** The entity a top item refers to.  An artist title is its name; albums
      and tracks carry their artist's name and their own title. */
  datatype Item =
    | Artist(name: string)
    | Album(artist: string, title: string)
    | Track(artist: string, title: string)

  /** A ranked entry from the top-items lookup, with its play count. */
  datatype TopItem = TopItem(item: Item, weight: int)

  /** The tile image: the blank placeholder or the bytes of a fetched image.
      How an image is resolved is not modelled; the result is an input. */
  datatype ImageData = Blank | Fetched(bytes: seq<bv8>)

  /** `CollageTile`: image, play count and display title. */
  datatype Tile = Tile(data: ImageData, playcount: int, title: string)

  /** The three builder classes. */
  datatype BuilderKind = ArtistBuilder | AlbumBuilder | TrackBuilder

  /** The two implementations of `_create_tile_from_top_item`: the track
      builder inherits the album builder's. */
  datatype TileRecipe = ArtistRecipe | AlbumRecipe

  function RecipeOf(kind: BuilderKind): (r: TileRecipe)
    ensures r == ArtistRecipe <==> kind == ArtistBuilder
  {
    match kind
    case ArtistBuilder => ArtistRecipe
    case AlbumBuilder => AlbumRecipe
    case TrackBuilder => AlbumRecipe
  }

  /** The item carries the attributes the recipe reads: `name` for the artist
      recipe, `artist` and `title` for the album recipe. */
  predicate Readable(recipe: TileRecipe, item: Item)
  {
    match recipe
    case ArtistRecipe => item.Artist?
    case AlbumRecipe => item.Album? || item.Track?
  }

  /** `ArtistCollageBuilder._create_tile_from_top_item`: the title is the
      artist's name. */
  function ArtistTile(top: TopItem, data: ImageData): (t: Tile)
    requires top.item.Artist?
    ensures t.data == data && t.playcount == top.weight && t.title == top.item.name
  {
    Tile(data, top.weight, top.item.name)
  }

  /** `AlbumCollageBuilder._create_tile_from_top_item`, for albums and
      tracks: the title is the artist, " - ", then the album or track title. */
  function AlbumTile(top: TopItem, data: ImageData): (t: Tile)
    requires top.item.Album? || top.item.Track?
    ensures t.data == data && t.playcount == top.weight
    ensures |t.title| == |top.item.artist| + 3 + |top.item.title|
    ensures t.title[..|top.item.artist|] == top.item.artist
    ensures t.title[|top.item.artist|..|top.item.artist| + 3] == " - "
    ensures t.title[|top.item.artist| + 3..] == top.item.title
  {
    Tile(data, top.weight, top.item.artist + " - " + top.item.title)
  }

  /** The tile a builder creates from a top item and its resolved image. */
  function CreateTile(kind: BuilderKind, top: TopItem, data: ImageData): (t: Tile)
    requires Readable(RecipeOf(kind), top.item)
    ensures t.data == data && t.playcount == top.weight
    ensures top.item.Artist? ==> t.title == top.item.name
    ensures !top.item.Artist? ==> t.title == top.item.artist + " - " + top.item.title
  {
    match RecipeOf(kind)
    case ArtistRecipe => ArtistTile(top, data)
    case AlbumRecipe => AlbumTile(top, data)
  }

  /** The tiles of a list of top items, in the items' order, each with the
      image resolved for it. */
  function CreateTiles(kind: BuilderKind, items: seq<TopItem>, images: seq<ImageData>): (ts: seq<Tile>)
    requires |images| == |items|
    requires forall i :: 0 <= i < |items| ==> Readable(RecipeOf(kind), items[i].item)
    ensures |ts| == |items|
    ensures forall i :: 0 <= i < |items| ==> ts[i].playcount == items[i].weight && ts[i].data == images[i]
    ensures forall i :: 0 <= i < |items| && items[i].item.Artist? ==> ts[i].title == items[i].item.name
    ensures forall i :: 0 <= i < |items| && !items[i].item.Artist? ==>
      ts[i].title == items[i].item.artist + " - " + items[i].item.title
  {
    seq(|items|, i requires 0 <= i < |items| => CreateTile(kind, items[i], images[i]))
  }

  /** Non-increasing by playcount. */
  ghost predicate Ranked(s: seq<Tile>)
  {
    forall i, j :: 0 <= i < j < |s| ==> s[i].playcount >= s[j].playcount
  }

  /** A tile at least as large as the head of a ranked list can go in front. */
  lemma RankedCons(x: Tile, s: seq<Tile>)
    requires Ranked(s) && (s == [] || x.playcount >= s[0].playcount)
    ensures Ranked([x] + s)
  {
    var r := [x] + s;
    forall i, j | 0 <= i < j < |r| ensures r[i].playcount >= r[j].playcount {
      if i == 0 {
        assert r[j] == s[j - 1];
      } else {
        assert r[i] == s[i - 1] && r[j] == s[j - 1];
      }
    }
  }

  /** Dropping the head of a ranked list leaves it ranked. */
  lemma RankedTail(s: seq<Tile>)
    requires Ranked(s) && |s| >= 1
    ensures Ranked(s[1..])
  {
    forall i, j | 0 <= i < j < |s| - 1 ensures s[1..][i].playcount >= s[1..][j].playcount {
      assert s[1..][i] == s[i + 1] && s[1..][j] == s[j + 1];
    }
  }

  /** Inserts `t` before the first tile whose playcount is not larger, so
      that tiles of equal playcount keep their relative order. */
  function Insert(t: Tile, s: seq<Tile>): (r: seq<Tile>)
    requires Ranked(s)
    ensures multiset(r) == multiset(s) + multiset{t}
    ensures Ranked(r)
    ensures r[0] == t || (|s| >= 1 && r[0] == s[0])
  {
    if s == [] || s[0].playcount <= t.playcount then [t] + s
    else
      RankedTail(s);
      var rest := Insert(t, s[1..]);
      assert s == [s[0]] + s[1..];
      assert |s| == 1 || s[0].playcount >= s[1..][0].playcount;
      RankedCons(s[0], rest);
      [s[0]] + rest
  }

  /** `tiles.sort(key=playcount, reverse=True)`: a stable sort into
      non-increasing playcount order. */
  function SortByPlaycount(s: seq<Tile>): (r: seq<Tile>)
    ensures multiset(r) == multiset(s)
    ensures Ranked(r)
  {
    if s == [] then []
    else
      assert s == [s[0]] + s[1..];
      Insert(s[0], SortByPlaycount(s[1..]))
  }

  /** A list already in ranking order comes out of the sort unchanged (the
      sort is stable), so items that arrive ranked keep their order. */
  lemma {:induction false} SortKeepsRankedOrder(s: seq<Tile>)
    requires Ranked(s)
    ensures SortByPlaycount(s) == s
  {
    if s != [] {
      assert Ranked(s[1..]);
      SortKeepsRankedOrder(s[1..]);
      assert s == [s[0]] + s[1..];
    }
  }

  /** The list without its j-th tile. */
  function RemoveAt(s: seq<Tile>, j: nat): (r: seq<Tile>)
    requires j < |s|
    ensures |r| == |s| - 1
    ensures forall k :: 0 <= k < |r| ==> r[k] == if k < j then s[k] else s[k + 1]
    ensures multiset(r) == multiset(s) - multiset{s[j]}
  {
    assert s == s[..j] + [s[j]] + s[j + 1..];
    s[..j] + s[j + 1..]
  }

  lemma RemoveKeepsRanked(s: seq<Tile>, j: nat)
    requires j < |s| && Ranked(s)
    ensures Ranked(RemoveAt(s, j))
  {
    var r := RemoveAt(s, j);
    forall x, y | 0 <= x < y < |r| ensures r[x].playcount >= r[y].playcount {
      var x0 := if x < j then x else x + 1;
      var y0 := if y < j then y else y + 1;
      assert r[x] == s[x0] && r[y] == s[y0];
    }
  }

  /** Removing a tile of the top playcount from a ranked list shifts the
      playcounts before it by one place without changing them. */
  lemma RemoveTopPlaycounts(s: seq<Tile>, j: nat)
    requires j < |s| && Ranked(s) && s[j].playcount == s[0].playcount
    ensures forall k :: 1 <= k < |s| ==> s[k].playcount == RemoveAt(s, j)[k - 1].playcount
  {
    var r := RemoveAt(s, j);
    forall k | 1 <= k < |s| ensures s[k].playcount == r[k - 1].playcount {
      if k <= j {
        assert r[k - 1] == s[k - 1];
        assert s[0].playcount >= s[k - 1].playcount >= s[k].playcount >= s[j].playcount;
      } else {
        assert r[k - 1] == s[k];
      }
    }
  }

  /** Two ranked lists holding the same tiles agree on the playcount at every
      position, whatever order tiles of equal playcount are in. */
  lemma {:induction false} RankingIsUnique(a: seq<Tile>, b: seq<Tile>)
    requires Ranked(a) && Ranked(b) && multiset(a) == multiset(b)
    ensures |a| == |b|
    ensures forall i :: 0 <= i < |a| ==> a[i].playcount == b[i].playcount
    decreases |a|
  {
    assert |a| == |multiset(a)| == |multiset(b)| == |b|;
    if a != [] {
      var j := TopPlaycountsAgree(a, b);
      var b' := RemoveAt(b, j);
      assert a == [a[0]] + a[1..];
      assert multiset(a[1..]) == multiset(a) - multiset{a[0]};
      RemoveKeepsRanked(b, j);
      RankingIsUnique(a[1..], b');
      RemoveTopPlaycounts(b, j);
      SamePlaycountsAfterHead(a, b, b');
    }
  }

  /** Lists that agree on their heads' playcounts, and whose tails agree
      position by position with a common list, agree everywhere. */
  lemma SamePlaycountsAfterHead(a: seq<Tile>, b: seq<Tile>, rest: seq<Tile>)
    requires |a| == |b| >= 1 && |rest| == |a| - 1
    requires a[0].playcount == b[0].playcount
    requires forall i :: 0 <= i < |rest| ==> a[1..][i].playcount == rest[i].playcount
    requires forall k :: 1 <= k < |b| ==> b[k].playcount == rest[k - 1].playcount
    ensures forall k :: 0 <= k < |a| ==> a[k].playcount == b[k].playcount
  {
    forall k | 1 <= k < |a| ensures a[k].playcount == b[k].playcount {
      assert a[k] == a[1..][k - 1];
    }
  }

  /** The heads of two non-empty ranked lists with the same tiles have the
      same playcount; `j` is where the head of `a` sits in `b`. */
  lemma TopPlaycountsAgree(a: seq<Tile>, b: seq<Tile>) returns (j: nat)
    requires Ranked(a) && Ranked(b) && multiset(a) == multiset(b) && |a| >= 1
    ensures j < |b| && b[j] == a[0] && b[0].playcount == a[0].playcount
  {
    assert a[0] in multiset(b);
    j :| 0 <= j < |b| && b[j] == a[0];
    assert b[0] in multiset(a);
    var i :| 0 <= i < |a| && a[i] == b[0];
  }

  /** The ranking after the join does not depend on the order in which the
      concurrent tasks completed: any two completion orders of the same tiles
      sort to lists with the same playcount at every grid position. */
  lemma RankingIgnoresCompletionOrder(a: seq<Tile>, b: seq<Tile>)
    requires multiset(a) == multiset(b)
    ensures |SortByPlaycount(a)| == |SortByPlaycount(b)|
    ensures forall i :: 0 <= i < |SortByPlaycount(a)| ==>
      SortByPlaycount(a)[i].playcount == SortByPlaycount(b)[i].playcount
  {
    RankingIsUnique(SortByPlaycount(a), SortByPlaycount(b));
  }

  /** The sort that follows the join: whatever order the tiles completed
      in, it ranks exactly the built tiles, leaves an already ranked
      completion order alone, and when the tiles were built ranked it puts
      the built tile's playcount at every position. */
  lemma SortAfterJoin(joined: seq<Tile>, built: seq<Tile>)
    requires multiset(joined) == multiset(built)
    ensures |SortByPlaycount(joined)| == |built|
    ensures multiset(SortByPlaycount(joined)) == multiset(built)
    ensures Ranked(joined) ==> SortByPlaycount(joined) == joined
    ensures Ranked(built) ==> forall k :: 0 <= k < |built| ==>
      SortByPlaycount(joined)[k].playcount == built[k].playcount
  {
    var tiles := SortByPlaycount(joined);
    assert |tiles| == |multiset(tiles)| == |multiset(built)| == |built|;
    if Ranked(joined) {
      SortKeepsRankedOrder(joined);
    }
    if Ranked(built) {
      RankingIsUnique(tiles, built);
    }
  }
}
