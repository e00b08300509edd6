/**
 The shared utilities of the scanner: reading an API key file, the layout
 arithmetic behind merging the pages of a PDF into one tall image, and the
 OpenAI image-token estimate. Pixels are not modelled; a page is its
 (width, height).
 */
module ScannerUtils {
  import opened Py

  // ---------------------------------------------------------------------
  // API key files

  /** `read_api_key`: the file's text without surrounding whitespace, or
      `None` when the file is missing or the system refuses to read it (both
      are `IOError`s, which the function catches). A file whose bytes do not
      decode raises `UnicodeDecodeError`, which is a `ValueError` and not an
      `IOError`, so it escapes. */
  function ReadApiKey(fs: FileSystem, path: string): (r: Result<Option<string>>)
    ensures r == Ok(None) <==> path !in fs || fs[path].Unreadable?
    ensures r.Err? <==> path in fs && fs[path].Undecodable?
    ensures r.Err? ==> r.error == UnicodeDecodeError
    ensures r.Ok? && r.value.Some? ==>
      path in fs && fs[path].Readable?
      && Trimmed(StrSpace, r.value.value) && IsTrimOf(StrSpace, r.value.value, fs[path].content)
  {
    if path in fs then
      match fs[path]
      case Readable(content) => Ok(Some(Strip(StrSpace, content)))
      case Undecodable => Err(UnicodeDecodeError)
      case Unreadable => Ok(None)
    else Ok(None)
  }

  /** A key file holding the key with any whitespace padding around it (a
      trailing newline, say) yields exactly the key. */
  lemma {:induction false} ReadApiKeyPadded(fs: FileSystem, path: string, pre: string, key: string, post: string)
    requires path in fs && fs[path] == Readable(pre + key + post)
    requires AllSpace(StrSpace, pre) && AllSpace(StrSpace, post) && Trimmed(StrSpace, key)
    ensures ReadApiKey(fs, path) == Ok(Some(key))
  {
    StripPadded(StrSpace, pre, key, post);
  }

  // ---------------------------------------------------------------------
  // Merging PDF pages

  datatype Size = Size(width: nat, height: nat)

  /** Where the top-left corner of a page lands on the canvas. */
  datatype Origin = Origin(x: nat, y: nat)

  datatype Layout = Layout(canvas: Size, origins: seq<Origin>)

  /** The sum of the page heights. */
  function SumHeights(pages: seq<Size>): nat {
    if |pages| == 0 then 0
    else SumHeights(pages[..|pages| - 1]) + pages[|pages| - 1].height
  }

  /** Adding one more page to a prefix adds its height. */
  lemma {:induction false} SumHeightsStep(pages: seq<Size>, k: nat)
    requires k < |pages|
    ensures SumHeights(pages[..k + 1]) == SumHeights(pages[..k]) + pages[k].height
  {
    assert pages[..k + 1][..k] == pages[..k];
  }

  /** The heights of a prefix never exceed those of a longer prefix. */
  lemma {:induction false} SumHeightsMonotone(pages: seq<Size>, j: nat, k: nat)
    requires j <= k <= |pages|
    ensures SumHeights(pages[..j]) <= SumHeights(pages[..k])
    decreases k - j
  {
    if j < k {
      SumHeightsStep(pages, j);
      SumHeightsMonotone(pages, j + 1, k);
    }
  }

  /** `merge_pdf_pages` without the pixels: the canvas is as wide as the
      widest page and as tall as all pages together, and page `k` is pasted
      at x = 0 below the pages before it. With no pages `max()` raises
      `ValueError`. */
  method MergeLayout(pages: seq<Size>) returns (r: Result<Layout>)
    ensures |pages| == 0 <==> r.Err?
    ensures r.Err? ==> r.error == ValueError
    ensures r.Ok? ==> |r.value.origins| == |pages|
    ensures r.Ok? ==> forall k :: 0 <= k < |pages| ==> pages[k].width <= r.value.canvas.width
    ensures r.Ok? ==> exists k :: 0 <= k < |pages| && pages[k].width == r.value.canvas.width
    ensures r.Ok? ==> r.value.canvas.height == SumHeights(pages)
    ensures r.Ok? ==> forall k :: 0 <= k < |pages| ==>
      r.value.origins[k] == Origin(0, SumHeights(pages[..k]))
  {
    if |pages| == 0 {
      return Err(ValueError);
    }
    var width := pages[0].width;
    var widest := 0;
    var height := 0;
    var i := 0;
    while i < |pages|
      invariant 0 <= i <= |pages|
      invariant 0 <= widest < |pages| && width == pages[widest].width
      invariant forall k :: 0 <= k < i ==> pages[k].width <= width
      invariant height == SumHeights(pages[..i])
    {
      if pages[i].width > width {
        width := pages[i].width;
        widest := i;
      }
      SumHeightsStep(pages, i);
      height := height + pages[i].height;
      i := i + 1;
    }
    assert pages[..|pages|] == pages;
    var origins: seq<Origin> := [];
    var yOffset := 0;
    i := 0;
    while i < |pages|
      invariant 0 <= i <= |pages|
      invariant |origins| == i
      invariant yOffset == SumHeights(pages[..i])
      invariant forall k :: 0 <= k < i ==> origins[k] == Origin(0, SumHeights(pages[..k]))
    {
      origins := origins + [Origin(0, yOffset)];
      SumHeightsStep(pages, i);
      yOffset := yOffset + pages[i].height;
      i := i + 1;
    }
    return Ok(Layout(Size(width, height), origins));
  }

  /** Pages placed at the cumulative offsets lie inside the canvas, one
      below the other, without overlapping. */
  lemma {:induction false} PagesTileCanvas(pages: seq<Size>, layout: Layout, j: nat, k: nat)
    requires |layout.origins| == |pages|
    requires forall i :: 0 <= i < |pages| ==> pages[i].width <= layout.canvas.width
    requires layout.canvas.height == SumHeights(pages)
    requires forall i :: 0 <= i < |pages| ==> layout.origins[i] == Origin(0, SumHeights(pages[..i]))
    requires j < k < |pages|
    ensures layout.origins[j].y + pages[j].height <= layout.origins[k].y
    ensures layout.origins[k].x + pages[k].width <= layout.canvas.width
    ensures layout.origins[k].y + pages[k].height <= layout.canvas.height
  {
    SumHeightsStep(pages, j);
    SumHeightsMonotone(pages, j + 1, k);
    SumHeightsStep(pages, k);
    SumHeightsMonotone(pages, k + 1, |pages|);
    assert pages[..|pages|] == pages;
  }

  // ---------------------------------------------------------------------
  // Image token estimate

  const TileSize: nat := 512
  const BaseTokens: nat := 85
  const TokensPerTile: nat := 170

  /** `(extent + 511) // 512`: the fewest 512-pixel tiles that cover
      `extent` pixels. */
  function TilesAlong(extent: nat): (n: nat)
    ensures n * TileSize >= extent
    ensures n == 0 || (n - 1) * TileSize < extent
  {
    (extent + TileSize - 1) / TileSize
  }

  /** `estimate_image_tokens_openai` */
  function EstimateImageTokens(width: nat, height: nat): (tokens: nat)
    ensures tokens >= BaseTokens && (tokens - BaseTokens) % TokensPerTile == 0
    ensures width == 0 || height == 0 ==> tokens == BaseTokens
    ensures width >= 1 && height >= 1 ==> tokens >= BaseTokens + TokensPerTile
  {
    var tilesX := TilesAlong(width);
    var tilesY := TilesAlong(height);
    assert width >= 1 ==> tilesX >= 1;
    assert height >= 1 ==> tilesY >= 1;
    BaseTokens + tilesX * tilesY * TokensPerTile
  }

  /** Any count of tiles that is the least to cover an extent is the one
      `TilesAlong` computes. */
  lemma {:induction false} TilesAlongIsLeast(extent: nat, n: nat)
    requires n * TileSize >= extent
    requires n == 0 || (n - 1) * TileSize < extent
    ensures TilesAlong(extent) == n
  {
  }

  /** The estimate is 85 tokens plus 170 per tile of the least tile grid
      covering the image. */
  lemma {:induction false} EstimateByTileGrid(width: nat, height: nat, nx: nat, ny: nat)
    requires nx * TileSize >= width && (nx == 0 || (nx - 1) * TileSize < width)
    requires ny * TileSize >= height && (ny == 0 || (ny - 1) * TileSize < height)
    ensures EstimateImageTokens(width, height) == 85 + 170 * nx * ny
  {
    TilesAlongIsLeast(width, nx);
    TilesAlongIsLeast(height, ny);
  }

  lemma {:induction false} TilesAlongMonotone(a: nat, b: nat)
    requires a <= b
    ensures TilesAlong(a) <= TilesAlong(b)
  {
  }

  /** A larger image never costs fewer tokens. */
  lemma {:induction false} EstimateMonotone(w1: nat, h1: nat, w2: nat, h2: nat)
    requires w1 <= w2 && h1 <= h2
    ensures EstimateImageTokens(w1, h1) <= EstimateImageTokens(w2, h2)
  {
    TilesAlongMonotone(w1, w2);
    TilesAlongMonotone(h1, h2);
    var x1, y1, x2, y2 := TilesAlong(w1), TilesAlong(h1), TilesAlong(w2), TilesAlong(h2);
    assert x1 * y1 <= x2 * y1 <= x2 * y2;
  }
}
