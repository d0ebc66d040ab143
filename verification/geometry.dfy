/** Grid coordinates, pixel rectangles and the texture wrapper that maps one
    onto the other (src/meta/base-texture.cpp). */
module Geometry {

  /** An SDL_Point: a grid cell (x = column, y = row) or a pixel position. */
  datatype Point = Point(x: int, y: int)

  /** An SDL_Rect in window pixels. */
  datatype Rect = Rect(x: int, y: int, w: int, h: int)

  /** The window-dependent globals the mapping reads: the pixel size of one
      tile (globals::TILE_DEST_SIZE) and the pixel offset of the grid's
      origin (globals::OFFSET). */
  datatype Frame = Frame(tileSize: Point, offset: Point)

  /** The part of a BaseTextureWrapper this model tracks: the grid cell it
      stands on, the window rectangle it is drawn into, and the source
      rectangle it samples from its tileset (set once by init_). */
  datatype Texture = Texture(destCoords: Point, destRect: Rect, srcRect: Rect)

  predicate PositiveTiles(f: Frame) {
    f.tileSize.x > 0 && f.tileSize.y > 0
  }

  /** getDestRectFromCoords: the window rectangle of grid cell `c`. */
  function DestRectFromCoords(f: Frame, c: Point): (r: Rect)
    ensures r.w == f.tileSize.x && r.h == f.tileSize.y
    ensures PositiveTiles(f) ==> CoordsFromDestRect(f, r) == c
  {
    LemmaScaleCancels(c.x, f.tileSize.x);
    LemmaScaleCancels(c.y, f.tileSize.y);
    Rect(c.x * f.tileSize.x + f.offset.x, c.y * f.tileSize.y + f.offset.y,
         f.tileSize.x, f.tileSize.y)
  }

  /** The inverse of DestRectFromCoords: the grid cell whose rectangle
      starts at `r`'s corner. */
  function CoordsFromDestRect(f: Frame, r: Rect): Point
    requires PositiveTiles(f)
  {
    Point((r.x - f.offset.x) / f.tileSize.x, (r.y - f.offset.y) / f.tileSize.y)
  }

  lemma LemmaScaleCancels(a: int, t: int)
    ensures t > 0 ==> (a * t) / t == a
  {
    if t > 0 {
      var q := (a * t) / t;
      var k := a - q;
      assert k * t == (a * t) % t;
      LemmaMultipleBelowFactor(k, t);
    }
  }

  /** A multiple of `t` lying in [0, t) is zero times `t`. */
  lemma LemmaMultipleBelowFactor(k: int, t: int)
    requires t > 0 && 0 <= k * t < t
    ensures k == 0
  {
    assert k >= 1 ==> k * t == (k - 1) * t + t;
    assert k >= 1 ==> (k - 1) * t >= 0;
    assert k <= -1 ==> k * t == (k + 1) * t - t;
    assert k <= -1 ==> (k + 1) * t <= 0;
  }

  /** With positive tile sizes no two cells share a rectangle. */
  lemma DestRectInjective(f: Frame, a: Point, b: Point)
    requires PositiveTiles(f)
    ensures DestRectFromCoords(f, a) == DestRectFromCoords(f, b) <==> a == b
  {
    if DestRectFromCoords(f, a) == DestRectFromCoords(f, b) {
      assert a == CoordsFromDestRect(f, DestRectFromCoords(f, a));
    }
  }

  /** Neighbouring columns sit exactly one tile width apart, neighbouring
      rows exactly one tile height apart. */
  lemma DestRectNeighbours(f: Frame, c: Point)
    ensures DestRectFromCoords(f, Point(c.x + 1, c.y)).x == DestRectFromCoords(f, c).x + f.tileSize.x
    ensures DestRectFromCoords(f, Point(c.x + 1, c.y)).y == DestRectFromCoords(f, c).y
    ensures DestRectFromCoords(f, Point(c.x, c.y + 1)).y == DestRectFromCoords(f, c).y + f.tileSize.y
    ensures DestRectFromCoords(f, Point(c.x, c.y + 1)).x == DestRectFromCoords(f, c).x
  {
    assert (c.x + 1) * f.tileSize.x == c.x * f.tileSize.x + f.tileSize.x;
    assert (c.y + 1) * f.tileSize.y == c.y * f.tileSize.y + f.tileSize.y;
  }

  /** onWindowChange: re-derives the window rectangle from the grid cell. */
  function OnWindowChange(f: Frame, t: Texture): (u: Texture)
    ensures u.destCoords == t.destCoords && u.srcRect == t.srcRect
    ensures u.destRect.w == f.tileSize.x && u.destRect.h == f.tileSize.y
    ensures PositiveTiles(f) ==> CoordsFromDestRect(f, u.destRect) == t.destCoords
  {
    t.(destRect := DestRectFromCoords(f, t.destCoords))
  }

  /** Applying onWindowChange twice is the same as applying it once. */
  lemma WindowChangeIdempotent(f: Frame, t: Texture)
    ensures OnWindowChange(f, OnWindowChange(f, t)) == OnWindowChange(f, t)
  {
  }

  /** The re-derived rectangle depends on the grid cell and the frame only,
      never on the rectangle held before. */
  lemma WindowChangeForgetsOldRect(f: Frame, t: Texture, s: Texture)
    requires t.destCoords == s.destCoords
    ensures OnWindowChange(f, t).destRect == OnWindowChange(f, s).destRect
  {
  }

  /** onLevelChange: takes the grid cell of the level's spawn record and
      leaves everything else, the window rectangle included, as it was. */
  function OnLevelChange(t: Texture, spawn: Point): (u: Texture)
    ensures u.destCoords == spawn
    ensures u.destRect == t.destRect && u.srcRect == t.srcRect
  {
    t.(destCoords := spawn)
  }

  /** A level change followed by a window change leaves no trace of the
      previous level's cell: the result depends only on the spawn cell. */
  lemma LevelThenWindowChangeReplacesPosition(f: Frame, t: Texture, s: Texture, spawn: Point)
    requires t.srcRect == s.srcRect
    ensures OnWindowChange(f, OnLevelChange(t, spawn)) == OnWindowChange(f, OnLevelChange(s, spawn))
  {
  }

  /** operator<: row first, then column. */
  predicate Before(a: Texture, b: Texture) {
    if a.destCoords.y == b.destCoords.y then a.destCoords.x < b.destCoords.x
    else a.destCoords.y < b.destCoords.y
  }

  /** operator==: same grid cell. */
  predicate SameCell(a: Texture, b: Texture) {
    a.destCoords.x == b.destCoords.x && a.destCoords.y == b.destCoords.y
  }

  /** Before is the lexicographic order on (row, column). */
  lemma BeforeIsLexicographic(a: Texture, b: Texture)
    ensures Before(a, b) <==>
      (a.destCoords.y < b.destCoords.y ||
       (a.destCoords.y == b.destCoords.y && a.destCoords.x < b.destCoords.x))
  {
  }

  lemma BeforeIrreflexive(a: Texture)
    ensures !Before(a, a)
  {
  }

  lemma BeforeTransitive(a: Texture, b: Texture, c: Texture)
    requires Before(a, b) && Before(b, c)
    ensures Before(a, c)
  {
  }

  /** Exactly one of a < b, a == b, b < a holds. */
  lemma BeforeTrichotomy(a: Texture, b: Texture)
    ensures Before(a, b) || SameCell(a, b) || Before(b, a)
    ensures !(Before(a, b) && SameCell(a, b))
    ensures !(Before(b, a) && SameCell(a, b))
    ensures !(Before(a, b) && Before(b, a))
  {
  }

  /** operator== compares cells only: textures drawn at different places or
      from different source regions still compare equal. */
  lemma SameCellIgnoresRects(a: Texture, b: Texture)
    ensures SameCell(a, b) <==> a.destCoords == b.destCoords
  {
  }
}
