/**
 * The character grid the animation composites every frame: its fixed size,
 * the palette its cells refer to, the wave glyph rule and the boat mask.
 * The functions here describe what the two painting passes leave in the
 * grid; class Animation.Animation performs them in place.
 */
module Scene {

  datatype Option<T> = None | Some(value: T)

  const GridW: int := 83
  const GridH: int := 28
  const GridSize: int := GridW * GridH

  /** Rows of the wave pattern repeat with this period. */
  const WavesGap: int := 10

  const BoatW: int := 7
  const BoatH: int := 3

  /** The boat, top row first; a space is transparent. */
  const BoatMask: seq<string> := ["   _   ", "  |o|  ", "\\_____/"]

  /** Palette entries a cell refers to. Unset stands for the null colour
      reference of a cell that has never been painted. */
  datatype Color = Unset | Background | WaveA | WaveB | BoatColor

  datatype Cell = Cell(c: char, fg: Color, bg: Color)

  /** A cell of the freshly allocated, zero-filled grid. */
  const BlankCell: Cell := Cell('\0', Unset, Unset)

  /** The two wave glyphs: the first where the wave value is positive. */
  const Waves: seq<char> := ['/', '\\']

  /** Character of the boat mask at column cx of row cy. */
  function MaskAt(cx: int, cy: int): char
    requires 0 <= cx < BoatW && 0 <= cy < BoatH
  {
    if cy == 0 then BoatMask[0][cx]
    else if cy == 1 then BoatMask[1][cx]
    else BoatMask[2][cx]
  }

  /** The wave layer's cell at column x, row y, for scroll position wavesPos. */
  function WaveCell(wavesPos: int, x: int, y: int): (r: Cell)
    ensures r.bg == Background
    // the first glyph always comes with the first wave colour, the second with the second
    ensures r.c == '/' <==> r.fg == WaveA
    ensures r.c == '\\' <==> r.fg == WaveB
    ensures r.c == '/' <==> wavesPos + x + y % WavesGap > 0
  {
    if wavesPos + x + y % WavesGap > 0 then Cell(Waves[0], WaveA, Background)
    else Cell(Waves[1], WaveB, Background)
  }

  /** The whole grid as the wave pass leaves it, in row-major order. */
  function Painted(wavesPos: int): (g: seq<Cell>)
    ensures |g| == GridSize
  {
    seq(GridSize, i requires 0 <= i < GridSize => WaveCell(wavesPos, i % GridW, i / GridW))
  }

  lemma GridIndex(x: int, y: int)
    requires 0 <= x < GridW
    ensures (x + GridW * y) % GridW == x && (x + GridW * y) / GridW == y
  {
    var i := x + GridW * y;
    var q, r := i / GridW, i % GridW;
    assert i == GridW * q + r && 0 <= r < GridW;
    assert GridW * (q - y) == x - r;
  }

  /** Row-major addressing: the cell for column x and row y sits at x + GridW*y. */
  lemma PaintedAt(wavesPos: int, x: int, y: int)
    requires 0 <= x < GridW && 0 <= y < GridH
    ensures 0 <= x + GridW * y < GridSize
    ensures Painted(wavesPos)[x + GridW * y] == WaveCell(wavesPos, x, y)
  {
    GridIndex(x, y);
  }

  /** Every painted cell has the page background; it shows the first wave
      glyph in the first wave colour exactly when wavesPos + x + y mod 10 is
      positive, and the second glyph in the second colour otherwise. */
  lemma PaintedCellColours(wavesPos: int, x: int, y: int)
    requires 0 <= x < GridW && 0 <= y < GridH
    ensures Painted(wavesPos)[x + GridW * y].bg == Background
    ensures Painted(wavesPos)[x + GridW * y] == Cell('/', WaveA, Background)
            <==> wavesPos + x + y % WavesGap > 0
    ensures Painted(wavesPos)[x + GridW * y] == Cell('\\', WaveB, Background)
            <==> wavesPos + x + y % WavesGap <= 0
  {
    PaintedAt(wavesPos, x, y);
  }

  /** Since the scroll position never goes below zero, the second wave glyph
      only appears at column 0 of every tenth row, and only at position 0. */
  lemma SecondGlyphOnlyAtOrigin(wavesPos: int, x: int, y: int)
    requires 0 <= wavesPos
    requires 0 <= x < GridW && 0 <= y < GridH
    ensures Painted(wavesPos)[x + GridW * y].c == '\\'
            <==> wavesPos == 0 && x == 0 && y % WavesGap == 0
  {
    PaintedAt(wavesPos, x, y);
  }

  /** The boat character drawn at linear index i when the boat's top-left
      corner is at (boatX, boatY), if any: i is split back into a mask column and
      row relative to the corner, as the overlay's index arithmetic implies. */
  function BoatGlyphAt(boatX: int, boatY: int, i: int): (r: Option<char>)
    // only non-blank mask characters are drawn, and only at indices the
    // overlay writes, which lie in the grid whenever OverlayFits holds
    ensures r.Some? ==> r.value != ' '
    ensures r.Some? && OverlayFits(boatX, boatY) ==> 0 <= i < GridSize
  {
    var d := i - boatX - GridW * boatY;
    var cx, cy := d % GridW, d / GridW;
    if 0 <= cy < BoatH && cx < BoatW && MaskAt(cx, cy) != ' ' then Some(MaskAt(cx, cy)) else None
  }

  /** The cell the overlay writes for boat character c. */
  function BoatCell(c: char): Cell
  {
    Cell(c, BoatColor, Background)
  }

  /** Grid g with the boat at (boatX, boatY) drawn over it. */
  function Overlay(g: seq<Cell>, boatX: int, boatY: int): (r: seq<Cell>)
    ensures |r| == |g|
    // every changed cell is a boat cell: boat colour over the background
    ensures forall i :: 0 <= i < |g| && r[i] != g[i] ==> r[i].fg == BoatColor && r[i].bg == Background
  {
    seq(|g|, i requires 0 <= i < |g| =>
      match BoatGlyphAt(boatX, boatY, i)
      case Some(c) => BoatCell(c)
      case None => g[i])
  }

  /** Every index the overlay writes, boatX + cx + GridW*(boatY + cy) for a
      non-blank mask cell, lies inside the grid. The overlay does not check
      this itself. */
  predicate OverlayFits(boatX: int, boatY: int)
  {
    forall cx, cy :: 0 <= cx < BoatW && 0 <= cy < BoatH && MaskAt(cx, cy) != ' ' ==>
      0 <= boatX + cx + GridW * (boatY + cy) < GridSize
  }

  /** The only non-blank character of the mask's top row is its middle one. */
  lemma TopRowShape(cx: int)
    requires 0 <= cx < BoatW
    ensures MaskAt(cx, 0) != ' ' <==> cx == 3
  {
    if cx == 0 { assert MaskAt(cx, 0) == ' '; }
    else if cx == 1 { assert MaskAt(cx, 0) == ' '; }
    else if cx == 2 { assert MaskAt(cx, 0) == ' '; }
    else if cx == 3 { assert MaskAt(cx, 0) == '_'; }
    else if cx == 4 { assert MaskAt(cx, 0) == ' '; }
    else if cx == 5 { assert MaskAt(cx, 0) == ' '; }
    else { assert MaskAt(cx, 0) == ' '; }
  }

  /** The overlay stays inside the grid exactly when its first write (the
      mast, column 3 of row 0) and its last write (the stern, column 6 of
      row 2) do. */
  lemma OverlayFitsBounds(boatX: int, boatY: int)
    ensures OverlayFits(boatX, boatY)
            <==> 0 <= boatX + 3 + GridW * boatY && boatX + 6 + GridW * (boatY + 2) < GridSize
  {
    if 0 <= boatX + 3 + GridW * boatY && boatX + 6 + GridW * (boatY + 2) < GridSize {
      forall cx, cy | 0 <= cx < BoatW && 0 <= cy < BoatH && MaskAt(cx, cy) != ' '
        ensures 0 <= boatX + cx + GridW * (boatY + cy) < GridSize
      {
        if cy == 0 { TopRowShape(cx); }
      }
    } else {
      assert MaskAt(3, 0) == '_' && MaskAt(6, 2) == '/';
    }
  }

  /** A boat whose 7x3 box lies inside the grid is drawn inside it. */
  lemma BoxInsideGridFits(boatX: int, boatY: int)
    requires 0 <= boatX && boatX + BoatW <= GridW && 0 <= boatY && boatY + BoatH <= GridH
    ensures OverlayFits(boatX, boatY)
  {
    OverlayFitsBounds(boatX, boatY);
  }

  /** Each non-blank mask cell shows its character in the boat colour over
      the background. */
  lemma OverlayCovers(g: seq<Cell>, boatX: int, boatY: int, cx: int, cy: int)
    requires |g| == GridSize && OverlayFits(boatX, boatY)
    requires 0 <= cx < BoatW && 0 <= cy < BoatH && MaskAt(cx, cy) != ' '
    ensures 0 <= boatX + cx + GridW * (boatY + cy) < GridSize
    ensures Overlay(g, boatX, boatY)[boatX + cx + GridW * (boatY + cy)] == Cell(MaskAt(cx, cy), BoatColor, Background)
  {
    GridIndex(cx, cy);
  }

  /** A cell that no non-blank mask cell lands on keeps its value. */
  lemma OverlayKeeps(g: seq<Cell>, boatX: int, boatY: int, i: int)
    requires 0 <= i < |g|
    requires forall cx, cy :: 0 <= cx < BoatW && 0 <= cy < BoatH && MaskAt(cx, cy) != ' ' ==>
               i != boatX + cx + GridW * (boatY + cy)
    ensures Overlay(g, boatX, boatY)[i] == g[i]
  {
    var d := i - boatX - GridW * boatY;
    var cx, cy := d % GridW, d / GridW;
    assert i == boatX + cx + GridW * (boatY + cy);
  }
}
