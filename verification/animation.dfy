/**
 * The animation state as the main loop keeps it: scalar variables updated
 * step by step each frame, the move timeout that boat_move keeps between
 * calls, and the grid of cells that the wave pass and the boat pass
 * overwrite in place.
 */
module Animation {
  import opened Scene
  import opened Input
  import opened Motion

  class Animation {
    var wavesPos: int
    var wavesPosTime: nat
    var boatX: int
    var boatY: int
    /** The move timeout boat_move keeps from one call to the next. */
    var moveTimeout: nat
    var driftTimeout: nat
    /** GridW x GridH cells in row-major order. */
    const grid: array<Cell>

    /** The grid keeps its size, and the scroll position, which starts at 0
        and only ever rises, is never negative. */
    ghost predicate Valid()
      reads this
    {
      grid.Length == GridSize && 0 <= wavesPos
    }

    /** The scalar state as a value. */
    function Snapshot(): Motion
      reads this
    {
      Motion(wavesPos, wavesPosTime, boatX, boatY, moveTimeout, driftTimeout)
    }

    /** The state before the first frame, over a zero-filled grid. */
    constructor ()
      ensures Valid() && fresh(grid)
      ensures Snapshot() == Initial()
      ensures forall i :: 0 <= i < grid.Length ==> grid[i] == BlankCell
    {
      wavesPos, wavesPosTime := 0, 0;
      boatX, boatY := (GridW - BoatW) / 2, (GridH - BoatH) / 2;
      moveTimeout, driftTimeout := 0, 0;
      grid := new Cell[GridSize](_ => BlankCell);
    }

    /** Drains the frame's events in order into a per-axis intent and the
        quit flag, reading the boat's current position for clicks. */
    method ResolveIntent(events: seq<Event>, cellW: int, cellH: int) returns (dx: int, dy: int, done: bool)
      ensures Intent(dx, dy, done) == Resolve(events, boatX, boatY, cellW, cellH)
      ensures -1 <= dx <= 1 && -1 <= dy <= 1
      ensures done <==> Quit in events
    {
      dx, dy, done := 0, 0, false;
      var n := 0;
      while n < |events|
        invariant 0 <= n <= |events|
        invariant Intent(dx, dy, done) == Resolve(events[..n], boatX, boatY, cellW, cellH)
      {
        match events[n] {
          case KeyDown(k) =>
            match k {
              case Up => dy := -1;
              case Down => dy := 1;
              case Left => dx := -1;
              case Right => dx := 1;
              case OtherKey =>
            }
          case MouseButtonDown(px, py) =>
            if px > (boatX + BoatW) * cellW {
              dx := 1;
            } else if px < boatX * cellW {
              dx := -1;
            }
            if py > (boatY + BoatH) * cellH {
              dy := 1;
            } else if py < boatY * cellH {
              dy := -1;
            }
          case Quit => done := true;
          case OtherEvent =>
        }
        assert events[..n + 1][..n] == events[..n];
        n := n + 1;
      }
      assert events[..n] == events;
    }

    /** boat_move: moves the boat by (dx, dy) unless the move timeout has not
        yet passed, and renews the move and drift timeouts. */
    method BoatMove(dx: int, dy: int, time: nat)
      modifies this`boatX, this`boatY, this`moveTimeout, this`driftTimeout
      ensures Snapshot() == old(Snapshot()).Move(dx, dy, time)
    {
      if moveTimeout < time {
        boatX := boatX + dx;
        boatY := boatY + dy;
        moveTimeout := time + (if dx < 0 then LeftCooldown else OtherCooldown);
        if driftTimeout < time {
          driftTimeout := time + DriftWindow;
        }
      }
    }

    /** Advances the scroll position if the interval has passed, and returns
        the position it had before. */
    method AdvanceWaves(now: nat) returns (wavesPosLast: int)
      modifies this`wavesPos, this`wavesPosTime
      ensures wavesPosLast == old(wavesPos)
      ensures Snapshot() == old(Snapshot()).AdvanceWaves(now)
    {
      wavesPosLast := wavesPos;
      if wavesPosTime + WavesInterval < now {
        wavesPos := wavesPos + 1;
        wavesPosTime := now;
      }
    }

    /** Overwrites every cell with the wave layer for the current scroll
        position, column by column. */
    method PaintWaves()
      requires Valid()
      modifies grid
      ensures grid[..] == Painted(wavesPos)
    {
      for x := 0 to GridW
        invariant forall cx, cy :: 0 <= cx < x && 0 <= cy < GridH ==>
                    grid[cx + GridW * cy] == WaveCell(wavesPos, cx, cy)
      {
        for y := 0 to GridH
          invariant forall cx, cy :: 0 <= cx < x && 0 <= cy < GridH ==>
                      grid[cx + GridW * cy] == WaveCell(wavesPos, cx, cy)
          invariant forall cy :: 0 <= cy < y ==> grid[x + GridW * cy] == WaveCell(wavesPos, x, cy)
        {
          grid[x + GridW * y] := WaveCell(wavesPos, x, y);
        }
      }
      forall i | 0 <= i < GridSize
        ensures grid[i] == Painted(wavesPos)[i]
      {
        var cx, cy := i % GridW, i / GridW;
        assert i == cx + GridW * cy;
      }
    }

    /** Moves the boat one column left if the waves advanced this frame and
        the drift timeout has lapsed. */
    method DriftBoat(wavesPosLast: int, now: nat)
      modifies this`boatX
      ensures Snapshot() == old(Snapshot()).Drift(wavesPosLast, now)
    {
      if wavesPos > wavesPosLast && driftTimeout < now {
        boatX := boatX - 1;
      }
    }

    /** The cell at linear index i once the boat's mask columns before x, and
        the rows before y of column x, have been drawn over `under`. */
    static function OverlaidSoFar(under: Cell, boatX: int, boatY: int, i: int, x: int, y: int): Cell
    {
      var d := i - boatX - GridW * boatY;
      var cx, cy := d % GridW, d / GridW;
      match BoatGlyphAt(boatX, boatY, i)
      case Some(c) => if cx < x || (cx == x && cy < y) then BoatCell(c) else under
      case None => under
    }

    /** Draws the non-blank boat characters over the grid. The index of each
        write is not checked, so every one must already lie inside the grid. */
    method OverlayBoat()
      requires Valid() && OverlayFits(boatX, boatY)
      modifies grid
      ensures grid[..] == Overlay(old(grid[..]), boatX, boatY)
    {
      for x := 0 to BoatW
        invariant forall i :: 0 <= i < GridSize ==>
                    grid[i] == OverlaidSoFar(old(grid[i]), boatX, boatY, i, x, 0)
      {
        for y := 0 to BoatH
          invariant forall i :: 0 <= i < GridSize ==>
                      grid[i] == OverlaidSoFar(old(grid[i]), boatX, boatY, i, x, y)
        {
          GridIndex(x, y);
          if MaskAt(x, y) != ' ' {
            grid[boatX + x + GridW * (boatY + y)] := BoatCell(MaskAt(x, y));
          }
        }
      }
    }

    /** One pass of the main loop at tick time now: resolve the events, move
        the boat if anything was asked for, advance and paint the waves,
        drift, and draw the boat. The result says whether quit was seen. */
    method Frame(events: seq<Event>, now: nat, cellW: int, cellH: int) returns (done: bool)
      requires Valid()
      requires var next := Step(Snapshot(), events, now, cellW, cellH); OverlayFits(next.boatX, next.boatY)
      modifies this, grid
      ensures Valid()
      ensures done <==> Quit in events
      ensures Snapshot() == Step(old(Snapshot()), events, now, cellW, cellH)
      ensures grid[..] == Overlay(Painted(wavesPos), boatX, boatY)
    {
      var dx, dy;
      dx, dy, done := ResolveIntent(events, cellW, cellH);
      if dx != 0 || dy != 0 {
        BoatMove(dx, dy, now);
      }
      var wavesPosLast := AdvanceWaves(now);
      PaintWaves();
      DriftBoat(wavesPosLast, now);
      OverlayBoat();
    }
  }
}
