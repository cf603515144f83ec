/**
 * The scalar state the main loop carries from frame to frame, and the
 * per-frame transitions on it as values: the throttled boat move, the wave
 * advance and the drift. Class Animation.Animation holds the same state in
 * fields and is proved to follow these functions.
 *
 * Times are milliseconds from the tick counter, modelled as unbounded
 * naturals.
 */
module Motion {
  import opened Scene
  import opened Input

  /** A move to the left may be followed by another after this long. */
  const LeftCooldown: nat := 60
  /** Any other move may be followed by another after this long. */
  const OtherCooldown: nat := 120
  /** A move keeps the boat from drifting for this long. */
  const DriftWindow: nat := 1000
  /** The waves advance at most once per this interval. */
  const WavesInterval: nat := 1000

  /** wavesPos and wavesPosTime: the scroll position and when it last
      advanced; boatX, boatY: the boat's top-left cell; moveTimeout: until
      when manual moves are refused; driftTimeout: until when drift is held off. */
  datatype Motion = Motion(wavesPos: int, wavesPosTime: nat, boatX: int, boatY: int,
                           moveTimeout: nat, driftTimeout: nat)
  {
    /** boat_move: a throttled manual move by (dx, dy) at time `time`. */
    function Move(dx: int, dy: int, time: nat): (r: Motion)
      ensures r.wavesPos == wavesPos && r.wavesPosTime == wavesPosTime
      // the move takes effect exactly when the move timeout has strictly passed;
      // otherwise nothing at all changes: the intent is dropped, not queued
      ensures r == this <==> !(moveTimeout < time)
      ensures moveTimeout < time ==>
                r.boatX == boatX + dx && r.boatY == boatY + dy &&
                r.moveTimeout == time + (if dx < 0 then LeftCooldown else OtherCooldown)
      // the drift timeout never decreases; it is renewed to time + 1000 only
      // by an effective move, and only if it had already lapsed
      ensures driftTimeout <= r.driftTimeout
      ensures r.driftTimeout != driftTimeout <==> moveTimeout < time && driftTimeout < time
      ensures r.driftTimeout != driftTimeout ==> r.driftTimeout == time + DriftWindow
    {
      if moveTimeout < time then
        this.(boatX := boatX + dx, boatY := boatY + dy,
              moveTimeout := time + (if dx < 0 then LeftCooldown else OtherCooldown),
              driftTimeout := if driftTimeout < time then time + DriftWindow else driftTimeout)
      else this
    }

    /** The wave advance at time now. */
    function AdvanceWaves(now: nat): (r: Motion)
      ensures r.boatX == boatX && r.boatY == boatY
      ensures r.moveTimeout == moveTimeout && r.driftTimeout == driftTimeout
      // one step at most, and exactly when more than the interval has passed
      ensures r.wavesPos == wavesPos || r.wavesPos == wavesPos + 1
      ensures r.wavesPos == wavesPos + 1 <==> wavesPosTime + WavesInterval < now
      ensures r.wavesPos == wavesPos ==> r.wavesPosTime == wavesPosTime
      ensures r.wavesPos == wavesPos + 1 ==> r.wavesPosTime == now > wavesPosTime + WavesInterval
    {
      if wavesPosTime + WavesInterval < now then this.(wavesPos := wavesPos + 1, wavesPosTime := now)
      else this
    }

    /** The drift at time now, given the scroll position before this frame's
        wave advance. */
    function Drift(wavesPosLast: int, now: nat): (r: Motion)
      ensures r.(boatX := boatX) == this
      ensures r.boatX == boatX - 1 <==> wavesPos > wavesPosLast && driftTimeout < now
      ensures r.boatX == boatX || r.boatX == boatX - 1
    {
      if wavesPos > wavesPosLast && driftTimeout < now then this.(boatX := boatX - 1) else this
    }
  }

  /** The state before the first frame: the boat centred, everything else zero. */
  function Initial(): (m: Motion)
    ensures m.wavesPos == 0 && m.wavesPosTime == 0 && m.moveTimeout == 0 && m.driftTimeout == 0
    // the boat's box is centred, rounding towards the top-left corner
    ensures GridW - BoatW - 1 <= 2 * m.boatX <= GridW - BoatW
    ensures GridH - BoatH - 1 <= 2 * m.boatY <= GridH - BoatH
  {
    Motion(0, 0, (GridW - BoatW) / 2, (GridH - BoatH) / 2, 0, 0)
  }

  /** One frame at time now: resolve the events into an intent, move the boat
      if the intent asks for anything, advance the waves, then drift. */
  function Step(m: Motion, events: seq<Event>, now: nat, cellW: int, cellH: int): (r: Motion)
    ensures r.wavesPos == m.wavesPos || r.wavesPos == m.wavesPos + 1
    ensures r.wavesPosTime >= m.wavesPosTime
    ensures r.wavesPos > m.wavesPos ==> r.wavesPosTime > m.wavesPosTime + WavesInterval
    ensures m.boatX - 2 <= r.boatX <= m.boatX + 1
    ensures m.boatY - 1 <= r.boatY <= m.boatY + 1
    ensures r.moveTimeout >= m.moveTimeout && r.driftTimeout >= m.driftTimeout
    // the column is the one after the move, if any, less one exactly when the
    // waves advanced this frame and the drift timeout left by the move has lapsed
    ensures var i := Resolve(events, m.boatX, m.boatY, cellW, cellH);
            var moved := if i.dx != 0 || i.dy != 0 then m.Move(i.dx, i.dy, now) else m;
            r.boatX == moved.boatX - (if r.wavesPos > m.wavesPos && moved.driftTimeout < now then 1 else 0)
    // with nothing asked for, boat_move is not called: only the waves and the drift act
    ensures Resolve(events, m.boatX, m.boatY, cellW, cellH).dx == 0 &&
            Resolve(events, m.boatX, m.boatY, cellW, cellH).dy == 0 ==>
              r.boatY == m.boatY && r.moveTimeout == m.moveTimeout && r.driftTimeout == m.driftTimeout &&
              r.boatX == (if r.wavesPos > m.wavesPos && m.driftTimeout < now then m.boatX - 1 else m.boatX)
  {
    var intent := Resolve(events, m.boatX, m.boatY, cellW, cellH);
    var moved := if intent.dx != 0 || intent.dy != 0 then m.Move(intent.dx, intent.dy, now) else m;
    var advanced := moved.AdvanceWaves(now);
    advanced.Drift(moved.wavesPos, now)
  }

  /** One frame's input: its events and its tick time. */
  datatype FrameInput = FrameInput(events: seq<Event>, now: nat)

  /** The state after running the frames in order. Over any run the scroll
      position never decreases and rises by at most one per frame, every
      rise lies more than the interval after the previous one, and neither
      timeout ever decreases. */
  function Run(m: Motion, frames: seq<FrameInput>, cellW: int, cellH: int): (r: Motion)
    ensures m.wavesPos <= r.wavesPos <= m.wavesPos + |frames|
    ensures m.wavesPosTime + (WavesInterval + 1) * (r.wavesPos - m.wavesPos) <= r.wavesPosTime
    ensures r.moveTimeout >= m.moveTimeout && r.driftTimeout >= m.driftTimeout
  {
    if |frames| == 0 then m
    else Step(Run(m, frames[..|frames| - 1], cellW, cellH), frames[|frames| - 1].events,
              frames[|frames| - 1].now, cellW, cellH)
  }

  /** The latest tick time among the frames, or t if it is later. */
  function LatestTime(t: nat, frames: seq<FrameInput>): (r: nat)
    ensures r >= t
    ensures forall k :: 0 <= k < |frames| ==> frames[k].now <= r
  {
    if |frames| == 0 then t
    else var last := LatestTime(t, frames[..|frames| - 1]);
         if frames[|frames| - 1].now > last then frames[|frames| - 1].now else last
  }

  /** However long frames are late, the scroll position rises by at most one
      per 1001 ms of tick time: the frames' latest tick is at least 1001 ms
      per step past the advance time the run started from. */
  lemma {:induction false} WavesAdvanceAtMostOncePerInterval(m: Motion, frames: seq<FrameInput>, cellW: int, cellH: int)
    ensures var r := Run(m, frames, cellW, cellH);
            r.wavesPosTime <= LatestTime(m.wavesPosTime, frames) &&
            m.wavesPosTime + (WavesInterval + 1) * (r.wavesPos - m.wavesPos) <= LatestTime(m.wavesPosTime, frames)
  {
    if |frames| > 0 {
      var prefix := frames[..|frames| - 1];
      WavesAdvanceAtMostOncePerInterval(m, prefix, cellW, cellH);
    }
  }

  /** Every state reachable from the initial one has a non-negative scroll
      position, which is what SecondGlyphOnlyAtOrigin assumes. */
  lemma ReachableWavesPosNonNegative(frames: seq<FrameInput>, cellW: int, cellH: int)
    ensures Run(Initial(), frames, cellW, cellH).wavesPos >= 0
  {
  }

  /** Drift has no lower bound: frames without input, each 1001 ms after the
      previous one, advance the waves every time, and with drift not held off
      each one moves the boat one column left, frame after frame. */
  lemma {:induction false} IdleRunDriftsWithoutBound(m: Motion, frames: seq<FrameInput>, cellW: int, cellH: int)
    requires m.driftTimeout <= m.wavesPosTime
    requires forall k :: 0 <= k < |frames| ==>
               frames[k].events == [] && frames[k].now == m.wavesPosTime + (WavesInterval + 1) * (k + 1)
    ensures var r := Run(m, frames, cellW, cellH);
            r.boatX == m.boatX - |frames| && r.boatY == m.boatY &&
            r.wavesPos == m.wavesPos + |frames| &&
            r.wavesPosTime == m.wavesPosTime + (WavesInterval + 1) * |frames| &&
            r.driftTimeout == m.driftTimeout
  {
    if |frames| > 0 {
      IdleRunDriftsWithoutBound(m, frames[..|frames| - 1], cellW, cellH);
    }
  }

  /** A boat at least two columns from the left edge, one from the right and
      one row from the top and bottom is still drawn inside the grid after
      one more frame, whatever the frame's input. */
  lemma StepFromMarginFits(m: Motion, events: seq<Event>, now: nat, cellW: int, cellH: int)
    requires 2 <= m.boatX && m.boatX + BoatW + 1 <= GridW
    requires 1 <= m.boatY && m.boatY + BoatH + 1 <= GridH
    ensures var r := Step(m, events, now, cellW, cellH); OverlayFits(r.boatX, r.boatY)
  {
    var r := Step(m, events, now, cellW, cellH);
    BoxInsideGridFits(r.boatX, r.boatY);
  }

  /** The initial boat is inside that margin, so the first frame draws
      inside the grid. */
  lemma InitialFrameFits(events: seq<Event>, now: nat, cellW: int, cellH: int)
    ensures Initial().boatX == 38 && Initial().boatY == 12
    ensures var r := Step(Initial(), events, now, cellW, cellH); OverlayFits(r.boatX, r.boatY)
  {
    StepFromMarginFits(Initial(), events, now, cellW, cellH);
  }

  /** Moves are not clamped at the grid's edges: an up move from the top row
      puts the boat's mast above the grid, where the overlay would write
      before the grid's first cell. */
  lemma UpMoveFromTopRowLeavesGrid(m: Motion, time: nat)
    requires m.boatY == 0 && 0 <= m.boatX <= GridW - BoatW
    requires m.moveTimeout < time
    ensures m.Move(0, -1, time).boatY == -1
    ensures !OverlayFits(m.Move(0, -1, time).boatX, m.Move(0, -1, time).boatY)
  {
    OverlayFitsBounds(m.boatX, -1);
  }

  /** Drift is not clamped either: it lowers the column by one whenever the
      waves advance with the drift timeout lapsed, wherever the boat is. */
  lemma DriftIgnoresLeftEdge(m: Motion, wavesPosLast: int, now: nat)
    requires m.boatX == 0 && m.wavesPos > wavesPosLast && m.driftTimeout < now
    ensures m.Drift(wavesPosLast, now).boatX == -1
  {
  }

  /** A first move at tick 0 is dropped, because the move timeout starts at 0
      and must be strictly below the time; at tick 1 a left move blocks the
      next for 60 ms, a right or vertical move for 120 ms, and a second move
      at tick 30 is dropped with the boat where the first left it. */
  lemma MoveCooldownScenario()
    ensures Initial().Move(-1, 0, 0) == Initial()
    ensures Initial().Move(-1, 0, 1).moveTimeout == 61
    ensures Initial().Move(1, 0, 1).moveTimeout == 121
    ensures Initial().Move(0, 1, 1).moveTimeout == 121
    ensures Initial().Move(-1, 0, 1).Move(1, 0, 30) == Initial().Move(-1, 0, 1)
    ensures Initial().Move(-1, 0, 1).boatX == Initial().boatX - 1
  {
  }

  /** A move while drift is still held off leaves the drift timeout alone; a
      move after it lapsed renews it for 1000 ms. */
  lemma DriftTimeoutScenario()
    ensures Initial().(driftTimeout := 500).Move(1, 0, 100).driftTimeout == 500
    ensures Initial().(driftTimeout := 500).Move(1, 0, 600).driftTimeout == 1600
  {
  }
}
