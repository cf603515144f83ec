/**
 * Turning one frame's input events into a move intent. The main loop drains
 * its event queue into two per-axis variables that each event may overwrite,
 * and a quit flag; Resolve is that fold, written over the events seen so far.
 */
module Input {
  import opened Scene

  /** The keys the loop reacts to; w, s, a and d act exactly as the arrow
      keys Up, Down, Left and Right. */
  datatype Key = Up | Down | Left | Right | OtherKey

  /** A click carries its position in window pixels. */
  datatype Event = KeyDown(key: Key) | MouseButtonDown(px: int, py: int) | Quit | OtherEvent

  /** Per-axis move request (each -1, 0 or 1) and whether quit was seen. */
  datatype Intent = Intent(dx: int, dy: int, done: bool)

  const NoIntent: Intent := Intent(0, 0, false)

  /** One axis of a click against the boat's box, which spans cells
      [pos, pos + size) of cellSize pixels each: past the far edge gives 1,
      before the near edge gives -1, and inside the box the axis keeps
      whatever an earlier event set. */
  function ClickAxis(p: int, pos: int, size: int, cellSize: int, prev: int): (r: int)
    ensures r == 1 || r == -1 || r == prev
    ensures p > (pos + size) * cellSize ==> r == 1
    ensures !(p > (pos + size) * cellSize) && p < pos * cellSize ==> r == -1
    ensures pos * cellSize <= p <= (pos + size) * cellSize ==> r == prev
  {
    if p > (pos + size) * cellSize then 1
    else if p < pos * cellSize then -1
    else prev
  }

  /** The effect of one event on the intent, for a boat at (boatX, boatY)
      drawn with cells of cellW x cellH pixels. */
  function ApplyEvent(i: Intent, e: Event, boatX: int, boatY: int, cellW: int, cellH: int): (r: Intent)
    // quit is sticky and set only by a quit event
    ensures r.done <==> i.done || e == Quit
    // an up or down key sets the row axis only, a left or right key the column axis only
    ensures e == KeyDown(Up) || e == KeyDown(Down) ==>
              r.dx == i.dx && r.dy == (if e.key == Up then -1 else 1)
    ensures e == KeyDown(Left) || e == KeyDown(Right) ==>
              r.dy == i.dy && r.dx == (if e.key == Left then -1 else 1)
    // a click may set either axis to a direction or leave it as it was
    ensures e.MouseButtonDown? ==> (r.dx == i.dx || r.dx == 1 || r.dx == -1) &&
                                   (r.dy == i.dy || r.dy == 1 || r.dy == -1)
    // every other event leaves both axes alone
    ensures e == Quit || e == OtherEvent || e == KeyDown(OtherKey) ==> r.dx == i.dx && r.dy == i.dy
  {
    match e
    case KeyDown(k) =>
      (match k
       case Up => i.(dy := -1)
       case Down => i.(dy := 1)
       case Left => i.(dx := -1)
       case Right => i.(dx := 1)
       case OtherKey => i)
    case MouseButtonDown(px, py) =>
      i.(dx := ClickAxis(px, boatX, BoatW, cellW, i.dx),
         dy := ClickAxis(py, boatY, BoatH, cellH, i.dy))
    case Quit => i.(done := true)
    case OtherEvent => i
  }

  /** The intent after all of events, in order, starting from no intent. */
  function Resolve(events: seq<Event>, boatX: int, boatY: int, cellW: int, cellH: int): (r: Intent)
    ensures -1 <= r.dx <= 1 && -1 <= r.dy <= 1
    ensures r.done <==> Quit in events
  {
    if |events| == 0 then NoIntent
    else
      var prefix := events[..|events| - 1];
      assert events == prefix + [events[|events| - 1]];
      ApplyEvent(Resolve(prefix, boatX, boatY, cellW, cellH), events[|events| - 1], boatX, boatY, cellW, cellH)
  }

  /** A direction key decides its own axis whatever came before it, and
      leaves the other axis as it was. */
  lemma KeyOverwritesOneAxis(events: seq<Event>, k: Key, boatX: int, boatY: int, cellW: int, cellH: int)
    ensures var before, after := Resolve(events, boatX, boatY, cellW, cellH),
                                 Resolve(events + [KeyDown(k)], boatX, boatY, cellW, cellH);
            after.done == before.done &&
            after.dx == (if k == Left then -1 else if k == Right then 1 else before.dx) &&
            after.dy == (if k == Up then -1 else if k == Down then 1 else before.dy)
  {
    assert (events + [KeyDown(k)])[..|events|] == events;
  }

  /** A click sets each axis from its own comparison with the boat's box;
      an axis whose coordinate falls within the box keeps its earlier value. */
  lemma ClickSetsEachAxis(events: seq<Event>, px: int, py: int, boatX: int, boatY: int, cellW: int, cellH: int)
    ensures var before, after := Resolve(events, boatX, boatY, cellW, cellH),
                                 Resolve(events + [MouseButtonDown(px, py)], boatX, boatY, cellW, cellH);
            after.done == before.done &&
            after.dx == ClickAxis(px, boatX, BoatW, cellW, before.dx) &&
            after.dy == ClickAxis(py, boatY, BoatH, cellH, before.dy)
  {
    assert (events + [MouseButtonDown(px, py)])[..|events|] == events;
  }

  /** A frame whose events are neither direction keys, clicks nor quit asks
      for nothing, so the boat is not moved. */
  lemma {:induction false} IgnoredEventsLeaveNoIntent(events: seq<Event>, boatX: int, boatY: int, cellW: int, cellH: int)
    requires forall k :: 0 <= k < |events| ==> events[k] == OtherEvent || events[k] == KeyDown(OtherKey)
    ensures Resolve(events, boatX, boatY, cellW, cellH) == NoIntent
  {
    if |events| > 0 {
      IgnoredEventsLeaveNoIntent(events[..|events| - 1], boatX, boatY, cellW, cellH);
    }
  }
}
