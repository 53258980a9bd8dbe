/** How much of a run a client gets, and how far the run is driven, when the client takes only so many operations:
    one opens the stream, and one more is needed for every frame. */
module Deliveries {
  import opened Wrappers
  import opened EventLogs

  /** The number of operations the connection still takes; `None` for a client that stays. */
  type Patience = Option<nat>

  /** The steps need more operations than the client takes.  Without content nothing is sent, so nothing is needed. */
  predicate GoneAt(p: Patience, steps: seq<Step>) {
    HasContent(steps) && p.Some? && p.value <= |FramesOf(steps)|
  }

  /** The frames the client takes. */
  function Taken(p: Patience, frames: seq<Frame>): seq<Frame> {
    match p
    case None => frames
    case Some(n) => if n == 0 then [] else if n - 1 < |frames| then frames[..n - 1] else frames
  }

  /** The frames of a run that the client gets. */
  function Sent(p: Patience, steps: seq<Step>): seq<Frame> {
    if HasContent(steps) then Taken(p, FramesOf(steps)) else []
  }

  /** How many steps the run gets to take: up to the first at which the client is found gone. */
  function Reach(p: Patience, steps: seq<Step>): (k: nat)
    ensures k <= |steps|
  {
    if steps == [] then 0
    else
      var front := steps[..|steps| - 1];
      if Reach(p, front) == |front| && !GoneAt(p, front) then |steps| else Reach(p, front)
  }

  lemma {:induction false} FramesGrow(steps: seq<Step>, k: nat)
    requires k <= |steps|
    ensures FramesOf(steps[..k]) <= FramesOf(steps)
    ensures HasContent(steps[..k]) ==> HasContent(steps)
  {
    if k < |steps| {
      FramesGrow(steps[..|steps| - 1], k);
      assert steps[..|steps| - 1][..k] == steps[..k];
    } else {
      assert steps[..k] == steps;
    }
    if HasContent(steps[..k]) {
      var i :| 0 <= i < k && steps[..k][i].Emit? && steps[..k][i].frame.content;
      assert steps[i].Emit? && steps[i].frame.content;
    }
  }

  lemma ReachGoesOn(p: Patience, steps: seq<Step>, k: nat)
    requires k < |steps| && Reach(p, steps[..k]) == k && !GoneAt(p, steps[..k])
    ensures Reach(p, steps[..k + 1]) == k + 1
  {
    assert steps[..k + 1][..k] == steps[..k];
  }

  lemma {:induction false} ReachStops(p: Patience, steps: seq<Step>, k: nat)
    requires k <= |steps| && Reach(p, steps[..k]) == k && GoneAt(p, steps[..k])
    ensures Reach(p, steps) == k && GoneAt(p, steps) && Sent(p, steps) == Sent(p, steps[..k])
  {
    FramesGrow(steps, k);
    if k < |steps| {
      var front := steps[..|steps| - 1];
      assert front[..k] == steps[..k];
      ReachStops(p, front, k);
    } else {
      assert steps[..k] == steps;
    }
  }

  lemma {:induction false} ReachFinds(p: Patience, steps: seq<Step>)
    ensures var k := Reach(p, steps);
      && Reach(p, steps[..k]) == k
      && (k < |steps| ==> GoneAt(p, steps[..k]))
      && (GoneAt(p, steps) <==> GoneAt(p, steps[..k]))
  {
    if steps != [] {
      var front := steps[..|steps| - 1];
      ReachFinds(p, front);
      var k := Reach(p, steps);
      if k < |steps| {
        assert front[..k] == steps[..k];
        ReachStops(p, steps, k);
      } else {
        assert steps[..k] == steps;
      }
    }
  }

  /** The client gets a beginning of the frames of the steps taken, nothing before there is content, and as many
      frames as its patience allows after the opening of the stream; content of the run is among the steps taken. */
  lemma SentIsWhatPatienceAllows(p: Patience, steps: seq<Step>)
    ensures Sent(p, steps) <= FramesOf(steps[..Reach(p, steps)]) <= FramesOf(steps)
    ensures HasContent(steps[..Reach(p, steps)]) <==> HasContent(steps)
    ensures HasContent(steps) && p.Some? && p.value > 0 ==>
      (|Sent(p, steps)| == p.value - 1 || Sent(p, steps) == FramesOf(steps))
  {
    var k := Reach(p, steps);
    ReachFinds(p, steps);
    FramesGrow(steps, k);
    if k < |steps| {
      ReachStops(p, steps, k);
    } else {
      assert steps[..k] == steps;
    }
  }

  /** A run with content is delivered whole, with all its steps taken, exactly when the client is not found gone. */
  lemma WholeRunIsDeliveredIff(p: Patience, steps: seq<Step>)
    requires HasContent(steps)
    ensures (p != Some(0) && Sent(p, steps) == FramesOf(steps)) <==> !GoneAt(p, steps)
    ensures !GoneAt(p, steps) ==> Reach(p, steps) == |steps|
  {
    ReachFinds(p, steps);
  }
}
