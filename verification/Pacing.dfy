/**
 How much of a port's write queue the log protocol can hold, with the room check and the
 post as separate steps, interleaved freely with other tasks' posts and the writer's receives.
*/
module Pacing {
  import opened Queues

  const PACED_LIMIT: nat := 2

  /** What a queued item is: log data or an entry, a rotation notice, or anything else. */
  datatype Item = Paced | Notice | Telemetry

  datatype Step =
    | Check            // the card's task looks for room
    | PostPaced        // and, having found it, posts
    | PostNotice       // a rotation notice, posted without looking
    | PostTelemetry    // another task posts
    | Receive          // the port's writer takes the oldest item

  /** The queue, and whether the card's task has found room and not yet posted. */
  datatype Port = Port(queue: seq<Item>, cleared: bool)

  function Next(p: Port, s: Step): Port {
    match s
    case Check => p.(cleared := |p.queue| <= 1)
    case PostPaced => if p.cleared then Port(Queued(p.queue, Paced), false) else p
    case PostNotice => p.(queue := Queued(p.queue, Notice))
    case PostTelemetry => p.(queue := Queued(p.queue, Telemetry))
    case Receive => if p.queue == [] then p else p.(queue := p.queue[1..])
  }

  function Run(p: Port, steps: seq<Step>): Port
    decreases |steps|
  {
    if steps == [] then p else Run(Next(p, steps[0]), steps[1..])
  }

  function Count(q: seq<Item>, i: Item): nat {
    if q == [] then 0 else (if q[0] == i then 1 else 0) + Count(q[1..], i)
  }

  lemma {:induction false} CountSnoc(q: seq<Item>, j: Item, i: Item)
    ensures Count(q + [j], i) == Count(q, i) + if i == j then 1 else 0
  {
    if q == [] {
      assert q + [j] == [j] && [j][1..] == [];
    } else {
      assert (q + [j])[0] == q[0] && (q + [j])[1..] == q[1..] + [j];
      CountSnoc(q[1..], j, i);
    }
  }

  lemma {:induction false} CountBound(q: seq<Item>, i: Item)
    ensures Count(q, i) <= |q|
  {
    if q != [] { CountBound(q[1..], i); }
  }

  lemma {:induction false} CountAll(q: seq<Item>)
    ensures Count(q, Paced) + Count(q, Notice) + Count(q, Telemetry) == |q|
  {
    if q != [] { CountAll(q[1..]); }
  }

  /** Found room means at most one log message is still queued, however long ago it looked. */
  predicate Within(p: Port) {
    |p.queue| <= DEPTH && Count(p.queue, Paced) <= if p.cleared then PACED_LIMIT - 1 else PACED_LIMIT
  }

  lemma StepWithin(p: Port, s: Step)
    requires Within(p)
    ensures Within(Next(p, s))
  {
    CountBound(p.queue, Paced);
    CountSnoc(p.queue, Paced, Paced);
    CountSnoc(p.queue, Notice, Paced);
    CountSnoc(p.queue, Telemetry, Paced);
  }

  /**
   Whatever the interleaving, a port's queue never holds more than two log messages. So
   other traffic is refused only when at least seven items that are not log messages, each
   telemetry or a rotation notice, are already queued.
  */
  lemma {:induction false} AtMostTwoPaced(p: Port, steps: seq<Step>)
    requires Within(p)
    ensures var q := Run(p, steps).queue;
      && |q| <= 9 && Count(q, Paced) <= 2
      && (Queued(q, Telemetry) == q ==> Count(q, Telemetry) + Count(q, Notice) >= 7)
    decreases |steps|
  {
    if steps == [] {
      CountAll(p.queue);
    } else {
      StepWithin(p, steps[0]);
      AtMostTwoPaced(Next(p, steps[0]), steps[1..]);
    }
  }
}
