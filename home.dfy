/**
 * The home page (src/pages/Home.jsx): the carousel over approved events and
 * the first four of them.
 */
module Home {
  import opened Entities

  /** How many events the upcoming list shows. */
  const UPCOMING_COUNT: nat := 4

  /** The interval's update: the next slide, wrapping from the last back to the first. */
  function Step(current: int, len: int): (next: int)
    ensures 0 <= current < len ==> 0 <= next < len
    ensures 0 <= current < len - 1 ==> next == current + 1
  {
    if current == len - 1 then 0 else current + 1
  }

  /** `k` ticks of the interval. */
  function Steps(current: int, len: int, k: nat): (r: int)
    ensures 0 <= current < len ==> 0 <= r < len
    decreases k
  {
    if k == 0 then current else Steps(Step(current, len), len, k - 1)
  }

  /** Ticks compose: `a + b` ticks are `a` ticks followed by `b`. */
  lemma {:induction false} StepsAdd(current: int, len: int, a: nat, b: nat)
    ensures Steps(current, len, a + b) == Steps(Steps(current, len, a), len, b)
    decreases a
  {
    if a > 0 {
      StepsAdd(Step(current, len), len, a - 1, b);
    }
  }

  /** Before the last slide, each tick moves one slide on. */
  lemma {:induction false} StepsClimb(current: int, len: int, k: nat)
    requires 0 <= current && current + k < len
    ensures Steps(current, len, k) == current + k
    decreases k
  {
    if k > 0 {
      StepsClimb(current + 1, len, k - 1);
    }
  }

  /** From any slide, `len - current` ticks reach the first slide. */
  lemma StepsToFirst(current: int, len: int)
    requires 0 <= current < len
    ensures Steps(current, len, len - current) == 0
  {
    StepsAdd(current, len, len - 1 - current, 1);
    StepsClimb(current, len, len - 1 - current);
  }

  /** After `len` ticks the carousel is back where it started. */
  lemma FullCycle(current: int, len: int)
    requires 0 <= current < len
    ensures Steps(current, len, len) == current
  {
    StepsAdd(current, len, len - current, current);
    StepsToFirst(current, len);
    StepsClimb(0, len, current);
  }

  /** `approved.slice(0, 4)`. */
  function Upcoming(events: seq<Event>): (r: seq<Event>)
    ensures |r| <= UPCOMING_COUNT
    ensures r <= Approved(events)
    ensures |Approved(events)| >= UPCOMING_COUNT ==> |r| == UPCOMING_COUNT
    ensures |Approved(events)| < UPCOMING_COUNT ==> r == Approved(events)
  {
    var approved := Approved(events);
    if |approved| <= UPCOMING_COUNT then approved else approved[..UPCOMING_COUNT]
  }

  /** The carousel's `current` state over the approved list the page read. */
  class Carousel {
    const slides: seq<Event>
    var current: int

    /** The index is on a slide, and every slide is an approved event. */
    predicate Valid()
      reads this
    {
      (slides != [] ==> 0 <= current < |slides|) && forall e :: e in slides ==> e.approved
    }

    /** `useState(0)`, over the approved events. */
    constructor (events: seq<Event>)
      ensures slides == Approved(events) && current == 0 && Valid()
    {
      slides := Approved(events);
      current := 0;
    }

    /** No timer runs, and no slide is rendered, without approved events. */
    predicate Running()
      reads this
    {
      |slides| != 0
    }

    /** One tick of the interval, which only runs with approved events. */
    method Tick()
      requires Valid() && Running()
      modifies this
      ensures Valid() && current == Step(old(current), |slides|)
    {
      current := if current == |slides| - 1 then 0 else current + 1;
    }

    /** The slide on screen. */
    function Shown(): (e: Event)
      reads this
      requires Valid() && Running()
      ensures e in slides && e.approved
    {
      slides[current]
    }
  }
}
