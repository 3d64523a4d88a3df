/**
 * `CounterExample`: one integer state cell and the four buttons that overwrite it.
 * Each handler is one event; `Step` is the effect of an event on the count, and
 * `Counter` is the component instance whose methods apply it.
 */
module CounterExample {
  /** The buttons: `-1`, `+1`, `+a` and Reset. */
  datatype Event = Increment | Decrement | IncrementBy(amount: int) | Reset

  /** The button on the page that calls `incrementBy(5)`. */
  const PlusFive: Event := IncrementBy(5)

  /** The count after one event. */
  function Step(count: int, e: Event): (next: int)
    ensures e == Increment ==> next == count + 1
    ensures e == Decrement ==> next == count - 1
    ensures e.IncrementBy? ==> next - count == e.amount
    ensures e == Reset ==> next == 0
  {
    match e
    case Increment => count + 1
    case Decrement => count - 1
    case IncrementBy(a) => count + a
    case Reset => 0
  }

  /** The count after a run of events, applied left to right. */
  function Replay(count: int, events: seq<Event>): int
    decreases |events|
  {
    if events == [] then count else Replay(Step(count, events[0]), events[1..])
  }

  /** Replay over a concatenation is replay of the second run from where the first left off. */
  lemma {:induction false} ReplayAppend(count: int, a: seq<Event>, b: seq<Event>)
    ensures Replay(count, a + b) == Replay(Replay(count, a), b)
    decreases |a|
  {
    if a != [] {
      assert (a + b)[0] == a[0];
      assert (a + b)[1..] == a[1..] + b;
      ReplayAppend(Step(count, a[0]), a[1..], b);
    } else {
      assert a + b == b;
    }
  }

  /** `n` presses of `+1` add `n`; `n` presses of `-1` subtract `n`; there is no lower bound. */
  lemma {:induction false} RepeatedSteps(count: int, n: nat)
    ensures Replay(count, seq(n, _ => Increment)) == count + n
    ensures Replay(count, seq(n, _ => Decrement)) == count - n
    decreases n
  {
    if n > 0 {
      var ups := seq(n, _ => Increment);
      var downs := seq(n, _ => Decrement);
      assert ups[1..] == seq(n - 1, _ => Increment);
      assert downs[1..] == seq(n - 1, _ => Decrement);
      RepeatedSteps(count + 1, n - 1);
      RepeatedSteps(count - 1, n - 1);
    }
  }

  /** `+1` then `-1` (in either order) gives back the count; `+5` is five presses of `+1`. */
  lemma StepsCancel(count: int)
    ensures Step(Step(count, Increment), Decrement) == count
    ensures Step(Step(count, Decrement), Increment) == count
    ensures Step(count, PlusFive) == Replay(count, seq(5, _ => Increment))
  {
    RepeatedSteps(count, 5);
  }

  /** Reset lands on 0 from any count, and a count of 0 goes negative on `-1`. */
  lemma ResetAndNoFloor(count: int)
    ensures Step(count, Reset) == 0
    ensures Step(Step(count, Reset), Decrement) < 0
  {
  }

  /** The component: its one state cell and its handlers. */
  class Counter {
    var count: int

    /** `useState(0)`. */
    constructor()
      ensures count == 0
    {
      count := 0;
    }

    method Increment()
      modifies this
      ensures count == Step(old(count), Event.Increment)
    {
      count := count + 1;
    }

    method Decrement()
      modifies this
      ensures count == Step(old(count), Event.Decrement)
    {
      count := count - 1;
    }

    method IncrementBy(amount: int)
      modifies this
      ensures count == Step(old(count), Event.IncrementBy(amount))
    {
      count := count + amount;
    }

    method Reset()
      modifies this
      ensures count == Step(old(count), Event.Reset)
    {
      count := 0;
    }
  }
}
