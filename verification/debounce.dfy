/** The debounced projection (`useDebouncedRef`) as a discrete-event
    machine. Real timers become two events: `Fire`, the pending timer
    running out, and `Dispose`, the owning component unmounting. Only one
    timer can be pending, so it is an optional value. */
module Debounce {
  import opened Wrappers

  /** The watched source's current value, the published debounced value,
      the value the pending timer will publish, and whether the owner has
      been disposed. */
  datatype Debouncer<T> = Debouncer(source: T, debounced: T, pending: Option<T>, disposed: bool)

  datatype Event<T> =
    | Write(value: T)   // the source ref is assigned
    | Fire              // the pending timer runs out
    | Dispose           // the owning component unmounts

  /** What every reachable state satisfies. Before disposal, a pending
      timer carries the source's current value, and with no timer pending
      the debounced value has caught up with the source. After disposal
      nothing is pending. */
  ghost predicate Inv<T>(d: Debouncer<T>) {
    if d.disposed then d.pending == None
    else match d.pending
      case Some(p) => p == d.source
      case None => d.debounced == d.source
  }

  /** `useDebouncedRef(source)`: the debounced value starts as the
      source's current value, with no timer pending. */
  function Create<T>(source: T): (d: Debouncer<T>)
    ensures d.debounced == source && d.pending == None && !d.disposed
    ensures Inv(d)
  {
    Debouncer(source, source, None, false)
  }

  /** One event. A write that changes the source cancels the pending
      timer and schedules one carrying the new value; writing the value
      the source already holds does not notify the watcher, and after
      disposal the watcher is stopped. A firing timer publishes its value.
      Disposal cancels the pending timer. */
  function Step<T(==)>(d: Debouncer<T>, e: Event<T>): (r: Debouncer<T>)
    ensures r.debounced != d.debounced ==> e.Fire? && d.pending == Some(r.debounced)
    ensures e.Write? ==> r.source == e.value
    ensures e.Write? && !d.disposed && e.value != d.source ==> r.pending == Some(e.value)
    ensures e.Fire? ==> r.pending == None
    ensures e.Fire? && d.pending.Some? ==> r.debounced == d.pending.value
    ensures e.Dispose? ==> r.disposed && r.pending == None && r.debounced == d.debounced
    ensures d.disposed && d.pending == None ==> r.disposed && r.pending == None && r.debounced == d.debounced
    ensures Inv(d) ==> Inv(r)
  {
    match e
    case Write(v) =>
      if d.disposed || v == d.source then d.(source := v)
      else d.(source := v, pending := Some(v))
    case Fire =>
      (match d.pending
       case None => d
       case Some(v) => d.(debounced := v, pending := None))
    case Dispose =>
      d.(pending := None, disposed := true)
  }

  /** Replays a sequence of events. */
  function Run<T(==)>(d: Debouncer<T>, events: seq<Event<T>>): Debouncer<T>
    decreases |events|
  {
    if events == [] then d else Run(Step(d, events[0]), events[1..])
  }

  /** A burst of writes with no timer firing in between. */
  function Writes<T>(vs: seq<T>): (es: seq<Event<T>>)
    ensures |es| == |vs|
    ensures forall i | 0 <= i < |vs| :: es[i] == Write(vs[i])
  {
    seq(|vs|, i requires 0 <= i < |vs| => Write(vs[i]))
  }

  /** Replaying `a + b` replays `a`, then `b`. */
  lemma {:induction false} RunAppend<T>(d: Debouncer<T>, a: seq<Event<T>>, b: seq<Event<T>>)
    ensures Run(d, a + b) == Run(Run(d, a), b)
    decreases |a|
  {
    if a == [] {
      assert a + b == b;
    } else {
      assert (a + b)[0] == a[0];
      assert (a + b)[1..] == a[1..] + b;
      RunAppend(Step(d, a[0]), a[1..], b);
    }
  }

  /** Every state reached from creation satisfies the invariant. */
  lemma {:induction false} RunKeepsInv<T>(d: Debouncer<T>, events: seq<Event<T>>)
    requires Inv(d)
    ensures Inv(Run(d, events))
    decreases |events|
  {
    if events != [] {
      RunKeepsInv(Step(d, events[0]), events[1..]);
    }
  }

  /** Writes never publish: whatever is written, the debounced value stays
      what it was until a timer fires. After a non-empty burst the source
      holds the last value written. */
  lemma {:induction false} WritesDoNotPublish<T>(d: Debouncer<T>, vs: seq<T>)
    ensures Run(d, Writes(vs)).debounced == d.debounced
    ensures vs != [] ==> Run(d, Writes(vs)).source == vs[|vs| - 1]
    ensures vs == [] ==> Run(d, Writes(vs)) == d
    decreases |vs|
  {
    if vs != [] {
      var init := vs[..|vs| - 1];
      var last := vs[|vs| - 1];
      assert Writes(vs) == Writes(init) + [Write(last)];
      RunAppend(d, Writes(init), [Write(last)]);
      WritesDoNotPublish(d, init);
      var mid := Run(d, Writes(init));
      assert Run(mid, [Write(last)]) == Step(mid, Write(last));
    }
  }

  /** Last write wins: after a burst of writes on a live debouncer, the
      next timer that fires publishes the last value written, and nothing
      is pending afterwards. */
  lemma LastWriteWins<T>(d: Debouncer<T>, vs: seq<T>)
    requires Inv(d) && !d.disposed
    requires vs != []
    ensures Run(d, Writes(vs) + [Fire]).debounced == vs[|vs| - 1]
    ensures Run(d, Writes(vs) + [Fire]).pending == None
  {
    WritesDoNotPublish(d, vs);
    RunKeepsInv(d, Writes(vs));
    RunAppend(d, Writes(vs), [Fire]);
    var mid := Run(d, Writes(vs));
    assert !mid.disposed by { DisposedOnlyByDispose(d, vs); }
    assert Run(mid, [Fire]) == Step(mid, Fire);
  }

  /** Writes never dispose the debouncer. */
  lemma {:induction false} DisposedOnlyByDispose<T>(d: Debouncer<T>, vs: seq<T>)
    ensures Run(d, Writes(vs)).disposed == d.disposed
    decreases |vs|
  {
    if vs != [] {
      assert Writes(vs)[1..] == Writes(vs[1..]);
      DisposedOnlyByDispose(Step(d, Write(vs[0])), vs[1..]);
    }
  }

  /** A disposed debouncer with nothing pending stays frozen: no event
      changes its debounced value. */
  lemma {:induction false} DisposedStaysFrozen<T>(d: Debouncer<T>, events: seq<Event<T>>)
    requires d.disposed && d.pending == None
    ensures Run(d, events).debounced == d.debounced
    decreases |events|
  {
    if events != [] {
      DisposedStaysFrozen(Step(d, events[0]), events[1..]);
    }
  }

  /** After disposal the debounced value never changes again, whatever
      events follow. */
  lemma DisposeFreezes<T>(d: Debouncer<T>, events: seq<Event<T>>)
    ensures Run(Step(d, Dispose), events).debounced == d.debounced
  {
    DisposedStaysFrozen(Step(d, Dispose), events);
  }
}
