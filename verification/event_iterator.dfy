/** `eventToIterator` of build-in-container.js: a push-to-pull adapter with
    two FIFO queues, the resolvers of pending `next()` calls and the values
    that arrived while nobody was waiting.

    Each `next()` call is identified by a ticket, the number of `next()`
    calls made before it; resolving a promise is recorded as a `Delivery` of
    a value to a ticket. */
module EventIterator {

  datatype Delivery<V> = Delivery(ticket: nat, value: V)

  /** `waiters` holds the tickets of unresolved `next()` calls oldest first
      (the `resolves` array), `results` the buffered values oldest first,
      `issued` counts `next()` calls and `unsubscribes` calls of `unsubscribe`. */
  datatype State<V> = State(waiters: seq<nat>, results: seq<V>, issued: nat, unsubscribes: nat)

  /** A value reaching the subscribed callback, a `next()` call, a `return()` call. */
  datatype Event<V> = Arrive(v: V) | Next | Return

  datatype Stepped<V> = Stepped(state: State<V>, delivered: seq<Delivery<V>>)

  function Init<V>(): State<V>
  {
    State([], [], 0, 0)
  }

  /** The subscribed callback: the oldest pending `next()` gets the value, or
      the value is buffered when nobody waits. */
  function OnValue<V>(s: State<V>, v: V): (r: Stepped<V>)
    ensures r.state.issued == s.issued && r.state.unsubscribes == s.unsubscribes
    ensures |s.waiters| > 0 ==>
      r.delivered == [Delivery(s.waiters[0], v)] && r.state.waiters == s.waiters[1..] && r.state.results == s.results
    ensures |s.waiters| == 0 ==>
      r.delivered == [] && r.state.waiters == [] && r.state.results == s.results + [v]
  {
    if |s.waiters| > 0 then Stepped(s.(waiters := s.waiters[1..]), [Delivery(s.waiters[0], v)])
    else Stepped(s.(results := s.results + [v]), [])
  }

  /** `next()`: resolves at once with the oldest buffered value, or queues a
      new waiter. */
  function OnNext<V>(s: State<V>): (r: Stepped<V>)
    ensures r.state.issued == s.issued + 1 && r.state.unsubscribes == s.unsubscribes
    ensures |s.results| > 0 ==>
      r.delivered == [Delivery(s.issued, s.results[0])] && r.state.results == s.results[1..] && r.state.waiters == s.waiters
    ensures |s.results| == 0 ==>
      r.delivered == [] && r.state.results == [] && r.state.waiters == s.waiters + [s.issued]
  {
    if |s.results| > 0 then
      Stepped(s.(results := s.results[1..], issued := s.issued + 1), [Delivery(s.issued, s.results[0])])
    else
      Stepped(s.(waiters := s.waiters + [s.issued], issued := s.issued + 1), [])
  }

  /** `return()`: calls `unsubscribe` and leaves both queues as they are. */
  function OnReturn<V>(s: State<V>): (r: State<V>)
    ensures r.unsubscribes == s.unsubscribes + 1
    ensures r.waiters == s.waiters && r.results == s.results && r.issued == s.issued
  {
    s.(unsubscribes := s.unsubscribes + 1)
  }

  function Step<V>(s: State<V>, e: Event<V>): Stepped<V>
  {
    match e
    case Arrive(v) => OnValue(s, v)
    case Next => OnNext(s)
    case Return => Stepped(OnReturn(s), [])
  }

  /** The state after a sequence of events from the fresh adapter, with every
      delivery made along the way in the order it was made. */
  function Exec<V>(evs: seq<Event<V>>): Stepped<V>
  {
    if |evs| == 0 then Stepped(Init(), [])
    else
      var prev := Exec(evs[..|evs| - 1]);
      var st := Step(prev.state, evs[|evs| - 1]);
      Stepped(st.state, prev.delivered + st.delivered)
  }

  /** The values that reached the callback, in arrival order. */
  function Arrivals<V>(evs: seq<Event<V>>): seq<V>
  {
    if |evs| == 0 then []
    else Arrivals(evs[..|evs| - 1]) + (if evs[|evs| - 1].Arrive? then [evs[|evs| - 1].v] else [])
  }

  /** The number of `next()` calls. */
  function Pulls<V>(evs: seq<Event<V>>): nat
  {
    if |evs| == 0 then 0
    else Pulls(evs[..|evs| - 1]) + (if evs[|evs| - 1].Next? then 1 else 0)
  }

  /** The adapter's invariant, given the values that arrived and the
      deliveries made so far: the i-th delivery gives the i-th value to the
      i-th `next()` call; the buffer holds exactly the values not yet
      delivered; the waiters are exactly the calls not yet served, oldest
      first; and the two queues are never both non-empty. */
  ghost predicate Inv<V>(s: State<V>, arrived: seq<V>, ds: seq<Delivery<V>>)
  {
    && |ds| <= |arrived| && |ds| <= s.issued
    && (forall i :: 0 <= i < |ds| ==> ds[i] == Delivery(i, arrived[i]))
    && s.results == arrived[|ds|..]
    && |s.waiters| == s.issued - |ds|
    && (forall i :: 0 <= i < |s.waiters| ==> s.waiters[i] == |ds| + i)
    && (|s.waiters| == 0 || |s.results| == 0)
  }

  lemma ValuePreserves<V>(s: State<V>, arrived: seq<V>, ds: seq<Delivery<V>>, v: V)
    requires Inv(s, arrived, ds)
    ensures Inv(OnValue(s, v).state, arrived + [v], ds + OnValue(s, v).delivered)
  {
    var a := arrived + [v];
    if |s.waiters| > 0 {
      assert |arrived| == |ds|;
      var ds' := ds + [Delivery(|ds|, v)];
      assert forall i :: 0 <= i < |ds'| ==> ds'[i] == Delivery(i, a[i]);
      assert a[|ds'|..] == [];
    } else {
      assert a[|ds|..] == arrived[|ds|..] + [v];
    }
  }

  lemma NextPreserves<V>(s: State<V>, arrived: seq<V>, ds: seq<Delivery<V>>)
    requires Inv(s, arrived, ds)
    ensures Inv(OnNext(s).state, arrived, ds + OnNext(s).delivered)
  {
    if |s.results| > 0 {
      assert s.issued == |ds|;
      assert s.results[0] == arrived[|ds|];
      var ds' := ds + [Delivery(s.issued, s.results[0])];
      assert forall i :: 0 <= i < |ds'| ==> ds'[i] == Delivery(i, arrived[i]);
      assert arrived[|ds'|..] == arrived[|ds|..][1..];
    }
  }

  lemma {:induction false} ExecInv<V>(evs: seq<Event<V>>)
    ensures Inv(Exec(evs).state, Arrivals(evs), Exec(evs).delivered)
    ensures Exec(evs).state.issued == Pulls(evs)
  {
    if |evs| > 0 {
      var init := evs[..|evs| - 1];
      ExecInv(init);
      var prev := Exec(init);
      match evs[|evs| - 1]
      case Arrive(v) => ValuePreserves(prev.state, Arrivals(init), prev.delivered, v);
      case Next => NextPreserves(prev.state, Arrivals(init), prev.delivered);
      case Return =>
        assert prev.delivered + [] == prev.delivered;
    }
  }

  /** FIFO delivery over any interleaving of arrivals and `next()` calls: the
      i-th value to arrive resolves the i-th `next()` call, deliveries happen
      in that order, as many happen as there are matched pairs, and the
      waiter queue and the result buffer are never both non-empty. */
  lemma Fifo<V>(evs: seq<Event<V>>)
    ensures var r := Exec(evs);
      && |r.delivered| == (if |Arrivals(evs)| < Pulls(evs) then |Arrivals(evs)| else Pulls(evs))
      && (forall i :: 0 <= i < |r.delivered| ==> r.delivered[i] == Delivery(i, Arrivals(evs)[i]))
      && (|r.state.waiters| == 0 || |r.state.results| == 0)
  {
    ExecInv(evs);
  }
}
