/** The part of RxJava's observer protocol the client drives: the three callbacks a
    subscriber receives, the failures the client signals through onError, and a subscriber
    that keeps an unsubscribed flag and a log of the calls made to it. */
module Rx {
  import opened Base

  /** An IOException from the transport, by its description. */
  datatype IoError = IoError(description: string)

  /** What the client passes to onError. */
  datatype Failure =
    | ServiceFailure(code: int, message: string)   // ServiceException for a non-2xx status
    | TransportFailure(cause: IoError)             // ServiceException wrapping an IOException
    | StreamResponseFailure(payload: string)       // StreamResponseException for an in-band error

  datatype Event<T> = OnNext(item: T) | OnError(failure: Failure) | OnCompleted

  /** onNext for each value, in order. */
  function Items<T>(xs: seq<T>): (es: seq<Event<T>>)
    ensures |es| == |xs|
    ensures forall i :: 0 <= i < |xs| ==> es[i] == OnNext(xs[i])
  {
    seq(|xs|, i requires 0 <= i < |xs| => OnNext(xs[i]))
  }

  /** How many onNext calls a log holds. */
  function ItemCount<T>(es: seq<Event<T>>): (n: nat)
    ensures n <= |es|
  {
    if |es| == 0 then 0 else ItemCount(es[..|es| - 1]) + (if es[|es| - 1].OnNext? then 1 else 0)
  }

  lemma ItemCountSnoc<T>(es: seq<Event<T>>, e: Event<T>)
    ensures ItemCount(es + [e]) == ItemCount(es) + (if e.OnNext? then 1 else 0)
  {
    assert (es + [e])[..|es|] == es;
  }

  lemma {:induction false} ItemCountAppend<T>(a: seq<Event<T>>, b: seq<Event<T>>)
    ensures ItemCount(a + b) == ItemCount(a) + ItemCount(b)
    decreases |b|
  {
    if |b| > 0 {
      var init, last := b[..|b| - 1], b[|b| - 1];
      assert b == init + [last];
      assert a + b == (a + init) + [last];
      calc {
        ItemCount(a + b);
        ItemCount((a + init) + [last]);
        { ItemCountSnoc(a + init, last); }
        ItemCount(a + init) + (if last.OnNext? then 1 else 0);
        { ItemCountAppend(a, init); }
        ItemCount(a) + ItemCount(init) + (if last.OnNext? then 1 else 0);
        { ItemCountSnoc(init, last); }
        ItemCount(a) + ItemCount(b);
      }
    } else {
      assert a + b == a;
    }
  }

  lemma {:induction false} ItemCountItems<T>(xs: seq<T>)
    ensures ItemCount(Items(xs)) == |xs|
    decreases |xs|
  {
    if |xs| > 0 {
      var init := xs[..|xs| - 1];
      ItemCountItems(init);
      assert Items(xs) == Items(init) + [OnNext(xs[|xs| - 1])];
      ItemCountSnoc(Items(init), OnNext(xs[|xs| - 1]));
    }
  }

  /** The Rx grammar for one subscription: any number of onNext, then exactly one terminal
      event (onError or onCompleted), then nothing. */
  predicate WellFormed<T>(es: seq<Event<T>>) {
    |es| > 0 && !es[|es| - 1].OnNext? && forall i :: 0 <= i < |es| - 1 ==> es[i].OnNext?
  }

  /** What a consumer that honours the grammar sees of a log: everything up to and
      including the first terminal event. */
  function Observed<T>(es: seq<Event<T>>): (o: seq<Event<T>>)
    ensures |o| <= |es| && o == es[..|o|]
    ensures forall i :: 0 <= i < |o| - 1 ==> o[i].OnNext?
    ensures |o| < |es| ==> |o| > 0 && !o[|o| - 1].OnNext?
  {
    if |es| == 0 then []
    else if es[0].OnNext? then [es[0]] + Observed(es[1..])
    else [es[0]]
  }

  lemma {:induction false} ObservedOfItems<T>(xs: seq<T>, rest: seq<Event<T>>)
    ensures Observed(Items(xs) + rest) == Items(xs) + Observed(rest)
    decreases |xs|
  {
    if |xs| > 0 {
      assert (Items(xs) + rest)[0] == OnNext(xs[0]);
      assert (Items(xs) + rest)[1..] == Items(xs[1..]) + rest;
      ObservedOfItems(xs[1..], rest);
      assert [OnNext(xs[0])] + Items(xs[1..]) == Items(xs);
    } else {
      assert Items(xs) + rest == rest;
    }
  }

  /** A well-formed log is observed in full. */
  lemma {:induction false} ObservedWellFormed<T>(es: seq<Event<T>>)
    requires WellFormed(es)
    ensures Observed(es) == es
    decreases |es|
  {
    if |es| > 1 {
      assert WellFormed(es[1..]);
      ObservedWellFormed(es[1..]);
      assert [es[0]] + es[1..] == es;
    }
  }

  /** A subscriber as the producer sees it: the flag isUnsubscribed() reads and the calls it
      has received. `take` stands for a downstream operator such as first() or take(n): after
      that many items the consumer unsubscribes; None means it never does by itself. */
  class Subscriber<T> {
    var unsubscribed: bool
    var events: seq<Event<T>>
    const take: Option<nat>

    /** The consumer has had all the items it asked for. */
    predicate Saturated()
      reads this
    {
      take.Some? && take.value <= ItemCount(events)
    }

    ghost predicate Valid()
      reads this
    {
      Saturated() ==> unsubscribed
    }

    constructor (take: Option<nat>, unsubscribed: bool)
      ensures this.take == take && events == []
      ensures this.unsubscribed == (unsubscribed || take == Some(0))
      ensures Valid()
    {
      this.take := take;
      this.events := [];
      this.unsubscribed := unsubscribed || take == Some(0);
    }

    /** onNext: the item is logged; a consumer that now has all it wanted unsubscribes. */
    method OnNext(item: T)
      modifies this
      ensures events == old(events) + [Event.OnNext(item)]
      ensures unsubscribed == (old(unsubscribed) || Saturated())
      ensures Valid()
    {
      events := events + [Event.OnNext(item)];
      unsubscribed := unsubscribed || Saturated();
    }

    method OnError(failure: Failure)
      requires Valid()
      modifies this
      ensures events == old(events) + [Event.OnError(failure)]
      ensures unsubscribed == old(unsubscribed)
      ensures Valid()
    {
      ItemCountSnoc(events, Event.OnError(failure));
      events := events + [Event.OnError(failure)];
    }

    method OnCompleted()
      requires Valid()
      modifies this
      ensures events == old(events) + [Event.OnCompleted]
      ensures unsubscribed == old(unsubscribed)
      ensures Valid()
    {
      ItemCountSnoc(events, Event.OnCompleted);
      events := events + [Event.OnCompleted];
    }

    /** The consumer withdraws (from another thread, while the producer is blocked). */
    method Unsubscribe()
      modifies this
      ensures unsubscribed && events == old(events)
      ensures Valid()
    {
      unsubscribed := true;
    }
  }

  /** How many more items the consumer wants after `received` of them; None: no limit. */
  function Budget(take: Option<nat>, received: nat): (b: Option<nat>)
    ensures b.None? <==> take.None?
    ensures b.Some? ==> b.value + received >= take.value
    ensures b.Some? && received <= take.value ==> b.value + received == take.value
  {
    if take.None? then None
    else if take.value <= received then Some(0)
    else Some(take.value - received)
  }
}
