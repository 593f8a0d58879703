/** The delivery protocol of the OkHttp-based client. Each operation checks its arguments
    when it is called, and then, once subscribed, makes one HTTP call and turns the response
    into onNext/onError/onCompleted calls on its subscriber. The HTTP call itself is an input
    here: an `Exchange` says what came back and whether the consumer unsubscribed while the
    call was in flight. */
module Delivery {
  import opened Base
  import opened JavaStrings
  import opened Endpoint
  import opened Rx

  // ---------------------------------------------------------------- responses and requests

  /** A response: status code, reason phrase, and the body as the chunks successive reads
      bring into the source's buffer. */
  datatype Response = Response(code: int, message: string, body: seq<string>)

  datatype CallOutcome = Completed(response: Response) | Failed(error: IoError)

  datatype Exchange = Exchange(outcome: CallOutcome, unsubscribedDuringCall: bool)

  /** Response.isSuccessful: a 2xx status. */
  predicate IsSuccessful(code: int) {
    200 <= code < 300
  }

  /** ResponseBody.string: the whole body as one text. */
  function BodyText(chunks: seq<string>): string {
    if |chunks| == 0 then "" else chunks[0] + BodyText(chunks[1..])
  }

  /** An okio Buffer handed to the subscriber, by the text it holds. */
  datatype Buffer = Buffer(content: string)

  datatype HttpStatus = HttpStatus(code: int, message: string)

  datatype HttpMethod = Get | Post | Delete

  datatype RequestBody =
    | NoBody
    | JsonBody(text: string)         // RequestBody.create(JSON, body)
    | EmptyOctetStream               // an octet-stream body whose writeTo writes nothing
    | TarArchive(path: string)       // the file at the path, copied by the tar body writer

  datatype Request = Request(verb: HttpMethod, url: string, body: RequestBody)

  /** What calling an operation and subscribing to its result leads to: an exception at the
      call, no request at all, or one request. */
  datatype Dispatch = Rejected(error: IllegalArgument) | NotSent | Sent(request: Request)

  function Map<A, B>(f: A -> B, xs: seq<A>): (ys: seq<B>)
    ensures |ys| == |xs|
    ensures forall i :: 0 <= i < |xs| ==> ys[i] == f(xs[i])
  {
    seq(|xs|, i requires 0 <= i < |xs| => f(xs[i]))
  }

  // ---------------------------------------------------------------- event specifications

  /** How many of `available` chunks a loop reads for a consumer that wants `budget` more
      items: all of them, or as many as it wants, whichever is fewer. */
  function Wanted(available: nat, budget: Option<nat>): (n: nat)
    ensures n <= available
    ensures budget.Some? ==> n <= budget.value
    ensures n == available || (budget.Some? && n == budget.value)
  {
    if budget.Some? && budget.value < available then budget.value else available
  }

  function ServiceError<T>(r: Response): Event<T> {
    OnError(ServiceFailure(r.code, r.message))
  }

  /** get with a collection transformer, for a subscriber that was attached when the call
      started: the whole body goes through the transformer and every element is delivered. */
  function CollectionEvents<R>(outcome: CallOutcome, attached: bool, transformer: string -> seq<R>): (es: seq<Event<R>>)
    ensures WellFormed(es)
    ensures outcome.Failed? ==> es == [OnError(TransportFailure(outcome.error))]
    ensures outcome.Completed? && !IsSuccessful(outcome.response.code) ==>
      es == [OnError(ServiceFailure(outcome.response.code, outcome.response.message))]
    ensures outcome.Completed? && IsSuccessful(outcome.response.code) && attached ==>
      es == Items(transformer(BodyText(outcome.response.body))) + [OnCompleted]
    ensures outcome.Completed? && IsSuccessful(outcome.response.code) && !attached ==> es == [OnCompleted]
    ensures ItemCount(es) > 0 ==> outcome.Completed? && IsSuccessful(outcome.response.code) && attached
  {
    match outcome
    case Failed(e) => [OnError(TransportFailure(e))]
    case Completed(r) =>
      if !IsSuccessful(r.code) then [ServiceError(r)]
      else if !attached then [OnCompleted]
      else
        ItemsThenCompleted(transformer(BodyText(r.body)));
        Items(transformer(BodyText(r.body))) + [OnCompleted]
  }

  /** getResponseStream, getResponseBufferStream and postTarStream: one item per chunk read,
      reading stops when the body is exhausted or the consumer has all it wants. */
  function StreamEvents<T>(outcome: CallOutcome, attached: bool, budget: Option<nat>, f: string -> T): (es: seq<Event<T>>)
    ensures WellFormed(es)
    ensures outcome.Failed? ==> es == [OnError(TransportFailure(outcome.error))]
    ensures outcome.Completed? && !IsSuccessful(outcome.response.code) ==>
      es == [OnError(ServiceFailure(outcome.response.code, outcome.response.message))]
    ensures outcome.Completed? && IsSuccessful(outcome.response.code) && attached ==>
      es == Items(Map(f, outcome.response.body[..Wanted(|outcome.response.body|, budget)])) + [OnCompleted]
    ensures outcome.Completed? && IsSuccessful(outcome.response.code) && !attached ==> es == [OnCompleted]
    ensures budget.Some? ==> ItemCount(es) <= budget.value
    ensures ItemCount(es) > 0 ==> outcome.Completed? && IsSuccessful(outcome.response.code) && attached
  {
    match outcome
    case Failed(e) => [OnError(TransportFailure(e))]
    case Completed(r) =>
      if !IsSuccessful(r.code) then [ServiceError(r)]
      else if !attached then [OnCompleted]
      else
        var items := Map(f, r.body[..Wanted(|r.body|, budget)]);
        ItemsThenCompleted(items);
        Items(items) + [OnCompleted]
  }

  /** A successful delivery of values: one item per value, then onCompleted. */
  lemma ItemsThenCompleted<T>(xs: seq<T>)
    ensures WellFormed(Items(xs) + [OnCompleted])
    ensures ItemCount(Items(xs) + [OnCompleted]) == |xs|
  {
    ItemCountAppend(Items(xs), [OnCompleted]);
    ItemCountItems(xs);
  }

  /** The number of body reads the streaming loop makes. */
  function StreamReads(outcome: CallOutcome, attached: bool, budget: Option<nat>): nat {
    if outcome.Completed? && IsSuccessful(outcome.response.code) && attached
    then Wanted(|outcome.response.body|, budget) else 0
  }

  /** get with a response transformer, and post: one value for an attached subscriber on
      2xx, otherwise an error carrying the status, even on 2xx. */
  function SingleEvents<R>(outcome: CallOutcome, attached: bool, transformer: Response -> R): (es: seq<Event<R>>)
    ensures WellFormed(es)
    ensures outcome.Failed? ==> es == [OnError(TransportFailure(outcome.error))]
    ensures outcome.Completed? && !(IsSuccessful(outcome.response.code) && attached) ==>
      es == [OnError(ServiceFailure(outcome.response.code, outcome.response.message))]
    ensures outcome.Completed? && IsSuccessful(outcome.response.code) && attached ==>
      es == [OnNext(transformer(outcome.response)), OnCompleted]
    ensures ItemCount(es) <= 1
    ensures ItemCount(es) == 1 <==> outcome.Completed? && IsSuccessful(outcome.response.code) && attached
  {
    match outcome
    case Failed(e) => [OnError(TransportFailure(e))]
    case Completed(r) =>
      if IsSuccessful(r.code) && attached then
        var es := [OnNext(transformer(r)), OnCompleted];
        assert ItemCount(es[..1]) == 1;
        es
      else [ServiceError(r)]
  }

  /** delete: the subscriber's flag is never consulted. */
  function DeleteEvents(outcome: CallOutcome): (es: seq<Event<HttpStatus>>)
    ensures WellFormed(es)
    ensures outcome.Failed? ==> es == [OnError(TransportFailure(outcome.error))]
    ensures outcome.Completed? && IsSuccessful(outcome.response.code) ==>
      es == [OnNext(HttpStatus(outcome.response.code, outcome.response.message)), OnCompleted]
    ensures outcome.Completed? && !IsSuccessful(outcome.response.code) ==>
      es == [OnError(ServiceFailure(outcome.response.code, outcome.response.message))]
  {
    match outcome
    case Failed(e) => [OnError(TransportFailure(e))]
    case Completed(r) =>
      if IsSuccessful(r.code) then [OnNext(HttpStatus(r.code, r.message)), OnCompleted]
      else [ServiceError(r)]
  }

  // ---------------------------------------------------------------- the checked stream

  /** What postAndReceiveResponse makes of one line: an error signal when the error checker
      accepts it, the line itself otherwise. */
  function Emit(line: string, isError: string -> bool): Event<string> {
    if isError(line) then OnError(StreamResponseFailure(line)) else OnNext(line)
  }

  function CheckedEvents(lines: seq<string>, isError: string -> bool): (es: seq<Event<string>>)
    ensures |es| == |lines|
    ensures forall i :: 0 <= i < |lines| ==> es[i] == Emit(lines[i], isError)
  {
    seq(|lines|, i requires 0 <= i < |lines| => Emit(lines[i], isError))
  }

  /** How many lines the checked loop reads: it stops when the body is exhausted or when the
      consumer has all the items it wants; error signals do not count as items. */
  function CheckedReads(lines: seq<string>, isError: string -> bool, budget: Option<nat>): (n: nat)
    ensures n <= |lines|
    decreases |lines|
  {
    if |lines| == 0 || budget == Some(0) then 0
    else 1 + CheckedReads(lines[1..], isError, NextBudget(budget, isError(lines[0])))
  }

  function NextBudget(budget: Option<nat>, wasError: bool): Option<nat> {
    if wasError || budget.None? || budget.value == 0 then budget else Some(budget.value - 1)
  }

  /** postAndReceiveResponse for a given response. */
  function CheckedStreamEvents(outcome: CallOutcome, attached: bool, budget: Option<nat>,
                               isError: string -> bool): (es: seq<Event<string>>)
    ensures |es| > 0 && !es[|es| - 1].OnNext?
    ensures outcome.Failed? ==> es == [OnError(TransportFailure(outcome.error))]
    ensures outcome.Completed? && !(IsSuccessful(outcome.response.code) && attached) ==>
      es == [OnError(ServiceFailure(outcome.response.code, outcome.response.message))]
    ensures outcome.Completed? && IsSuccessful(outcome.response.code) && attached ==>
      es == CheckedEvents(outcome.response.body[..CheckedReads(outcome.response.body, isError, budget)], isError) + [OnCompleted]
  {
    match outcome
    case Failed(e) => [OnError(TransportFailure(e))]
    case Completed(r) =>
      if IsSuccessful(r.code) && attached then
        CheckedEvents(r.body[..CheckedReads(r.body, isError, budget)], isError) + [OnCompleted]
      else [ServiceError(r)]
  }

  function CheckedStreamReads(outcome: CallOutcome, attached: bool, budget: Option<nat>, isError: string -> bool): nat {
    if outcome.Completed? && IsSuccessful(outcome.response.code) && attached
    then CheckedReads(outcome.response.body, isError, budget) else 0
  }

  function NeverError(line: string): bool {
    false
  }

  function Identity(line: string): string {
    line
  }

  /** With an error checker that never matches, the checked loop reads as far as the plain
      streaming loop. */
  lemma {:induction false} CheckedReadsWithoutErrors(lines: seq<string>, budget: Option<nat>)
    ensures CheckedReads(lines, NeverError, budget) == Wanted(|lines|, budget)
    decreases |lines|
  {
    if |lines| > 0 && budget != Some(0) {
      CheckedReadsWithoutErrors(lines[1..], NextBudget(budget, false));
    }
  }

  /** With an error checker that never matches (what the short overloads pass), the checked
      loop delivers exactly what the plain streaming loop delivers. */
  lemma CheckedWithoutErrorsIsPlainStream(body: seq<string>, budget: Option<nat>)
    ensures CheckedEvents(body[..CheckedReads(body, NeverError, budget)], NeverError)
         == Items(Map(Identity, body[..Wanted(|body|, budget)]))
  {
    CheckedReadsWithoutErrors(body, budget);
  }

  /** Before the first error line, every line read is an item, so each one uses up budget. */
  lemma {:induction false} ReadsReachFirstError(lines: seq<string>, isError: string -> bool, budget: Option<nat>, k: nat)
    requires k < |lines| && isError(lines[k])
    requires forall j :: 0 <= j < k ==> !isError(lines[j])
    requires budget.None? || k < budget.value
    ensures k < CheckedReads(lines, isError, budget)
    decreases k
  {
    if k > 0 {
      ReadsReachFirstError(lines[1..], isError, NextBudget(budget, false), k - 1);
    }
  }

  /** The first line the error checker accepts, if the consumer still wants items when it
      arrives, ends what the consumer observes: the lines before it as items, then the error
      signal carrying that line. */
  lemma FirstErrorLineObserved(body: seq<string>, isError: string -> bool, budget: Option<nat>, k: nat)
    requires k < |body| && isError(body[k])
    requires forall j :: 0 <= j < k ==> !isError(body[j])
    requires budget.None? || k < budget.value
    ensures Observed(CheckedEvents(body[..CheckedReads(body, isError, budget)], isError) + [OnCompleted])
         == Items(body[..k]) + [OnError(StreamResponseFailure(body[k]))]
  {
    var n := CheckedReads(body, isError, budget);
    ReadsReachFirstError(body, isError, budget, k);
    var es := CheckedEvents(body[..n], isError) + [OnCompleted];
    var rest := es[k + 1..];
    assert es == Items(body[..k]) + ([OnError(StreamResponseFailure(body[k]))] + rest);
    ObservedOfItems(body[..k], [OnError(StreamResponseFailure(body[k]))] + rest);
  }

  /** The checked stream's log obeys the Rx grammar exactly when none of the lines read is
      an error line. */
  lemma CheckedWellFormedIff(body: seq<string>, isError: string -> bool, budget: Option<nat>)
    ensures var n := CheckedReads(body, isError, budget);
      WellFormed(CheckedEvents(body[..n], isError) + [OnCompleted]) <==>
      forall i :: 0 <= i < n ==> !isError(body[i])
  {
    var n := CheckedReads(body, isError, budget);
    var es := CheckedEvents(body[..n], isError) + [OnCompleted];
    if WellFormed(es) {
      forall i | 0 <= i < n ensures !isError(body[i]) {
        assert es[i] == Emit(body[..n][i], isError);
      }
    } else {
      var i :| 0 <= i < |es| - 1 && !es[i].OnNext?;
      assert es[i] == Emit(body[..n][i], isError);
    }
  }

  /** The items a checked stream delivers never exceed what the consumer asked for. */
  lemma {:induction false} CheckedRespectsBudget(lines: seq<string>, isError: string -> bool, budget: Option<nat>)
    requires budget.Some?
    ensures ItemCount(CheckedEvents(lines[..CheckedReads(lines, isError, budget)], isError)) <= budget.value
    decreases |lines|
  {
    var n := CheckedReads(lines, isError, budget);
    if n > 0 {
      var next := NextBudget(budget, isError(lines[0]));
      CheckedRespectsBudget(lines[1..], isError, next);
      var head := CheckedEvents(lines[..1], isError);
      var tail := CheckedEvents(lines[1..][..n - 1], isError);
      assert CheckedEvents(lines[..n], isError) == head + tail;
      ItemCountAppend(head, tail);
      assert head == [] + [Emit(lines[0], isError)];
      ItemCountSnoc([], Emit(lines[0], isError));
    }
  }

  /** A 2xx response whose subscriber unsubscribed before the response arrived completes the
      collection and streaming forms quietly, but fails the single-value forms and the
      checked stream with the status. */
  lemma UnsubscribedSuccess<R, T>(r: Response, budget: Option<nat>, collection: string -> seq<R>,
                                  f: string -> T, single: Response -> R, isError: string -> bool)
    requires IsSuccessful(r.code)
    ensures CollectionEvents(Completed(r), false, collection) == [OnCompleted]
    ensures StreamEvents(Completed(r), false, budget, f) == [OnCompleted]
    ensures SingleEvents(Completed(r), false, single) == [OnError(ServiceFailure(r.code, r.message))]
    ensures CheckedStreamEvents(Completed(r), false, budget, isError) == [OnError(ServiceFailure(r.code, r.message))]
  {
  }

  /** A collection get answered with 2xx, for a subscriber still attached: the consumer
      sees every element of the transformed body, in order, then onCompleted. */
  lemma CollectionDelivered<R>(r: Response, transformer: string -> seq<R>)
    requires IsSuccessful(r.code)
    ensures Observed(CollectionEvents(Completed(r), true, transformer))
         == Items(transformer(BodyText(r.body))) + [OnCompleted]
    ensures ItemCount(CollectionEvents(Completed(r), true, transformer)) == |transformer(BodyText(r.body))|
  {
    var items := transformer(BodyText(r.body));
    ObservedWellFormed(CollectionEvents(Completed(r), true, transformer));
    ItemsThenCompleted(items);
  }

  /** A streaming call answered with 2xx, for a subscriber still attached: the consumer sees
      the transformed chunks as they are read, as many as it wants and no more than the body
      holds, then onCompleted; with no limit it sees the whole body. */
  lemma StreamDelivered<T>(r: Response, budget: Option<nat>, f: string -> T)
    requires IsSuccessful(r.code)
    ensures Observed(StreamEvents(Completed(r), true, budget, f))
         == Items(Map(f, r.body[..Wanted(|r.body|, budget)])) + [OnCompleted]
    ensures ItemCount(StreamEvents(Completed(r), true, budget, f)) == Wanted(|r.body|, budget)
    ensures budget.None? ==> Observed(StreamEvents(Completed(r), true, budget, f)) == Items(Map(f, r.body)) + [OnCompleted]
  {
    var items := Map(f, r.body[..Wanted(|r.body|, budget)]);
    ObservedWellFormed(StreamEvents(Completed(r), true, budget, f));
    ItemsThenCompleted(items);
    assert budget.None? ==> r.body[..Wanted(|r.body|, budget)] == r.body;
  }

  /** A single-value call answered with 2xx, for a subscriber still attached: the consumer
      sees the transformed response, then onCompleted. */
  lemma SingleDelivered<R>(r: Response, transformer: Response -> R)
    requires IsSuccessful(r.code)
    ensures Observed(SingleEvents(Completed(r), true, transformer)) == [OnNext(transformer(r)), OnCompleted]
  {
    ObservedWellFormed(SingleEvents(Completed(r), true, transformer));
  }

  // ---------------------------------------------------------------- the body source

  /** A response body's source: the chunks the connection will produce, how many have been
      fetched from the connection into the buffer, and how many have been taken out of it. */
  class BodySource {
    const chunks: seq<string>
    var fetched: nat
    var cursor: nat

    ghost predicate Valid()
      reads this
    {
      cursor <= fetched <= |chunks| && fetched <= cursor + 1
    }

    constructor (chunks: seq<string>)
      ensures this.chunks == chunks && fetched == 0 && cursor == 0 && Valid()
    {
      this.chunks := chunks;
      this.fetched := 0;
      this.cursor := 0;
    }

    /** BufferedSource.exhausted: true when the buffer is empty and the connection has nothing
        more; with an empty buffer it first blocks to fetch the next chunk. */
    method Exhausted() returns (done: bool)
      requires Valid()
      modifies this
      ensures done <==> cursor >= |chunks|
      ensures cursor == old(cursor) && Valid()
      ensures fetched == if cursor < |chunks| then cursor + 1 else cursor
    {
      if cursor < |chunks| {
        fetched := cursor + 1;
      }
      done := cursor >= |chunks|;
    }

    /** Takes the fetched chunk out of the buffer (buffer().readUtf8(), or a consumer that
        drains the buffer it was handed). */
    method Read() returns (chunk: string)
      requires Valid() && cursor < fetched
      modifies this
      ensures chunk == chunks[old(cursor)] && cursor == old(cursor) + 1 && fetched == old(fetched) && Valid()
    {
      chunk := chunks[cursor];
      cursor := cursor + 1;
    }
  }

  // ---------------------------------------------------------------- the loops

  lemma StreamedItemsSnoc<T>(f: string -> T, chunks: seq<string>, c: nat)
    requires c < |chunks|
    ensures Items(Map(f, chunks[..c + 1])) == Items(Map(f, chunks[..c])) + [OnNext(f(chunks[c]))]
  {
    assert Map(f, chunks[..c + 1]) == Map(f, chunks[..c]) + [f(chunks[c])];
  }

  lemma CheckedEventsSnoc(chunks: seq<string>, isError: string -> bool, c: nat)
    requires c < |chunks|
    ensures CheckedEvents(chunks[..c + 1], isError) == CheckedEvents(chunks[..c], isError) + [Emit(chunks[c], isError)]
  {
  }

  /** One more line read by the checked loop, seen from the remaining lines. */
  lemma CheckedReadsStep(chunks: seq<string>, c: nat, isError: string -> bool, remaining: Option<nat>)
    requires c < |chunks| && remaining != Some(0)
    ensures CheckedReads(chunks[c..], isError, remaining)
         == 1 + CheckedReads(chunks[c + 1..], isError, NextBudget(remaining, isError(chunks[c])))
  {
    assert chunks[c..][1..] == chunks[c + 1..];
  }

  /** while (!source.exhausted() && !subscriber.isUnsubscribed()) onNext(f(read)): the
      exhausted() test runs first, so one chunk past the consumer's last is fetched when the
      body has one. */
  method DrainStream<T>(s: Subscriber<T>, source: BodySource, f: string -> T)
    requires s.Valid() && source.Valid() && source.cursor == 0 && !s.unsubscribed
    modifies s, source
    ensures source.cursor == Wanted(|source.chunks|, Budget(s.take, ItemCount(old(s.events))))
    ensures source.fetched == if source.cursor < |source.chunks| then source.cursor + 1 else source.cursor
    ensures s.events == old(s.events) + Items(Map(f, source.chunks[..source.cursor]))
    ensures s.Valid()
  {
    ghost var e0 := s.events;
    ghost var budget := Budget(s.take, ItemCount(e0));
    ghost var n := Wanted(|source.chunks|, budget);
    var done := source.Exhausted();
    while !done && !s.unsubscribed
      invariant StreamLoop(s, source, f, e0, budget)
      invariant source.cursor <= n
      invariant done <==> source.cursor >= |source.chunks|
      invariant source.fetched == if source.cursor < |source.chunks| then source.cursor + 1 else source.cursor
      decreases |source.chunks| - source.cursor
    {
      StreamStep(s, source, f, e0, budget);
      done := source.Exhausted();
    }
  }

  /** The invariant of the streaming loop: one item per chunk read so far, and the consumer
      unsubscribed exactly when it has had its budget. */
  ghost predicate StreamLoop<T>(s: Subscriber<T>, source: BodySource, f: string -> T,
                                e0: seq<Event<T>>, budget: Option<nat>)
    reads s, source
  {
    source.Valid() && s.Valid()
    && budget == Budget(s.take, ItemCount(e0))
    && s.events == e0 + Items(Map(f, source.chunks[..source.cursor]))
    && ItemCount(s.events) == ItemCount(e0) + source.cursor
    && (budget.Some? ==> source.cursor <= budget.value)
    && (s.unsubscribed <==> budget.Some? && source.cursor == budget.value)
  }

  /** One turn of the streaming loop. */
  method StreamStep<T>(s: Subscriber<T>, source: BodySource, f: string -> T,
                       ghost e0: seq<Event<T>>, ghost budget: Option<nat>)
    requires StreamLoop(s, source, f, e0, budget)
    requires source.cursor < source.fetched && !s.unsubscribed
    modifies s, source
    ensures StreamLoop(s, source, f, e0, budget)
    ensures source.cursor == old(source.cursor) + 1
  {
    ghost var before := s.events;
    ghost var c := source.cursor;
    var chunk := source.Read();
    s.OnNext(f(chunk));
    StreamTurn(source.chunks, c, f, e0, before, s.events, s.take, budget);
  }

  /** What one turn of the streaming loop does to the log and to the consumer's count. */
  lemma StreamTurn<T>(chunks: seq<string>, c: nat, f: string -> T, e0: seq<Event<T>>,
                      before: seq<Event<T>>, after: seq<Event<T>>, take: Option<nat>, budget: Option<nat>)
    requires c < |chunks|
    requires before == e0 + Items(Map(f, chunks[..c])) && ItemCount(before) == ItemCount(e0) + c
    requires after == before + [OnNext(f(chunks[c]))]
    requires budget == Budget(take, ItemCount(e0)) && (budget.Some? ==> c < budget.value)
    ensures after == e0 + Items(Map(f, chunks[..c + 1]))
    ensures ItemCount(after) == ItemCount(e0) + c + 1
    ensures (take.Some? && take.value <= ItemCount(after)) <==> budget.Some? && c + 1 == budget.value
  {
    ItemCountSnoc(before, OnNext(f(chunks[c])));
    StreamedItemsSnoc(f, chunks, c);
    assert after == e0 + (Items(Map(f, chunks[..c])) + [OnNext(f(chunks[c]))]);
  }

  /** The postAndReceiveResponse loop: an accepted line becomes an item, a line the error
      checker flags becomes an error signal, and the loop goes on either way. */
  method DrainChecked(s: Subscriber<string>, source: BodySource, isError: string -> bool)
    requires s.Valid() && source.Valid() && source.cursor == 0 && !s.unsubscribed
    modifies s, source
    ensures source.cursor == CheckedReads(source.chunks, isError, Budget(s.take, ItemCount(old(s.events))))
    ensures source.fetched == if source.cursor < |source.chunks| then source.cursor + 1 else source.cursor
    ensures s.events == old(s.events) + CheckedEvents(source.chunks[..source.cursor], isError)
    ensures s.Valid()
  {
    ghost var e0 := s.events;
    ghost var b0 := Budget(s.take, ItemCount(e0));
    ghost var n0 := CheckedReads(source.chunks, isError, b0);
    ghost var remaining := b0;
    assert source.chunks[0..] == source.chunks;
    var done := source.Exhausted();
    while !done && !s.unsubscribed
      invariant CheckedLoop(s, source, isError, e0, remaining)
      invariant source.cursor + CheckedReads(source.chunks[source.cursor..], isError, remaining) == n0
      invariant done <==> source.cursor >= |source.chunks|
      invariant source.fetched == if source.cursor < |source.chunks| then source.cursor + 1 else source.cursor
      decreases |source.chunks| - source.cursor
    {
      remaining := CheckedStep(s, source, isError, e0, remaining);
      done := source.Exhausted();
    }
    assert CheckedReads(source.chunks[source.cursor..], isError, remaining) == 0;
  }

  /** The invariant of the checked loop: the log holds one event per line read so far, and
      `remaining` is the consumer's budget, zero exactly when it has unsubscribed. */
  ghost predicate CheckedLoop(s: Subscriber<string>, source: BodySource, isError: string -> bool,
                              e0: seq<Event<string>>, remaining: Option<nat>)
    reads s, source
  {
    source.Valid() && s.Valid()
    && s.events == e0 + CheckedEvents(source.chunks[..source.cursor], isError)
    && (remaining.None? <==> s.take.None?)
    && (remaining.Some? ==> s.take.value == ItemCount(s.events) + remaining.value)
    && (s.unsubscribed <==> remaining == Some(0))
  }

  /** One turn of the checked loop. */
  method CheckedStep(s: Subscriber<string>, source: BodySource, isError: string -> bool,
                     ghost e0: seq<Event<string>>, ghost remaining: Option<nat>) returns (ghost next: Option<nat>)
    requires CheckedLoop(s, source, isError, e0, remaining)
    requires source.cursor < source.fetched && !s.unsubscribed
    modifies s, source
    ensures CheckedLoop(s, source, isError, e0, next)
    ensures source.cursor == old(source.cursor) + 1
    ensures CheckedReads(source.chunks[old(source.cursor)..], isError, remaining)
         == 1 + CheckedReads(source.chunks[source.cursor..], isError, next)
  {
    ghost var before := s.events;
    ghost var c := source.cursor;
    var line := source.Read();
    EmitChecked(s, line, isError);
    next := NextBudget(remaining, isError(line));
    CheckedTurn(source.chunks, c, isError, e0, before, s.events, s.take, remaining);
  }

  /** What one turn of the checked loop does to the log, the budget and the count of lines
      still to be read. */
  lemma CheckedTurn(chunks: seq<string>, c: nat, isError: string -> bool, e0: seq<Event<string>>,
                    before: seq<Event<string>>, after: seq<Event<string>>, take: Option<nat>, remaining: Option<nat>)
    requires c < |chunks| && remaining != Some(0)
    requires before == e0 + CheckedEvents(chunks[..c], isError)
    requires after == before + [Emit(chunks[c], isError)]
    requires remaining.None? <==> take.None?
    requires remaining.Some? ==> take.value == ItemCount(before) + remaining.value
    ensures after == e0 + CheckedEvents(chunks[..c + 1], isError)
    ensures var next := NextBudget(remaining, isError(chunks[c]));
      && (next.None? <==> take.None?)
      && (next.Some? ==> take.value == ItemCount(after) + next.value)
      && (next == Some(0) <==> !isError(chunks[c]) && take.Some? && take.value <= ItemCount(after))
    ensures CheckedReads(chunks[c..], isError, remaining)
         == 1 + CheckedReads(chunks[c + 1..], isError, NextBudget(remaining, isError(chunks[c])))
  {
    CheckedReadsStep(chunks, c, isError, remaining);
    CheckedEventsSnoc(chunks, isError, c);
    ItemCountSnoc(before, Emit(chunks[c], isError));
    assert after == e0 + (CheckedEvents(chunks[..c], isError) + [Emit(chunks[c], isError)]);
  }

  /** One line of the checked loop: onNext for an accepted line, onError otherwise. */
  method EmitChecked(s: Subscriber<string>, line: string, isError: string -> bool)
    requires s.Valid()
    modifies s
    ensures s.events == old(s.events) + [Emit(line, isError)]
    ensures s.unsubscribed == (old(s.unsubscribed) || (!isError(line) && s.Saturated()))
    ensures s.Valid()
  {
    if !isError(line) {
      s.OnNext(line);
    } else {
      s.OnError(StreamResponseFailure(line));
    }
  }

  /** The branch shared by getResponseStream, getResponseBufferStream and postTarStream. */
  method DeliverStream<T>(s: Subscriber<T>, exchange: Exchange, f: string -> T) returns (readCount: nat)
    requires s.Valid()
    modifies s
    ensures readCount == StreamReads(exchange.outcome, !old(s.unsubscribed) && !exchange.unsubscribedDuringCall,
                                 Budget(s.take, ItemCount(old(s.events))))
    ensures s.events == old(s.events) + StreamEvents(exchange.outcome, !old(s.unsubscribed) && !exchange.unsubscribedDuringCall,
                                                     Budget(s.take, ItemCount(old(s.events))), f)
    ensures s.Valid()
  {
    readCount := 0;
    match exchange.outcome
    case Failed(e) =>
      s.OnError(TransportFailure(e));
    case Completed(r) =>
      if exchange.unsubscribedDuringCall {
        s.Unsubscribe();
      }
      if IsSuccessful(r.code) && !s.unsubscribed {
        var source := new BodySource(r.body);
        DrainStream(s, source, f);
        readCount := source.cursor;
        s.OnCompleted();
      } else if IsSuccessful(r.code) {
        s.OnCompleted();
      } else {
        s.OnError(ServiceFailure(r.code, r.message));
      }
  }

  /** The branch shared by get with a response transformer and post. */
  method DeliverSingle<R>(s: Subscriber<R>, exchange: Exchange, transformer: Response -> R)
    requires s.Valid()
    modifies s
    ensures s.events == old(s.events) + SingleEvents(exchange.outcome, !old(s.unsubscribed) && !exchange.unsubscribedDuringCall, transformer)
    ensures s.Valid()
  {
    match exchange.outcome
    case Failed(e) =>
      s.OnError(TransportFailure(e));
    case Completed(r) =>
      if exchange.unsubscribedDuringCall {
        s.Unsubscribe();
      }
      if IsSuccessful(r.code) && !s.unsubscribed {
        s.OnNext(transformer(r));
        s.OnCompleted();
      } else {
        s.OnError(ServiceFailure(r.code, r.message));
      }
  }

  /** The branch of the collection form of get once the request is sent: every element of
      the transformed body is delivered, with no unsubscription check between elements. */
  method DeliverCollection<R>(s: Subscriber<R>, exchange: Exchange, transformer: string -> seq<R>)
    requires s.Valid() && !s.unsubscribed
    modifies s
    ensures s.events == old(s.events) + CollectionEvents(exchange.outcome, !exchange.unsubscribedDuringCall, transformer)
    ensures s.Valid()
  {
    match exchange.outcome
    case Failed(e) =>
      s.OnError(TransportFailure(e));
    case Completed(r) =>
      if exchange.unsubscribedDuringCall {
        s.Unsubscribe();
      }
      if IsSuccessful(r.code) && !s.unsubscribed {
        EmitAll(s, transformer(BodyText(r.body)));
        s.OnCompleted();
      } else if IsSuccessful(r.code) {
        s.OnCompleted();
      } else {
        s.OnError(ServiceFailure(r.code, r.message));
      }
  }

  /** forEach(subscriber::onNext) over a whole collection. */
  method EmitAll<R>(s: Subscriber<R>, items: seq<R>)
    requires s.Valid()
    modifies s
    ensures s.events == old(s.events) + Items(items)
    ensures s.Valid()
  {
    ghost var e0 := s.events;
    var i := 0;
    while i < |items|
      invariant 0 <= i <= |items|
      invariant s.events == e0 + Items(items[..i])
      invariant s.Valid()
    {
      s.OnNext(items[i]);
      assert Items(items[..i + 1]) == Items(items[..i]) + [OnNext(items[i])];
      i := i + 1;
    }
    assert items[..i] == items;
  }

  /** The branch of delete once the request is sent. */
  method DeliverDelete(s: Subscriber<HttpStatus>, exchange: Exchange)
    requires s.Valid()
    modifies s
    ensures s.events == old(s.events) + DeleteEvents(exchange.outcome)
    ensures s.Valid()
  {
    match exchange.outcome
    case Failed(e) =>
      s.OnError(TransportFailure(e));
    case Completed(r) =>
      if exchange.unsubscribedDuringCall {
        s.Unsubscribe();
      }
      if IsSuccessful(r.code) {
        s.OnNext(HttpStatus(r.code, r.message));
        s.OnCompleted();
      } else {
        s.OnError(ServiceFailure(r.code, r.message));
      }
  }

  /** The branch of postAndReceiveResponse once the request is sent. */
  method DeliverChecked(s: Subscriber<string>, exchange: Exchange, isError: string -> bool) returns (readCount: nat)
    requires s.Valid()
    modifies s
    ensures readCount == CheckedStreamReads(exchange.outcome, !old(s.unsubscribed) && !exchange.unsubscribedDuringCall,
                                            Budget(s.take, ItemCount(old(s.events))), isError)
    ensures s.events == old(s.events) + CheckedStreamEvents(exchange.outcome, !old(s.unsubscribed) && !exchange.unsubscribedDuringCall,
                                                            Budget(s.take, ItemCount(old(s.events))), isError)
    ensures s.Valid()
  {
    readCount := 0;
    match exchange.outcome
    case Failed(e) =>
      s.OnError(TransportFailure(e));
    case Completed(r) =>
      if exchange.unsubscribedDuringCall {
        s.Unsubscribe();
      }
      if IsSuccessful(r.code) && !s.unsubscribed {
        var source := new BodySource(r.body);
        DrainChecked(s, source, isError);
        readCount := source.cursor;
        s.OnCompleted();
      } else {
        s.OnError(ServiceFailure(r.code, r.message));
      }
  }

  // ---------------------------------------------------------------- the client

  const CollectionEndpointMessage: string := "endpoint can't be null or empty."

  /** The URL the collection form of get requests: its own endpoint check runs first, with
      its own message, before the shared resolution (the query builder as the code has it). */
  function CollectionGetUrl(baseApiUrl: Option<string>, endpoint: Option<string>,
                            queryParameters: Option<seq<QueryParameter>>): (r: Result<string, IllegalArgument>)
    ensures endpoint.None? || IsBlank(endpoint.value) ==> r == Failure(IllegalArgument(CollectionEndpointMessage))
    ensures !(endpoint.None? || IsBlank(endpoint.value)) ==> r == FullEndpointUrlAsWritten(baseApiUrl, endpoint, queryParameters)
    ensures r.Failure? <==> baseApiUrl.None? || IsBlank(baseApiUrl.value) || endpoint.None? || IsBlank(endpoint.value)
  {
    if endpoint.None? || |Trim(endpoint.value)| == 0 then Failure(IllegalArgument(CollectionEndpointMessage))
    else FullEndpointUrlAsWritten(baseApiUrl, endpoint, queryParameters)
  }

  class OkHttpBasedRxHttpClient {
    const baseApiUrl: Option<string>

    constructor (baseApiUrl: Option<string>)
      ensures this.baseApiUrl == baseApiUrl
    {
      this.baseApiUrl := baseApiUrl;
    }

    /** get with a collection transformer: nothing happens for a subscriber that is already
        unsubscribed; otherwise every element of the transformed body is delivered, with no
        unsubscription check between elements. */
    method GetCollection<R>(endpoint: Option<string>, queryParameters: Option<seq<QueryParameter>>,
                            transformer: string -> seq<R>, s: Subscriber<R>, exchange: Exchange) returns (d: Dispatch)
      requires s.Valid()
      modifies s
      ensures s.Valid()
      ensures CollectionGetUrl(baseApiUrl, endpoint, queryParameters).Failure? ==>
        d == Rejected(CollectionGetUrl(baseApiUrl, endpoint, queryParameters).error) && s.events == old(s.events)
      ensures CollectionGetUrl(baseApiUrl, endpoint, queryParameters).Success? && old(s.unsubscribed) ==>
        d == NotSent && s.events == old(s.events)
      ensures CollectionGetUrl(baseApiUrl, endpoint, queryParameters).Success? && !old(s.unsubscribed) ==>
        d == Sent(Request(HttpMethod.Get, CollectionGetUrl(baseApiUrl, endpoint, queryParameters).value, NoBody)) &&
        s.events == old(s.events) + CollectionEvents(exchange.outcome, !exchange.unsubscribedDuringCall, transformer)
    {
      var url := CollectionGetUrl(baseApiUrl, endpoint, queryParameters);
      if url.Failure? {
        return Rejected(url.error);
      }
      if s.unsubscribed {
        return NotSent;
      }
      d := Sent(Request(HttpMethod.Get, url.value, NoBody));
      DeliverCollection(s, exchange, transformer);
    }

    /** getResponseStream with a transformer applied to each chunk read. */
    method GetResponseStream<T>(endpoint: Option<string>, queryParameters: Option<seq<QueryParameter>>,
                                transformer: string -> T, s: Subscriber<T>, exchange: Exchange) returns (d: Dispatch, readCount: nat)
      requires s.Valid()
      modifies s
      ensures s.Valid()
      ensures FullEndpointUrlAsWritten(baseApiUrl, endpoint, queryParameters).Failure? ==>
        d == Rejected(FullEndpointUrlAsWritten(baseApiUrl, endpoint, queryParameters).error) && s.events == old(s.events) && readCount == 0
      ensures FullEndpointUrlAsWritten(baseApiUrl, endpoint, queryParameters).Success? ==>
        d == Sent(Request(HttpMethod.Get, FullEndpointUrlAsWritten(baseApiUrl, endpoint, queryParameters).value, NoBody)) &&
        readCount == StreamReads(exchange.outcome, !old(s.unsubscribed) && !exchange.unsubscribedDuringCall,
                             Budget(s.take, ItemCount(old(s.events)))) &&
        s.events == old(s.events) + StreamEvents(exchange.outcome, !old(s.unsubscribed) && !exchange.unsubscribedDuringCall,
                                                 Budget(s.take, ItemCount(old(s.events))), transformer)
    {
      var url := FullEndpointUrlAsWritten(baseApiUrl, endpoint, queryParameters);
      if url.Failure? {
        return Rejected(url.error), 0;
      }
      d := Sent(Request(HttpMethod.Get, url.value, NoBody));
      readCount := DeliverStream(s, exchange, transformer);
    }

    /** getResponseBufferStream: each buffer as it is filled, for a consumer that drains it. */
    method GetResponseBufferStream(endpoint: Option<string>, queryParameters: Option<seq<QueryParameter>>,
                                   s: Subscriber<Buffer>, exchange: Exchange) returns (d: Dispatch, readCount: nat)
      requires s.Valid()
      modifies s
      ensures s.Valid()
      ensures FullEndpointUrlAsWritten(baseApiUrl, endpoint, queryParameters).Failure? ==>
        d == Rejected(FullEndpointUrlAsWritten(baseApiUrl, endpoint, queryParameters).error) && s.events == old(s.events) && readCount == 0
      ensures FullEndpointUrlAsWritten(baseApiUrl, endpoint, queryParameters).Success? ==>
        d == Sent(Request(HttpMethod.Get, FullEndpointUrlAsWritten(baseApiUrl, endpoint, queryParameters).value, NoBody)) &&
        readCount == StreamReads(exchange.outcome, !old(s.unsubscribed) && !exchange.unsubscribedDuringCall,
                             Budget(s.take, ItemCount(old(s.events)))) &&
        s.events == old(s.events) + StreamEvents(exchange.outcome, !old(s.unsubscribed) && !exchange.unsubscribedDuringCall,
                                                 Budget(s.take, ItemCount(old(s.events))), (c: string) => Buffer(c))
    {
      var url := FullEndpointUrlAsWritten(baseApiUrl, endpoint, queryParameters);
      if url.Failure? {
        return Rejected(url.error), 0;
      }
      d := Sent(Request(HttpMethod.Get, url.value, NoBody));
      readCount := DeliverStream(s, exchange, (c: string) => Buffer(c));
    }

    /** get with a transformer of the whole response. */
    method GetWithResponseTransformer<R>(endpoint: Option<string>, queryParameters: Option<seq<QueryParameter>>,
                                         transformer: Response -> R, s: Subscriber<R>, exchange: Exchange) returns (d: Dispatch)
      requires s.Valid()
      modifies s
      ensures s.Valid()
      ensures FullEndpointUrlAsWritten(baseApiUrl, endpoint, queryParameters).Failure? ==>
        d == Rejected(FullEndpointUrlAsWritten(baseApiUrl, endpoint, queryParameters).error) && s.events == old(s.events)
      ensures FullEndpointUrlAsWritten(baseApiUrl, endpoint, queryParameters).Success? ==>
        d == Sent(Request(HttpMethod.Get, FullEndpointUrlAsWritten(baseApiUrl, endpoint, queryParameters).value, NoBody)) &&
        s.events == old(s.events) + SingleEvents(exchange.outcome, !old(s.unsubscribed) && !exchange.unsubscribedDuringCall, transformer)
    {
      var url := FullEndpointUrlAsWritten(baseApiUrl, endpoint, queryParameters);
      if url.Failure? {
        return Rejected(url.error);
      }
      d := Sent(Request(HttpMethod.Get, url.value, NoBody));
      DeliverSingle(s, exchange, transformer);
    }

    /** post with a JSON body and a transformer of the whole response. */
    method Post<R>(endpoint: Option<string>, postBody: string, queryParameters: Option<seq<QueryParameter>>,
                   transformer: Response -> R, s: Subscriber<R>, exchange: Exchange) returns (d: Dispatch)
      requires s.Valid()
      modifies s
      ensures s.Valid()
      ensures FullEndpointUrlAsWritten(baseApiUrl, endpoint, queryParameters).Failure? ==>
        d == Rejected(FullEndpointUrlAsWritten(baseApiUrl, endpoint, queryParameters).error) && s.events == old(s.events)
      ensures FullEndpointUrlAsWritten(baseApiUrl, endpoint, queryParameters).Success? ==>
        d == Sent(Request(HttpMethod.Post, FullEndpointUrlAsWritten(baseApiUrl, endpoint, queryParameters).value, JsonBody(postBody))) &&
        s.events == old(s.events) + SingleEvents(exchange.outcome, !old(s.unsubscribed) && !exchange.unsubscribedDuringCall, transformer)
    {
      var url := FullEndpointUrlAsWritten(baseApiUrl, endpoint, queryParameters);
      if url.Failure? {
        return Rejected(url.error);
      }
      d := Sent(Request(HttpMethod.Post, url.value, JsonBody(postBody)));
      DeliverSingle(s, exchange, transformer);
    }

    /** postAndReceiveResponse: the post body argument is not sent (the request body writes
        nothing), and each line read is checked with the error checker. */
    method PostAndReceiveResponse(endpoint: Option<string>, postBody: string, isError: string -> bool,
                                  queryParameters: Option<seq<QueryParameter>>,
                                  s: Subscriber<string>, exchange: Exchange) returns (d: Dispatch, readCount: nat)
      requires s.Valid()
      modifies s
      ensures s.Valid()
      ensures FullEndpointUrlAsWritten(baseApiUrl, endpoint, queryParameters).Failure? ==>
        d == Rejected(FullEndpointUrlAsWritten(baseApiUrl, endpoint, queryParameters).error) && s.events == old(s.events) && readCount == 0
      ensures FullEndpointUrlAsWritten(baseApiUrl, endpoint, queryParameters).Success? ==>
        d == Sent(Request(HttpMethod.Post, FullEndpointUrlAsWritten(baseApiUrl, endpoint, queryParameters).value, EmptyOctetStream)) &&
        readCount == CheckedStreamReads(exchange.outcome, !old(s.unsubscribed) && !exchange.unsubscribedDuringCall,
                                    Budget(s.take, ItemCount(old(s.events))), isError) &&
        s.events == old(s.events) + CheckedStreamEvents(exchange.outcome, !old(s.unsubscribed) && !exchange.unsubscribedDuringCall,
                                                        Budget(s.take, ItemCount(old(s.events))), isError)
    {
      var url := FullEndpointUrlAsWritten(baseApiUrl, endpoint, queryParameters);
      if url.Failure? {
        return Rejected(url.error), 0;
      }
      d := Sent(Request(HttpMethod.Post, url.value, EmptyOctetStream));
      readCount := DeliverChecked(s, exchange, isError);
    }

    /** postTarStream with a transformer of each buffer: the archive is the request body and
        the endpoint is resolved with no query parameters. */
    method PostTarStream<R>(endpoint: Option<string>, pathToTarArchive: string, transformer: Buffer -> R,
                            s: Subscriber<R>, exchange: Exchange) returns (d: Dispatch, readCount: nat)
      requires s.Valid()
      modifies s
      ensures s.Valid()
      ensures FullEndpointUrlAsWritten(baseApiUrl, endpoint, Some([])).Failure? ==>
        d == Rejected(FullEndpointUrlAsWritten(baseApiUrl, endpoint, Some([])).error) && s.events == old(s.events) && readCount == 0
      ensures FullEndpointUrlAsWritten(baseApiUrl, endpoint, Some([])).Success? ==>
        d == Sent(Request(HttpMethod.Post, FullEndpointUrlAsWritten(baseApiUrl, endpoint, Some([])).value, TarArchive(pathToTarArchive))) &&
        readCount == StreamReads(exchange.outcome, !old(s.unsubscribed) && !exchange.unsubscribedDuringCall,
                             Budget(s.take, ItemCount(old(s.events)))) &&
        s.events == old(s.events) + StreamEvents(exchange.outcome, !old(s.unsubscribed) && !exchange.unsubscribedDuringCall,
                                                 Budget(s.take, ItemCount(old(s.events))), (c: string) => transformer(Buffer(c)))
    {
      var url := FullEndpointUrlAsWritten(baseApiUrl, endpoint, Some([]));
      if url.Failure? {
        return Rejected(url.error), 0;
      }
      d := Sent(Request(HttpMethod.Post, url.value, TarArchive(pathToTarArchive)));
      readCount := DeliverStream(s, exchange, (c: string) => transformer(Buffer(c)));
    }

    /** delete: the status of a 2xx response is delivered whether or not the subscriber is
        still subscribed. */
    method Delete(endpoint: Option<string>, s: Subscriber<HttpStatus>, exchange: Exchange) returns (d: Dispatch)
      requires s.Valid()
      modifies s
      ensures s.Valid()
      ensures FullEndpointUrlAsWritten(baseApiUrl, endpoint, Some([])).Failure? ==>
        d == Rejected(FullEndpointUrlAsWritten(baseApiUrl, endpoint, Some([])).error) && s.events == old(s.events)
      ensures FullEndpointUrlAsWritten(baseApiUrl, endpoint, Some([])).Success? ==>
        d == Sent(Request(HttpMethod.Delete, FullEndpointUrlAsWritten(baseApiUrl, endpoint, Some([])).value, NoBody)) &&
        s.events == old(s.events) + DeleteEvents(exchange.outcome)
    {
      var url := FullEndpointUrlAsWritten(baseApiUrl, endpoint, Some([]));
      if url.Failure? {
        return Rejected(url.error);
      }
      d := Sent(Request(HttpMethod.Delete, url.value, NoBody));
      DeliverDelete(s, exchange);
    }
  }

  // ---------------------------------------------------------------- the short overloads

  const EmptyBody: string := ""

  /** The arguments a short postAndReceiveResponse overload hands to the full one. */
  datatype ForwardedCall = ForwardedCall(endpoint: Option<string>, postBody: string,
                                         queryParameters: Option<seq<QueryParameter>>)

  /** The short overloads as written: the caller's query parameters are not passed on, so the
      full overload sees an empty parameter array. */
  function ShortOverloadAsWritten(endpoint: Option<string>, queryParameters: seq<QueryParameter>): (c: ForwardedCall)
    ensures c.endpoint == endpoint && c.postBody == EmptyBody
    ensures c.queryParameters == Some([])
  {
    ForwardedCall(endpoint, EmptyBody, Some([]))
  }

  /** The short overloads passing the caller's query parameters on. */
  function ShortOverload(endpoint: Option<string>, queryParameters: seq<QueryParameter>): (c: ForwardedCall)
    ensures c.endpoint == endpoint && c.postBody == EmptyBody
    ensures c.queryParameters == Some(queryParameters)
  {
    ForwardedCall(endpoint, EmptyBody, Some(queryParameters))
  }

  /** The URL the full overload resolves for a forwarded call, with the code's builder. */
  function ForwardedUrl(baseApiUrl: Option<string>, call: ForwardedCall): Result<string, IllegalArgument> {
    FullEndpointUrlAsWritten(baseApiUrl, call.endpoint, call.queryParameters)
  }

  /** The short overloads as written, for every base, endpoint and parameter array: the
      request goes to base and path alone, whatever the caller asked for. */
  lemma ShortOverloadDropsEveryQuery(base: string, endpoint: string, queryParameters: seq<QueryParameter>)
    requires !IsBlank(base) && !IsBlank(endpoint)
    ensures ForwardedUrl(Some(base), ShortOverloadAsWritten(Some(endpoint), queryParameters))
         == Success(BaseApiUrl(Some(base)).value + EndpointPath(Some(endpoint)).value)
  {
    ResolvedAsWritten(base, endpoint, Some([]));
    NoQueryAsWritten();
    var path := BaseApiUrl(Some(base)).value + EndpointPath(Some(endpoint)).value;
    assert path + "" == path;
  }

  /** The path of the repository's short-overload test. */
  lemma FormPath()
    ensures !IsBlank("/form") && EndpointPath(Some("/form")) == Success("/form")
  {
    assert "/form"[0] > ' ';
    assert StartsWith("/form", "/") by { assert "/form"[..1] == "/"; }
  }

  /** The query the repository's short-overload test expects, through the code's builder. */
  lemma FormQuery(base: string)
    requires |base| > 0 && base[0] > ' ' && base[|base| - 1] != '/'
    ensures FullEndpointUrlAsWritten(Some(base), Some("/form"), Some([QueryParameter("name", "shekhar")]))
         == Success(base + "/form" + "?name=shekhar")
  {
    FormQueryIntended(base);
    FormValueAgrees();
    FullEndpointUrlAsWrittenAgrees(Some(base), Some("/form"), Some([QueryParameter("name", "shekhar")]));
  }

  lemma FormQueryIntended(base: string)
    requires |base| > 0 && base[0] > ' ' && base[|base| - 1] != '/'
    ensures FullEndpointUrl(Some(base), Some("/form"), Some([QueryParameter("name", "shekhar")]))
         == Success(base + "/form" + "?name=shekhar")
  {
    var one := [QueryParameter("name", "shekhar")];
    LeadingSlashParts(base, "/form", Some(one));
    OneParameter(one[0]);
    assert "?" + "name" + "=" + "shekhar" == "?name=shekhar";
  }

  lemma FormValueAgrees()
    ensures !LastValueEndsWithQuestionMark(Some([QueryParameter("name", "shekhar")]))
  {
    var v := "shekhar";
    assert v[|v| - 1] == 'r';
    assert v[|v| - 1..] != "?" by { assert v[|v| - 1..][0] == 'r'; }
  }

  /** The repository's test of the short overload, for any base without a trailing "/": the
      test expects the query on the request path, the code as written leaves it off. */
  lemma ShortOverloadDropsQuery(base: string)
    requires |base| > 0 && base[0] > ' ' && base[|base| - 1] != '/'
    ensures ForwardedUrl(Some(base), ShortOverloadAsWritten(Some("/form"), [QueryParameter("name", "shekhar")]))
         == Success(base + "/form")
    ensures ForwardedUrl(Some(base), ShortOverload(Some("/form"), [QueryParameter("name", "shekhar")]))
         == Success(base + "/form" + "?name=shekhar")
  {
    var b := ResolvedBase(base);
    FormPath();
    ShortOverloadDropsEveryQuery(base, "/form", [QueryParameter("name", "shekhar")]);
    FormQuery(base);
  }

  /** With the query passed on, a short overload requests what the full overload requests
      for the same parameters; with the corrected query builder as well, the URL carries the
      caller's parameters, and reading its query component gives them back in order. */
  lemma ShortOverloadForwardsQuery(base: string, endpoint: string, queryParameters: seq<QueryParameter>)
    requires !IsBlank(base) && !IsBlank(endpoint) && Unambiguous(queryParameters)
    ensures ForwardedUrl(Some(base), ShortOverload(Some(endpoint), queryParameters))
         == FullEndpointUrlAsWritten(Some(base), Some(endpoint), Some(queryParameters))
    ensures FullEndpointUrl(Some(base), Some(endpoint), ShortOverload(Some(endpoint), queryParameters).queryParameters)
         == Success(BaseApiUrl(Some(base)).value + EndpointPath(Some(endpoint)).value + QueryString(Some(queryParameters)))
    ensures ParseQuery(QueryString(Some(queryParameters))) == queryParameters
  {
    Resolved(base, endpoint, Some(queryParameters));
    QueryRoundTrip(queryParameters);
  }
}
