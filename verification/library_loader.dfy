/** `LibraryLoader.loadLibrary`: fetch the books, and only when that succeeds
    fetch the newspapers; build a `Library` when both succeed, otherwise
    complete with the first failure tagged by the fetch it came from.

    The two fetches are oracles: their outcomes are parameters, and the log
    records which of them were actually requested. The escaping completion
    closures become a sequential log of events ending in the one completion.
 */
module LibraryLoader {
  import opened LibraryTypes

  /** The load as written: a nest of two completion handlers. The
      `preconditionsHold` flag follows the comment at the top of
      `loadLibrary`, which the source leaves unimplemented: when the check
      fails the load completes with `someOtherError` and fetches nothing. */
  function LoadLibrary<B, N>(
    preconditionsHold: bool,
    books: Result<seq<B>, APIError>,
    newspapers: Result<seq<N>, APIError>
  ): (log: seq<Event<B, N>>)
    // the completion handler is called exactly once, after every fetch
    ensures DeliveredOnce(log)
    // at most two fetches, books first, newspapers only after books
    ensures CallsOf(log) <= [GetBooks, GetNewspapers]
    ensures CallsOf(log) == [] <==> !preconditionsHold
    ensures GetNewspapers in CallsOf(log) <==> preconditionsHold && books.Success?
    // a library is built exactly when both fetches succeed, from their records
    ensures FinalResult(log).Success? <==> preconditionsHold && books.Success? && newspapers.Success?
    ensures FinalResult(log).Success? ==>
              FinalResult(log).value.books == books.value
              && FinalResult(log).value.newspapers == newspapers.value
    // every failure is reported with its provenance and its unchanged cause
    ensures FinalResult(log) == Failure(SomeOtherError) <==> !preconditionsHold
    ensures preconditionsHold && books.Failure? ==>
              FinalResult(log) == Failure(FailedToLoadBooks(Api(books.error)))
    ensures preconditionsHold && books.Success? && newspapers.Failure? ==>
              FinalResult(log) == Failure(FailedToLoadNewspapers(Api(newspapers.error)))
  {
    if !preconditionsHold then
      [Completed(Failure(SomeOtherError))]
    else
      var afterBooks: seq<Event<B, N>> :=
        match books
        case Success(bs) =>
          [Invoked(GetNewspapers)] +
          (match newspapers
           case Success(ns) => [Completed(Success(Library(bs, ns)))]
           case Failure(e) => [Completed(Failure(FailedToLoadNewspapers(Api(e))))])
        case Failure(e) =>
          [Completed(Failure(FailedToLoadBooks(Api(e))))];
      [Invoked(GetBooks)] + afterBooks
  }

  /** The states the load passes through. */
  datatype Phase<B, N> =
    | Start
    | FetchingBooks
    | FetchingNewspapers(books: seq<B>)
    | Finished(result: Result<Library<B, N>, LibraryError>)

  /** How many steps a phase is from being finished. */
  function Rank<B, N>(phase: Phase<B, N>): nat
  {
    match phase
    case Start => 3
    case FetchingBooks => 2
    case FetchingNewspapers(_) => 1
    case Finished(_) => 0
  }

  /** One transition of the load's state machine, with the event it emits. */
  function Step<B, N>(
    phase: Phase<B, N>,
    preconditionsHold: bool,
    books: Result<seq<B>, APIError>,
    newspapers: Result<seq<N>, APIError>
  ): (next: (Phase<B, N>, Event<B, N>))
    requires !phase.Finished?
    ensures Rank(next.0) < Rank(phase)
    // the completion is emitted exactly on entering a terminal phase
    ensures next.0.Finished? <==> next.1.Completed?
    ensures next.0.Finished? ==> next.1.result == next.0.result
    ensures next.1 == Invoked(GetNewspapers) ==> phase.FetchingBooks? && books.Success?
  {
    match phase
    case Start =>
      if preconditionsHold then (FetchingBooks, Invoked(GetBooks))
      else (Finished(Failure(SomeOtherError)), Completed(Failure(SomeOtherError)))
    case FetchingBooks =>
      (match books
       case Success(bs) => (FetchingNewspapers(bs), Invoked(GetNewspapers))
       case Failure(e) =>
         var r := Failure(FailedToLoadBooks(Api(e)));
         (Finished(r), Completed(r)))
    case FetchingNewspapers(bs) =>
      var r :=
        match newspapers
        case Success(ns) => Success(Library(bs, ns))
        case Failure(e) => Failure(FailedToLoadNewspapers(Api(e)));
      (Finished(r), Completed(r))
  }

  /** Drives the state machine from `Start` until it finishes. It produces
      the same events, and the same result, as the nested handlers. */
  method RunLoader<B, N>(
    preconditionsHold: bool,
    books: Result<seq<B>, APIError>,
    newspapers: Result<seq<N>, APIError>
  ) returns (result: Result<Library<B, N>, LibraryError>, log: seq<Event<B, N>>)
    ensures log == LoadLibrary(preconditionsHold, books, newspapers)
    ensures DeliveredOnce(log) && result == FinalResult(log)
  {
    var phase: Phase<B, N> := Start;
    log := [];
    while !phase.Finished?
      invariant phase.Start? ==> log == []
      invariant phase.FetchingBooks? ==> preconditionsHold && log == [Invoked(GetBooks)]
      invariant phase.FetchingNewspapers? ==>
                  preconditionsHold && books == Success(phase.books)
                  && log == [Invoked(GetBooks), Invoked(GetNewspapers)]
      invariant phase.Finished? ==>
                  log == LoadLibrary(preconditionsHold, books, newspapers)
                  && phase.result == FinalResult(log)
      decreases Rank(phase)
    {
      var next := Step(phase, preconditionsHold, books, newspapers);
      phase := next.0;
      log := log + [next.1];
    }
    result := phase.result;
  }
}
