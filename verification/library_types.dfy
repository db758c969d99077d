/** The data of the library-loading core: the records fetched from the
    backend, the composite `Library`, and the two layers of errors.

    Swift's `Error` is an existential protocol: a value of that type may be an
    `APIError` or anything else that conforms. `AnyError` models it as a closed
    sum with an `Api` arm and an opaque `Foreign` arm, so that the presenter's
    `as? APIError` downcast becomes a match on `Api?`.
 */
module LibraryTypes {

  /** Swift's `Result<Success, Failure>`. */
  datatype Result<+T, +E> = Success(value: T) | Failure(error: E)

  /** Swift's `Optional`, the result of an `as?` downcast. */
  datatype Option<+T> = None | Some(value: T)

  /** A value of Swift's `Error` existential type. */
  datatype AnyError =
    | Api(api: APIError)
    | Foreign(description: string)

  /** Transport-level causes produced by the API service. A network error
      keeps the underlying error it was raised for. */
  datatype APIError =
    | NetworkError(error: AnyError)
    | NoConnection
    | InvalidResponse

  /** Orchestration-level errors: which fetch failed, with its cause kept as
      an `Error`. `Unlisted` stands for the further cases that the source's
      `// etc` marker leaves room for; the presenter's `default` branch is
      the only code that sees them. */
  datatype LibraryError =
    | FailedToLoadBooks(reason: AnyError)
    | FailedToLoadNewspapers(reason: AnyError)
    | SomeOtherError
    | Unlisted(name: string)

  /** The composite built from both collections. The Swift `Library`
      stores nothing: its initializer discards both arguments. The model
      keeps the two sequences so that what the loader hands over can be
      stated. The book and newspaper records carry no data of their own in
      the source, so their types are left as parameters `B` and `N`. */
  datatype Library<B, N> = Library(books: seq<B>, newspapers: seq<N>)

  /** The two fetches the loader can make. */
  datatype Call = GetBooks | GetNewspapers

  /** One observable step of a load: a fetch being requested, or the
      completion handler being called with the final result. */
  datatype Event<B, N> =
    | Invoked(call: Call)
    | Completed(result: Result<Library<B, N>, LibraryError>)

  /** The fetches requested in `log`, in order. */
  function CallsOf<B, N>(log: seq<Event<B, N>>): seq<Call>
  {
    if log == [] then []
    else (if log[0].Invoked? then [log[0].call] else []) + CallsOf(log[1..])
  }

  /** The results handed to the completion handler in `log`, in order. */
  function CompletionsOf<B, N>(log: seq<Event<B, N>>): seq<Result<Library<B, N>, LibraryError>>
  {
    if log == [] then []
    else (if log[0].Completed? then [log[0].result] else []) + CompletionsOf(log[1..])
  }

  /** The completion handler was called exactly once, and as the last event:
      nothing is requested after the result has been delivered. */
  predicate DeliveredOnce<B, N>(log: seq<Event<B, N>>)
  {
    && |log| > 0
    && log[|log| - 1].Completed?
    && |CompletionsOf(log)| == 1
  }

  /** The result the completion handler received. */
  function FinalResult<B, N>(log: seq<Event<B, N>>): Result<Library<B, N>, LibraryError>
    requires DeliveredOnce(log)
  {
    log[|log| - 1].result
  }
}
