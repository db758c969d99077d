# Library loading with layered errors — a Dafny model

This project models the error-composition core of a small Swift case study
(`ErrorHandlingCaseStudy.swift`). A `LibraryLoader` fetches the books and,
only when that succeeds, the newspapers. When both succeed it builds a
`Library`. Otherwise it completes with the first failure, wrapped in a
`LibraryError` that says which fetch failed (`failedToLoadBooks` or
`failedToLoadNewspapers`) and keeps the underlying cause. The top-level
completion handler then picks the message to show. It switches on the
provenance and downcasts the wrapped cause to `APIError`
(`networkError`, `noConnection`, `invalidResponse`).

Files:

- `library_types.dfy` (module `LibraryTypes`) holds the data model:
  - `Result` and `Option` stand for Swift's `Result` and `Optional`.
  - `AnyError` is Swift's existential `Error`. It is either an `Api(APIError)` or an opaque `Foreign` value.
  - `APIError` and `LibraryError` mirror the Swift enums.
  - `Library` holds the two fetched sequences. The Swift struct stores nothing (see "## Left out").
  - The fetched records are the type parameters `B` and `N`.
  - `Event` is one entry of the observable log of a load: a fetch requested, or the completion handler called.
- `library_loader.dfy` (module `LibraryLoader`) holds the load:
  - `LoadLibrary` is the nested completion handlers, written as one pure function. It returns the event log.
  - `Step` and `RunLoader` are the same load written as an explicit state machine (start, fetching books, fetching newspapers, finished) and driven by a loop. `RunLoader` is proved to produce exactly the log of `LoadLibrary`.
- `presenter.dfy` (module `Presenter`) holds message selection:
  - `Present` is the switch over the load's result.
  - `ApiMessage` builds each cause-specific text.
  - `Decode` reads the failed collection and the cause back from a text. It is the inverse used to prove that every message identifies its failure.

The two fetches are oracles. Their outcomes are parameters of the load, and
the log records which of them the loader actually requested. The source's
precondition check is only a comment, which says a failed check completes
with `someOtherError`. It is modelled as a boolean parameter `preconditionsHold`.
When it is false, the load completes with `someOtherError` and requests
nothing. This follows the comment, not code.

Two points follow the source as written:

- A failed precondition check is reported as `someOtherError`, as the comment at ErrorHandlingCaseStudy.swift:27 says.
- The presenter's cause is an untyped `Error` that must be downcast (lines 95 and 109). A cause that is not an `APIError` therefore selects no message (`ShowNothing`).

One case is added: `LibraryError` gets an `Unlisted` arm. It stands for the cases the source's `// etc` marker (line 15) leaves room for. Without it the `default` branch of the switch (line 125) could never be reached.

## Model

| member | source | states |
|---|---|---|
| LibraryLoader.LoadLibrary | ErrorHandlingCaseStudy.swift:26-44 | The completion handler is called exactly once, as the last event. At most two fetches are requested, books before newspapers. Newspapers are requested iff the books fetch succeeded. A library is built iff both fetches succeed, and it holds exactly the fetched sequences. A books failure `e` completes with `failedToLoadBooks(Api(e))`. A newspapers failure `e` after books succeeded completes with `failedToLoadNewspapers(Api(e))`. A failed precondition check completes with `someOtherError` and requests nothing. |
| LibraryLoader.Step | ErrorHandlingCaseStudy.swift:29-42 | Each transition moves strictly closer to the finished state. The completion is emitted exactly when a terminal state is entered, and it carries that state's result. Newspapers are requested only from the fetching-books state, after a books success. |
| LibraryLoader.RunLoader | ErrorHandlingCaseStudy.swift:26-44 | Running the state machine to completion produces the same event log and the same delivered result as the nested handlers. |
| Presenter.Present | ErrorHandlingCaseStudy.swift:86-130 | A success shows the library and nothing else does. A provenance-tagged failure whose cause is an `APIError` shows the message for that collection and cause. One whose cause is not an `APIError` shows nothing, and only such a failure shows nothing. `someOtherError` is exactly what shows its dedicated message. An unlisted case is exactly what shows the general message. |
| Presenter.ApiMessage | ErrorHandlingCaseStudy.swift:94-121 | The text of each cause-specific message can be read back into the collection named by the provenance tag and the `APIError` case. |
| Presenter.DecodeTemplate | ErrorHandlingCaseStudy.swift:96-119 | Reading a filled-in message template gives back the collection word and the cause that filled it. |
| Presenter.DedicatedMessagesDecodeToNothing | ErrorHandlingCaseStudy.swift:122-127 | The `someOtherError` message and the general message do not read as a cause-specific message. |
| Presenter.MessagesIdentifyFailure | ErrorHandlingCaseStudy.swift:94-127 | Two cause-specific messages are equal iff they name the same collection and the same cause. No cause-specific message equals a dedicated one. The two dedicated messages differ. |
| Presenter.PresentLoadedResult | ErrorHandlingCaseStudy.swift:26-130 | After any load, the user sees the library iff both fetches succeeded, and it holds the fetched sequences. Otherwise the user sees a message whose text names the fetch that failed first and its cause. A failed precondition shows the `someOtherError` message. The no-message branch is never reached from the loader. |

## Left out

- LibraryLoader.LoadLibrary: the Swift `Library` initializer (line 8) discards both of its arguments, and the struct has no stored properties. The model's `Library` keeps both sequences, so "holds exactly the fetched sequences" is a statement about the model's value, not about anything the Swift struct retains.
- LibraryLoader.LoadLibrary: each fetch is modelled as one `Result` value, which assumes each fetch calls its completion exactly once. The "completion called exactly once" and "at most two fetches" guarantees rest on that assumption. As written, `getBooks` and `getNewspapers` (lines 62-72) never call their completion, so `loadLibrary`'s completion is never called at all. A fetch that called back twice would make `loadLibrary` complete twice or request the newspapers twice.

- `HTTPClient.get` (lines 76-80) is a network stub with no logic. It is not modelled.
- The bodies of `APIService.getBooks` and `getNewspapers` (lines 62-72) are comments only. The mapping from a transport failure to an `APIError` and the decoding of records are not implemented in the source, so the fetch outcomes are oracle parameters.
- The content of the precondition check (line 27) is unspecified. Only its pass/fail outcome is a parameter.
- Asynchrony, escaping closures and `self` capture are not modelled. The load is sequential evaluation, and the callbacks become an event log.
- Displaying the library and the messages (lines 88-90 and the display itself) is not modelled. Only the choice of what to show is.
- `URL`, `Data` and the endpoint strings are foreign library values. They are not modelled.
- Presenter.ApiMessage: the network-error message does not add detail taken from the wrapped network error. The source only says "maybe get more info". For newspapers, that remark sits inside the quoted text. It is read as a note, not as part of the message.
- Presenter.ApiMessage: the exact texts appear in the body, assembled from the pieces shared by all messages. No contract compares them with whole string literals.
- Presenter.Present: the source does not give the wording of the `someOtherError` and general messages. The texts used here are stand-ins. Only their distinctness from every other message is stated.
