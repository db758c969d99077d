/** The top-level completion handler: it turns the loader's result into what
    the user sees. A success shows the library; a provenance-tagged failure
    whose reason downcasts to `APIError` shows a message naming the failed
    fetch and the cause; `someOtherError` and any further error case get
    their own messages; a reason that is not an `APIError` shows nothing.
 */
module Presenter {
  import opened LibraryTypes
  import LibraryLoader

  /** The collection a provenance tag refers to. */
  datatype Resource = Books | Newspapers

  /** The word naming a collection inside a message. */
  function Word(resource: Resource): string
  {
    match resource
    case Books => "books"
    case Newspapers => "newspapers"
  }

  /** The `APIError` case alone, without the error a network error carries. */
  datatype Cause = NetworkCause | NoConnectionCause | InvalidResponseCause

  function CauseOf(e: APIError): Cause
  {
    match e
    case NetworkError(_) => NetworkCause
    case NoConnection => NoConnectionCause
    case InvalidResponse => InvalidResponseCause
  }

  /** The fixed text around the collection word in the message for each
      cause. Every message reads "... load <collection> for library", and
      the no-connection message leads with the reason. */
  function Prefix(cause: Cause): string
  {
    if cause == NoConnectionCause then "Cannot connect to the internet: " + "failed to load "
    else "Failed to load "
  }

  function Suffix(cause: Cause): string
  {
    " for library" +
    match cause
    case NetworkCause => " because of network error"
    case NoConnectionCause => ""
    case InvalidResponseCause => "."
  }

  /** The message for a fetch of `resource` that failed with `e`: the text
      for the cause with the word for the failed collection in its one slot.
      Its text alone tells which fetch failed and why. */
  function ApiMessage(resource: Resource, e: APIError): (msg: string)
    ensures Decode(msg) == Some(Reading(resource, CauseOf(e)))
  {
    var msg := Prefix(CauseOf(e)) + Word(resource) + Suffix(CauseOf(e));
    DecodeTemplate(resource, CauseOf(e));
    msg
  }

  /** The source only says these explain `someOtherError` and give a general
      error; their wording here is a stand-in. */
  const SomeOtherErrorMessage: string := "Unable to load the library."
  const GeneralErrorMessage: string := "Something went wrong."

  /** What the user is shown. */
  datatype Presentation<B, N> =
    | ShowLibrary(library: Library<B, N>)
    | ShowMessage(text: string)
    | ShowNothing

  /** The selection made by the top-level `switch` on the load's result. */
  function Present<B, N>(result: Result<Library<B, N>, LibraryError>): (p: Presentation<B, N>)
    ensures p.ShowLibrary? <==> result.Success?
    ensures p.ShowLibrary? ==> p.library == result.value
    // the failed `as? APIError` downcast selects no message
    ensures p.ShowNothing? <==>
              result.Failure?
              && (result.error.FailedToLoadBooks? || result.error.FailedToLoadNewspapers?)
              && result.error.reason.Foreign?
    ensures result.Failure? && result.error.FailedToLoadBooks? && result.error.reason.Api? ==>
              p == ShowMessage(ApiMessage(Books, result.error.reason.api))
    ensures result.Failure? && result.error.FailedToLoadNewspapers? && result.error.reason.Api? ==>
              p == ShowMessage(ApiMessage(Newspapers, result.error.reason.api))
    ensures result == Failure(SomeOtherError) <==> p == ShowMessage(SomeOtherErrorMessage)
    ensures result.Failure? && result.error.Unlisted? <==> p == ShowMessage(GeneralErrorMessage)
  {
    match result
    case Success(library) => ShowLibrary(library)
    case Failure(error) =>
      match error
      case FailedToLoadBooks(reason) =>
        (match reason
         case Api(e) => ShowMessage(ApiMessage(Books, e))
         case Foreign(_) => ShowNothing)
      case FailedToLoadNewspapers(reason) =>
        (match reason
         case Api(e) => ShowMessage(ApiMessage(Newspapers, e))
         case Foreign(_) => ShowNothing)
      case SomeOtherError => ShowMessage(SomeOtherErrorMessage)
      case Unlisted(_) => ShowMessage(GeneralErrorMessage)
  }

  /** What a reader of a cause-specific message learns from its text. */
  datatype Reading = Reading(resource: Resource, cause: Cause)

  /** Splits a collection word off the front of `text`. */
  function ReadWord(text: string): Option<(Resource, string)>
  {
    if Word(Books) <= text then Some((Books, text[|Word(Books)|..]))
    else if Word(Newspapers) <= text then Some((Newspapers, text[|Word(Newspapers)|..]))
    else None
  }

  /** The cause whose suffix is `tail`, among the causes whose message
      leads with the no-connection text (`noConnectionLead`) or not. */
  function ReadCause(tail: string, noConnectionLead: bool): Option<Cause>
  {
    if noConnectionLead then
      if tail == Suffix(NoConnectionCause) then Some(NoConnectionCause) else None
    else if tail == Suffix(NetworkCause) then Some(NetworkCause)
    else if tail == Suffix(InvalidResponseCause) then Some(InvalidResponseCause)
    else None
  }

  /** Reads the collection word and then the cause from the text after
      the lead. */
  function ReadRest(rest: string, noConnectionLead: bool): Option<Reading>
  {
    match ReadWord(rest)
    case None => None
    case Some((resource, tail)) =>
      match ReadCause(tail, noConnectionLead)
      case None => None
      case Some(cause) => Some(Reading(resource, cause))
  }

  /** Reads back, from the text alone, which fetch failed and why. */
  function Decode(msg: string): Option<Reading>
  {
    if Prefix(NoConnectionCause) <= msg then
      ReadRest(msg[|Prefix(NoConnectionCause)|..], true)
    else if Prefix(NetworkCause) <= msg then
      ReadRest(msg[|Prefix(NetworkCause)|..], false)
    else None
  }

  /** A collection word is read back off the front of any text. */
  lemma ReadWordOf(resource: Resource, tail: string)
    ensures ReadWord(Word(resource) + tail) == Some((resource, tail))
  {
    var text := Word(resource) + tail;
    assert text[..|Word(resource)|] == Word(resource);
    assert text[|Word(resource)|..] == tail;
    if resource == Newspapers {
      assert text[0] == 'n';
    }
  }

  /** Only the no-connection message starts with the no-connection text. */
  lemma PrefixesDiffer(cause: Cause, rest: string)
    ensures Prefix(cause) <= Prefix(cause) + rest
    ensures Prefix(NoConnectionCause) <= Prefix(cause) + rest <==> cause == NoConnectionCause
  {
    var msg := Prefix(cause) + rest;
    assert msg[..|Prefix(cause)|] == Prefix(cause);
    if cause != NoConnectionCause {
      assert msg[0] == 'F';
      assert Prefix(NoConnectionCause)[0] == 'C';
    }
  }

  /** The three suffixes are pairwise different. */
  lemma SuffixesDiffer(c: Cause, d: Cause)
    ensures Suffix(c) == Suffix(d) <==> c == d
  {
  }

  /** Each suffix is read back as its own cause, given its lead. */
  lemma ReadCauseOf(cause: Cause)
    ensures ReadCause(Suffix(cause), cause == NoConnectionCause) == Some(cause)
  {
  }

  /** The lead of a message selects how the rest of it is read. */
  lemma DecodeLead(cause: Cause, rest: string)
    ensures Decode(Prefix(cause) + rest) == ReadRest(rest, cause == NoConnectionCause)
  {
    var msg := Prefix(cause) + rest;
    PrefixesDiffer(cause, rest);
    assert msg[|Prefix(cause)|..] == rest;
  }

  /** A collection word followed by a suffix is read back as both. */
  lemma ReadRestOf(resource: Resource, cause: Cause)
    ensures ReadRest(Word(resource) + Suffix(cause), cause == NoConnectionCause)
         == Some(Reading(resource, cause))
  {
    ReadWordOf(resource, Suffix(cause));
    ReadCauseOf(cause);
  }

  /** Decoding undoes the filling of a template. */
  lemma DecodeTemplate(resource: Resource, cause: Cause)
    ensures Decode(Prefix(cause) + Word(resource) + Suffix(cause)) == Some(Reading(resource, cause))
  {
    var rest := Word(resource) + Suffix(cause);
    assert Prefix(cause) + Word(resource) + Suffix(cause) == Prefix(cause) + rest;
    DecodeLead(cause, rest);
    ReadRestOf(resource, cause);
  }

  /** Neither dedicated message reads as a cause-specific one. */
  lemma DedicatedMessagesDecodeToNothing()
    ensures Decode(SomeOtherErrorMessage) == None
    ensures Decode(GeneralErrorMessage) == None
  {
  }

  /** Every message the presenter can show names one failure: different
      provenance or cause gives a different text, and the dedicated messages
      differ from every cause-specific one and from each other. */
  lemma MessagesIdentifyFailure(r1: Resource, e1: APIError, r2: Resource, e2: APIError)
    ensures ApiMessage(r1, e1) == ApiMessage(r2, e2) <==> r1 == r2 && CauseOf(e1) == CauseOf(e2)
    ensures ApiMessage(r1, e1) != SomeOtherErrorMessage
    ensures ApiMessage(r1, e1) != GeneralErrorMessage
    ensures SomeOtherErrorMessage != GeneralErrorMessage
  {
  }

  /** What the user sees after a load: the library exactly when both fetches
      succeed; otherwise a message from whose text alone the failed fetch and
      its cause can be read back. Because the loader always wraps an
      `APIError`, the failed-downcast branch never shows nothing. */
  lemma PresentLoadedResult<B, N>(
    preconditionsHold: bool,
    books: Result<seq<B>, APIError>,
    newspapers: Result<seq<N>, APIError>
  )
    ensures var p := Present(FinalResult(LibraryLoader.LoadLibrary(preconditionsHold, books, newspapers)));
      && !p.ShowNothing?
      && (p.ShowLibrary? <==> preconditionsHold && books.Success? && newspapers.Success?)
      && (p.ShowLibrary? ==> p.library == Library(books.value, newspapers.value))
      && (!preconditionsHold ==> p == ShowMessage(SomeOtherErrorMessage))
      && (preconditionsHold && books.Failure? ==>
            p.ShowMessage? && Decode(p.text) == Some(Reading(Books, CauseOf(books.error))))
      && (preconditionsHold && books.Success? && newspapers.Failure? ==>
            p.ShowMessage? && Decode(p.text) == Some(Reading(Newspapers, CauseOf(newspapers.error))))
  {
  }
}
