/**
  The request handlers of backend/main.py. The embedding model, the vector
  index and the generative model are the values they give (`Services`);
  the session id generator is a parameter; the conversation store is the
  object of module Sessions.
*/
module Api {
  import opened Wrappers
  import opened Text
  import opened Synthesizer
  import opened Sessions

  type Vector = seq<real>

  /** A search hit: the stored article's payload fields and the similarity score. */
  datatype Hit = Hit(payload: map<string, string>, score: real)

  /** What the vector index answered to one search call. */
  datatype SearchOutcome =
    | Hits(hits: seq<Hit>)
    | UnexpectedResponse(message: string)  // the index replied with an error status
    | SearchError(message: string)         // any other exception from the call

  /** The external services, as functions of their inputs. */
  datatype Services = Services(
    embed: string -> Result<Vector, string>,
    search: (Vector, nat) -> SearchOutcome,
    generate: string -> GenOutcome)

  /** The step of the answer path that raised, with the exception's text. */
  datatype StepFailure =
    | EmbeddingRaised(message: string)
    | IndexRejected(message: string)
    | IndexRaised(message: string)
    | GenerationRaised(message: string)

  /** What a caller sees on failure: 422 for bad input, 500 with a detail otherwise. */
  datatype ApiError = ValidationError | ServerError(detail: string)

  datatype Answered = Answered(answer: string, sources: seq<Passage>)

  datatype ChatReply = ChatReply(sessionId: string, answer: string, sources: seq<Passage>)

  const SearchLimit: nat := 5
  const MinSearchQueryLength: nat := 3
  const MinChatQueryLength: nat := 1

  function StatusCode(e: ApiError): nat {
    if e.ValidationError? then 422 else 500
  }

  /** The index keeps its promise of at most `limit` hits. */
  ghost predicate HonoursLimit(search: (Vector, nat) -> SearchOutcome) {
    forall v: Vector, limit: nat :: search(v, limit).Hits? ==> |search(v, limit).hits| <= limit
  }

  // ---------------------------------------------------------------------
  // Projection of hits into passages
  // ---------------------------------------------------------------------

  /** `payload.get(key, default)`. */
  function Field(payload: map<string, string>, key: string, placeholder: string): string {
    if key in payload then payload[key] else placeholder
  }

  /** A stored field is copied as it is; a missing one gets its placeholder, so an incomplete article never fails. */
  function Project(hit: Hit): (p: Passage)
    ensures "title" in hit.payload ==> p.title == hit.payload["title"]
    ensures "title" !in hit.payload ==> p.title == "Untitled"
    ensures "url" in hit.payload ==> p.url == hit.payload["url"]
    ensures "url" !in hit.payload ==> p.url == ""
    ensures "text" in hit.payload ==> p.text == hit.payload["text"]
    ensures "text" !in hit.payload ==> p.text == "No content available"
    ensures p.score == hit.score
  {
    Passage(
      Field(hit.payload, "title", "Untitled"),
      Field(hit.payload, "url", ""),
      Field(hit.payload, "text", "No content available"),
      hit.score)
  }

  /** One passage per hit, in hit order. */
  function ProjectAll(hits: seq<Hit>): (ps: seq<Passage>)
    ensures |ps| == |hits|
    ensures forall k :: 0 <= k < |hits| ==> ps[k] == Project(hits[k])
  {
    if hits == [] then [] else [Project(hits[0])] + ProjectAll(hits[1..])
  }

  // ---------------------------------------------------------------------
  // The answer path shared by /search and /chat
  // ---------------------------------------------------------------------

  /** Embedding and search both succeeded for the query. */
  predicate Retrieves(svc: Services, query: string) {
    svc.embed(query).Success? && svc.search(svc.embed(query).value, SearchLimit).Hits?
  }

  /** The passages the index returned for the query. */
  function Retrieved(svc: Services, query: string): seq<Passage>
    requires Retrieves(svc, query)
  {
    ProjectAll(svc.search(svc.embed(query).value, SearchLimit).hits)
  }

  /** What the generation step produced for the retrieved passages. */
  function Generation(svc: Services, query: string): GenOutcome
    requires Retrieves(svc, query)
  {
    svc.generate(Prompt(query, Retrieved(svc, query)))
  }

  /** Embed the query, fetch the top five hits, project them, and synthesize the answer. */
  function AnswerQuery(svc: Services, query: string): (r: Result<Answered, StepFailure>)
    ensures r.Success? <==> Retrieves(svc, query) && !Generation(svc, query).ImportRaised?
    ensures r.Success? ==>
      && r.value.sources == Retrieved(svc, query)
      && GenerateResponse(query, r.value.sources, Generation(svc, query)) == Success(r.value.answer)
    ensures r.Success? ==> |r.value.sources| == |svc.search(svc.embed(query).value, SearchLimit).hits|
    ensures r.Success? && HonoursLimit(svc.search) ==> |r.value.sources| <= SearchLimit
    ensures svc.embed(query).Failure? ==> r == Failure(EmbeddingRaised(svc.embed(query).error))
    ensures svc.embed(query).Success? && !svc.search(svc.embed(query).value, SearchLimit).Hits? ==>
      var outcome := svc.search(svc.embed(query).value, SearchLimit);
      r == Failure(if outcome.UnexpectedResponse? then IndexRejected(outcome.message) else IndexRaised(outcome.message))
    ensures Retrieves(svc, query) && Generation(svc, query).ImportRaised? ==>
      r == Failure(GenerationRaised(Generation(svc, query).message))
  {
    match svc.embed(query)
    case Failure(msg) => Failure(EmbeddingRaised(msg))
    case Success(vector) =>
      match svc.search(vector, SearchLimit)
      case UnexpectedResponse(msg) => Failure(IndexRejected(msg))
      case SearchError(msg) => Failure(IndexRaised(msg))
      case Hits(hits) =>
        var sources := ProjectAll(hits);
        match GenerateResponse(query, sources, svc.generate(Prompt(query, sources)))
        case Success(answer) => Success(Answered(answer, sources))
        case Failure(msg) => Failure(GenerationRaised(msg))
  }

  /**
    A failing generation step that the synthesizer catches never fails the
    request: the answer is the fallback, with its disclaimer, over the same sources.
  */
  lemma GenerationFailureDegrades(svc: Services, query: string)
    requires Retrieves(svc, query) && FallsBack(Generation(svc, query))
    ensures AnswerQuery(svc, query).Success?
    ensures Contains(AnswerQuery(svc, query).value.answer, Disclaimer)
    ensures Contains(AnswerQuery(svc, query).value.answer, query)
  {
    DegradedAnswerFrame(query, Retrieved(svc, query), Generation(svc, query));
  }

  /** `GET /search`. */
  function SearchArticles(svc: Services, query: string): (r: Result<Answered, ApiError>)
    ensures r == Failure(ValidationError) <==> |query| < MinSearchQueryLength
    ensures r.Success? <==> |query| >= MinSearchQueryLength && AnswerQuery(svc, query).Success?
    ensures r.Success? ==> r.value == AnswerQuery(svc, query).value
    ensures |query| >= MinSearchQueryLength && AnswerQuery(svc, query).Failure? ==>
      var failure := AnswerQuery(svc, query).error;
      r == Failure(ServerError((if failure.IndexRejected? then "Qdrant search failed: " else "Search failed: ") + failure.message))
    ensures r.Failure? ==> StatusCode(r.error) == if |query| < MinSearchQueryLength then 422 else 500
  {
    if |query| < MinSearchQueryLength then Failure(ValidationError)
    else
      match AnswerQuery(svc, query)
      case Success(answered) => Success(answered)
      case Failure(IndexRejected(msg)) => Failure(ServerError("Qdrant search failed: " + msg))
      case Failure(failure) => Failure(ServerError("Search failed: " + failure.message))
  }

  // ---------------------------------------------------------------------
  // /chat and the history endpoints
  // ---------------------------------------------------------------------

  /** `if not session_id: session_id = str(uuid.uuid4())`. */
  function ChosenSessionId(supplied: Option<string>, generatedId: string): (id: string)
    ensures supplied.Some? && supplied.value != [] ==> id == supplied.value
    ensures supplied.None? || supplied.value == [] ==> id == generatedId
  {
    if supplied.Some? && supplied.value != [] then supplied.value else generatedId
  }

  /** The reply `/chat` gives, which no failure of the history writes can change. */
  function ChatReplyOf(svc: Services, query: string, supplied: Option<string>, generatedId: string): (r: Result<ChatReply, ApiError>)
    ensures r == Failure(ValidationError) <==> |query| < MinChatQueryLength
    ensures r.Success? <==> |query| >= MinChatQueryLength && AnswerQuery(svc, query).Success?
    ensures r.Success? ==>
      && r.value.sessionId == ChosenSessionId(supplied, generatedId)
      && r.value.answer == AnswerQuery(svc, query).value.answer
      && r.value.sources == AnswerQuery(svc, query).value.sources
    ensures |query| >= MinChatQueryLength && AnswerQuery(svc, query).Failure? ==>
      r == Failure(ServerError("Chat processing failed: " + AnswerQuery(svc, query).error.message))
  {
    if |query| < MinChatQueryLength then Failure(ValidationError)
    else
      match AnswerQuery(svc, query)
      case Success(answered) =>
        Success(ChatReply(ChosenSessionId(supplied, generatedId), answered.answer, answered.sources))
      case Failure(failure) => Failure(ServerError("Chat processing failed: " + failure.message))
  }

  /** For a query both endpoints accept, they succeed together and give the same answer and sources. */
  lemma ChatAgreesWithSearch(svc: Services, query: string, supplied: Option<string>, generatedId: string)
    requires |query| >= MinSearchQueryLength
    ensures var s := SearchArticles(svc, query);
      var c := ChatReplyOf(svc, query, supplied, generatedId);
      && (s.Success? <==> c.Success?)
      && (s.Success? ==> s.value.answer == c.value.answer && s.value.sources == c.value.sources)
  {
  }

  /**
    An import failure that the synthesizer lets through fails both endpoints
    with a 500 naming it; `/chat` then writes no history.
  */
  lemma ImportFailureFailsRequest(svc: Services, query: string, supplied: Option<string>, generatedId: string)
    requires Retrieves(svc, query) && Generation(svc, query).ImportRaised?
    ensures |query| >= MinSearchQueryLength ==>
      SearchArticles(svc, query) == Failure(ServerError("Search failed: " + Generation(svc, query).message))
    ensures |query| >= MinChatQueryLength ==>
      ChatReplyOf(svc, query, supplied, generatedId)
        == Failure(ServerError("Chat processing failed: " + Generation(svc, query).message))
  {
  }

  /** The turns an exchange writes: the user's query, then the answer. */
  function Exchange(query: string, answer: string): seq<Turn> {
    [Turn(User, query), Turn(Bot, answer)]
  }

  /** The store after the first `writes` of the two pushes of an exchange. */
  function Stored(entries: Store, now: int, id: string, query: string, answer: string, writes: nat): Store {
    if writes == 0 then entries
    else
      var asked := Append(entries, now, id, Turn(User, query));
      if writes == 1 then asked else Append(asked, now, id, Turn(Bot, answer))
  }

  /**
    The two history writes of `/chat`, of which the store accepts the first
    `writesBeforeFault` before one raises; the fault is swallowed, so the
    writes that went through stay and the rest are skipped.
  */
  method RecordExchange(store: ConversationStore, id: string, query: string, answer: string, writesBeforeFault: nat)
    requires store.Valid()
    modifies store
    ensures store.Valid() && store.now == old(store.now)
    ensures Stored(old(store.entries), store.now, id, query, answer, writesBeforeFault) == store.entries
    ensures var written := if writesBeforeFault < 2 then writesBeforeFault else 2;
      store.History(id) == old(store.History(id)) + Exchange(query, answer)[..written]
    ensures writesBeforeFault > 0 ==> store.entries[id].expiresAt == store.now + TtlSeconds
    ensures forall other :: other != id ==> store.History(other) == old(store.History(other))
  {
    if writesBeforeFault >= 1 {
      store.AddMessage(id, User, query);
      if writesBeforeFault >= 2 {
        store.AddMessage(id, Bot, answer);
        assert Exchange(query, answer)[..2] == [Turn(User, query)] + [Turn(Bot, answer)];
      }
    }
  }

  /**
    `POST /chat`. `writesBeforeFault` is how many of the two history writes
    the store accepts before one raises.
  */
  method Chat(store: ConversationStore, svc: Services, query: string, supplied: Option<string>, generatedId: string,
              writesBeforeFault: nat)
    returns (r: Result<ChatReply, ApiError>)
    requires store.Valid()
    modifies store
    ensures store.Valid() && store.now == old(store.now)
    ensures r == ChatReplyOf(svc, query, supplied, generatedId)
    ensures r.Failure? ==> store.entries == old(store.entries)
    ensures r.Success? ==>
      var id := r.value.sessionId;
      var written := if writesBeforeFault < 2 then writesBeforeFault else 2;
      && store.entries == Stored(old(store.entries), store.now, id, query, r.value.answer, writesBeforeFault)
      && store.History(id) == old(store.History(id)) + Exchange(query, r.value.answer)[..written]
      && (writesBeforeFault > 0 ==> store.entries[id].expiresAt == store.now + TtlSeconds)
      && forall other :: other != id ==> store.History(other) == old(store.History(other))
  {
    if |query| < MinChatQueryLength {
      return Failure(ValidationError);
    }
    var sessionId := if supplied.Some? && supplied.value != [] then supplied.value else generatedId;
    var answered := AnswerQuery(svc, query);
    if answered.Failure? {
      return Failure(ServerError("Chat processing failed: " + answered.error.message));
    }
    var answer := answered.value.answer;
    RecordExchange(store, sessionId, query, answer, writesBeforeFault);
    r := Success(ChatReply(sessionId, answer, answered.value.sources));
  }

  /** `GET /history/{session_id}`; `fault` is the store's exception, if it raises. */
  method GetSessionHistory(store: ConversationStore, id: string, fault: Option<string>)
    returns (r: Result<seq<Turn>, ApiError>)
    requires store.Valid()
    ensures fault.None? ==> r == Success(store.History(id))
    ensures fault.None? ==> (r.value != [] <==> store.State(id) == Active)
    ensures fault.Some? ==> r == Failure(ServerError("Failed to get history: " + fault.value))
  {
    if fault.Some? {
      return Failure(ServerError("Failed to get history: " + fault.value));
    }
    var turns := store.GetHistory(id);
    r := Success(turns);
  }

  /** `DELETE /session/{session_id}`; `fault` is the store's exception, if it raises. */
  method DeleteSession(store: ConversationStore, id: string, fault: Option<string>)
    returns (r: Result<string, ApiError>)
    requires store.Valid()
    modifies store
    ensures store.Valid() && store.now == old(store.now)
    ensures fault.None? ==>
      r == Success("Session " + id + " cleared.") && store.entries == Delete(old(store.entries), id) && store.History(id) == []
    ensures fault.Some? ==>
      r == Failure(ServerError("Failed to delete session: " + fault.value)) && store.entries == old(store.entries)
  {
    if fault.Some? {
      return Failure(ServerError("Failed to delete session: " + fault.value));
    }
    store.ClearSession(id);
    r := Success("Session " + id + " cleared.");
  }
}
