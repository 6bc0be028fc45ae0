/**
 The search wiring of src/App.tsx: the request URL built from the search
 term, the persisted term hook instantiated with the app's key and default,
 and the two form handlers (typing and submitting).
 */
module Search {
  import opened Options
  import opened SemiPersistentState

  const ApiEndpoint: string := "https://hn.algolia.com/api/v1/search?query="
  const SearchKey: string := "search"
  const DefaultTerm: string := "React"

  /** The request URL: the base followed by the raw term, with no URL encoding. */
  function Endpoint(term: string): (url: string)
    ensures |url| == |ApiEndpoint| + |term|
    ensures url[..|ApiEndpoint|] == ApiEndpoint
    ensures url[|ApiEndpoint|..] == term
  {
    ApiEndpoint + term
  }

  /** The term a URL was built from, if it starts with the base. */
  function TermOf(url: string): (t: Option<string>)
    ensures t.Some? <==> |url| >= |ApiEndpoint| && url[..|ApiEndpoint|] == ApiEndpoint
    ensures t.Some? ==> Endpoint(t.value) == url
  {
    if |url| >= |ApiEndpoint| && url[..|ApiEndpoint|] == ApiEndpoint
    then Some(url[|ApiEndpoint|..])
    else None
  }

  /** The term is recovered from its URL exactly. */
  lemma TermOfEndpoint(term: string)
    ensures TermOf(Endpoint(term)) == Some(term)
  {
  }

  /** Two terms give the same URL exactly when they are the same term. */
  lemma EndpointInjective(a: string, b: string)
    ensures Endpoint(a) == Endpoint(b) <==> a == b
  {
    if Endpoint(a) == Endpoint(b) {
      TermOfEndpoint(a);
      TermOfEndpoint(b);
    }
  }

  /** The search term hook and the URL state. */
  datatype SearchState = SearchState(term: Hook, url: string)

  /** Mount: the term is loaded under the app's key with the app's default,
      and the URL is built from it. */
  function MountSearch(store: Store): (s: SearchState)
    ensures s.term.isMounted && s.term.key == SearchKey
    ensures s.term.store == store
    ensures SearchKey in store && store[SearchKey] != "" ==> s.term.value == store[SearchKey]
    ensures SearchKey !in store || store[SearchKey] == "" ==> s.term.value == DefaultTerm
    ensures TermOf(s.url) == Some(s.term.value)
  {
    var term := Mount(SearchKey, DefaultTerm, store);
    TermOfEndpoint(term.value);
    SearchState(term, Endpoint(term.value))
  }

  datatype UiEvent = Input(text: string) | Submit

  /** `handleSearchInput` and `handleSearchSubmit`: typing changes and
      persists the term only; submitting rebuilds the URL from the term. */
  function Handle(s: SearchState, e: UiEvent): (r: SearchState)
    ensures e.Input? ==> r.url == s.url && r.term.value == e.text
    ensures e.Submit? ==> r.term == s.term && TermOf(r.url) == Some(s.term.value)
    ensures r.term.key == s.term.key
  {
    match e
    case Input(text) => s.(term := SetValue(s.term, text))
    case Submit =>
      TermOfEndpoint(s.term.value);
      s.(url := Endpoint(s.term.value))
  }

  /** The state after handling `events` in order. */
  function Session(s: SearchState, events: seq<UiEvent>): SearchState
    decreases |events|
  {
    if |events| == 0 then s else Session(Handle(s, events[0]), events[1..])
  }

  /** The term submitted last in `events`, tracking typed text from `typed`;
      `submitted` when nothing is submitted. */
  function LastSubmitted(events: seq<UiEvent>, typed: string, submitted: string): string
    decreases |events|
  {
    if |events| == 0 then submitted
    else match events[0]
      case Input(text) => LastSubmitted(events[1..], text, submitted)
      case Submit => LastSubmitted(events[1..], typed, typed)
  }

  /** The URL always belongs to the last submitted term: typing alone never
      changes which URL is fetched. */
  lemma {:induction false} UrlFollowsLastSubmit(s: SearchState, submitted: string, events: seq<UiEvent>)
    requires s.url == Endpoint(submitted)
    ensures Session(s, events).url == Endpoint(LastSubmitted(events, s.term.value, submitted))
    decreases |events|
  {
    if |events| > 0 {
      var next := Handle(s, events[0]);
      if events[0].Input? {
        UrlFollowsLastSubmit(next, submitted, events[1..]);
      } else {
        UrlFollowsLastSubmit(next, s.term.value, events[1..]);
      }
    }
  }
}
