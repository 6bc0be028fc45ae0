# Hacker News story search: state logic in Dafny

This project models the logic of a small React client that searches the
Hacker News index, lists the hits as removable stories, shows the total
number of comments, and remembers the last search term across sessions.
The model covers the stories reducer (`storiesReducer`), the comment total
(`getSumComments`), the actions one fetch cycle dispatches
(`handleFetchStories`), the persisted search term (`useSemiPersistentState`),
and how the request URL follows the search form.

Modules and files:

- `subsequences.dfy`: `Options` (an optional value) and `Subsequences`.
  `IsSubseq` is the order-preserving subsequence relation that filtering is
  checked against. The file also proves its reflexivity, transitivity,
  length bound and membership lemmas.
- `stories.dfy`: `Stories`, the `Story` record of `src/List.tsx`. It holds
  the identifier filter behind `REMOVE_STORY` (`Without`), its complement
  (`Matching`), counting by identifier, and the comment sum. The sum comes
  twice: as the left fold the source writes (`SumFrom`) and as a reference
  definition (`TotalComments`).
- `app.dfy`: `App`, with the state record, the action union and
  `StoriesReducer`. It also holds `SumComments`, the dispatch of an action
  trace from the mount-time state (`Run`), and the fetch cycle, where the
  network is reduced to an abstract `Outcome`.
- `persistence.dfy`: `SemiPersistentState`. The browser's storage is an
  abstract `map<string, string>`. The hook's `isMounted` ref is an explicit
  flag.
- `search.dfy`: `Search`, holding the endpoint string, the term hook with
  the app's key `"search"` and default `"React"`, and the typing and submit
  handlers.

Numbers (`num_comments`, `points`) are `nat`. `url`, `title`, `author` and
`points` are carried along and never inspected.

Points where the model follows the code closely:

- The code does not check the response shape: `result.data.hits`
  (src/App.tsx:173) is dispatched as it is. The model's `Outcome` is
  therefore only `Ok(hits)` or `Err`.
- The URL is the raw term appended to the base, with no encoding
  (src/App.tsx:94, 130, 151). `Endpoint` does the same.
- The reducer's `default: throw` (src/App.tsx:84-85) cannot be reached,
  because `StoriesAction` is a closed datatype and `StoriesReducer`'s
  `match` is exhaustive.
- A removal drops every entry that shares the removed story's `objectID`,
  not just one (src/App.tsx:82).

## Model

| member | source | states |
|---|---|---|
| Stories.Without | src/App.tsx:82 | The kept stories carry no removed identifier. The result is an order-preserving subsequence of the input. Its length is the input length minus the number of identifier matches. Every story with another identifier is kept. |
| Stories.WithoutMultiset | src/App.tsx:82 | Removal keeps the multiplicity of every story with another identifier and drops every copy of the matching ones. |
| Stories.WithoutUnique | src/App.tsx:82 | Any order-preserving subsequence that has no entry for the identifier and has the expected length equals the filter result. So the filter is fully determined by its contract. |
| Stories.WithoutIdempotent | src/App.tsx:82 | Filtering the same identifier twice gives the same list as filtering it once. |
| Stories.WithoutCommutes | src/App.tsx:82 | Removals by two identifiers give the same list in either order. |
| Stories.CountId | src/App.tsx:82 | The number of identifier matches is at most the length, and it is zero exactly when no entry has that identifier. |
| Stories.TotalComments | src/App.tsx:91 | The reference comment sum is at least the comment count of every entry. |
| Stories.SumFrom | src/App.tsx:91 | The left-to-right `reduce` from an accumulator equals the accumulator plus the reference sum. |
| Stories.TotalConcat | src/App.tsx:91 | The comment sum is additive over concatenation. |
| Stories.TotalSplitsOnId | src/App.tsx:89-92 | The comment sum of a list is the sum over the kept stories plus the sum over the removed stories. |
| Stories.TotalOfMatching | src/App.tsx:89-92 | If every entry with the identifier has n comments, those entries together have n times their count. |
| App.StoriesReducer | src/App.tsx:71-87 | FETCH_INIT sets loading, clears the error and keeps the data. FETCH_SUCCESS replaces the data with the payload and clears both flags. FETCH_FAILURE sets the error, clears loading and keeps the data. REMOVE_STORY keeps both flags and leaves exactly the other-identifier stories, in order and with the counted length. Only success or removal changes the data. No action turns a consistent state into one showing both notices. |
| App.SumComments | src/App.tsx:89-92 | The comment total of a state is the reference sum of its stories. It is 0 for no stories and at least each story's comment count. |
| App.RemoveExample | src/App.test.tsx:28-41 | Removing story "0" from stories "0" and "1" with both flags false leaves only story "1", with both flags still false. |
| App.RemoveIdempotent | src/App.tsx:79-83 | Dispatching REMOVE_STORY twice with the same story gives the state that dispatching it once gives. |
| App.SumAfterRemove | src/App.tsx:89-92 | After REMOVE_STORY, the total plus the comments of the removed entries equals the total before. |
| App.SumDropsByRemovedComments | src/App.tsx:89-92 | If all entries sharing the story's identifier share its comment count, the total drops by that count times the number of matches. |
| App.RunConcat | src/App.tsx:140-144 | Dispatching two action sequences one after the other is the same as dispatching their concatenation. |
| App.RunKeepsConsistent | src/App.tsx:71-87 | From a state without both notices, no action sequence reaches a state with both. |
| App.NeverLoadingAndError | src/App.tsx:140-144 | From the mount-time state `{[], false, false}`, no action sequence sets `isLoading` and `isError` together. |
| App.RunDataFromLastPayload | src/App.tsx:71-87 | While actions are dispatched, the stories stay an order-preserving subsequence of the last payload received, or of the starting list before any payload. |
| App.ReachableDataFromLastFetch | src/App.tsx:140-144 | In every reachable state, the stories are an order-preserving subsequence of the last successful fetch's payload. No story appears that was not fetched. |
| App.FetchEvents | src/App.tsx:157-178 | A settled fetch dispatches exactly two actions: FETCH_INIT first, then FETCH_SUCCESS with the hits when the success handler completes, or FETCH_FAILURE when anything reaches the `.catch`. |
| App.FetchCycle | src/App.tsx:157-178 | From any state, loading is shown after the first action. A success ends with the hits and both flags false. A failure ends with the error set, loading cleared and the stories from before the cycle. Both ends show at most one notice. |
| SemiPersistentState.StoredOr | src/App.tsx:26 | The stored value is used when the key is present and non-empty. A missing key and an empty stored string both fall back to the default. |
| SemiPersistentState.Init | src/App.tsx:24-26 | The first render loads the stored-or-default value, has not run the effect yet and leaves the store as it is. An empty initial value can only come from the default. |
| SemiPersistentState.Effect | src/App.tsx:29-36 | The first run of the effect only sets the mounted flag and writes nothing. Each later run stores the value under the hook's key and adds no other key. Every other key keeps its value. |
| SemiPersistentState.Mount | src/App.tsx:24-36 | Mounting leaves the store exactly as it was. The mounted flag is then set. |
| SemiPersistentState.SetValue | src/App.tsx:26-36 | Setting a new value on a mounted hook stores it under the key. Setting the current value changes nothing. No other key changes presence or value. |
| SemiPersistentState.Edits | src/App.tsx:26-36 | After a series of edits the value is the last one set. The key never changes, and a mounted hook stays mounted. |
| SemiPersistentState.ReloadRestoresValue | src/App.tsx:20-39 | After mounting and any edits, reloading from the store gives back the current value. An empty value reloads as the default. |
| SemiPersistentState.EditsTouchOnlyKey | src/App.tsx:29-36 | No sequence of edits adds, removes or changes any key other than the hook's own. |
| Search.Endpoint | src/App.tsx:94 | The URL is the base URL followed by the raw term: the base as prefix, the unencoded term as suffix. |
| Search.TermOf | src/App.tsx:94 | A URL yields a term exactly when it starts with the base, and rebuilding the URL from that term gives back the same URL. |
| Search.EndpointInjective | src/App.tsx:94 | Two terms produce the same URL if and only if they are equal. |
| Search.MountSearch | src/App.tsx:129-130 | At mount the term is the stored `"search"` value if non-empty, else `"React"`. The store is not written. The URL decodes to that term. |
| Search.Handle | src/App.tsx:146-155 | Typing sets the term and leaves the URL alone. Submitting leaves the term alone and sets a URL that decodes to the current term. |
| Search.UrlFollowsLastSubmit | src/App.tsx:146-155 | After any sequence of typing and submits, the URL belongs to the term present at the last submit. Typing alone never changes it. |

## Left out

- `Clock` (src/App.tsx:7-18): dates, an interval timer and locale time formatting are clock I/O.
- Real network access: the axios request is reduced to an `Outcome` of hits or an error.
- App.FetchEvents: `Err` stands for both a rejected request and a throw inside the success handler. For example, a `null` `result.data` makes line 173 throw, and the `.catch` of line 177 then dispatches FETCH_FAILURE although the request succeeded.
- App.FetchEvents: a request that never settles is not a case of `Outcome`. `axios.get` has no timeout, so such a request dispatches only FETCH_INIT. That trace is covered only as an ordinary action sequence, through `NeverLoadingAndError`.
- Extracting `result.data.hits` from a response: the code does not validate the response shape.
- Overlapping fetches: the code has no guard, and the order in which overlapping responses arrive is undefined. The model covers one fetch cycle at a time.
- React scheduling: the `useCallback`/`useMemo` caching, the effect that refetches when the URL changes, and `React.memo`. These are renderer behaviour. So the model does not state when a fetch is started or when the comment total is recomputed.
- `console.log` calls: output only.
- Real `localStorage`: replaced by an abstract map.
- All JSX: the list and item rendering, the labelled input, and the loading and error notices. None of it computes state.
- `SumComments` uses unbounded naturals. JavaScript's floating-point addition, which rounds beyond 2^53, is not modelled.
- `getSumComments` cannot recompute twice with different results, because Dafny functions are deterministic. Its instrumentation side effect is left out along with the logging.
