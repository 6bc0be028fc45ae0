/**
 The stories state machine of src/App.tsx: the state record, the four
 actions, the reducer, the comment total derived from the state, the
 sequential dispatch of actions starting from the mount-time state, and
 the action sequence one fetch cycle dispatches.
 */
module App {
  import opened Subsequences
  import opened Stories

  datatype StoriesState = StoriesState(data: Stories, isLoading: bool, isError: bool)

  /** The action union. Being a closed datatype, every `match` over it is
      exhaustive, so the reducer's fall-through `throw` cannot be reached. */
  datatype StoriesAction =
    | FetchInit
    | FetchSuccess(payload: Stories)
    | FetchFailure
    | RemoveStory(story: Story)

  /** The state `useReducer` starts from when the app mounts. */
  const InitialState: StoriesState := StoriesState([], false, false)

  /** The loading and error notices are never requested together. */
  predicate Consistent(s: StoriesState)
  {
    !(s.isLoading && s.isError)
  }

  /** `storiesReducer`. */
  function StoriesReducer(state: StoriesState, action: StoriesAction): (r: StoriesState)
    // FETCH_INIT: loading, error cleared, stories kept
    ensures action.FetchInit? ==> r.isLoading && !r.isError && r.data == state.data
    // FETCH_SUCCESS: the payload replaces the stories outright, both flags cleared
    ensures action.FetchSuccess? ==> r == StoriesState(action.payload, false, false)
    // FETCH_FAILURE: error shown, loading over, stories kept from before
    ensures action.FetchFailure? ==> !r.isLoading && r.isError && r.data == state.data
    // REMOVE_STORY: flags untouched; exactly the entries with another identifier remain, in order
    ensures action.RemoveStory? ==>
              && r.isLoading == state.isLoading
              && r.isError == state.isError
              && (forall i :: 0 <= i < |r.data| ==> r.data[i].objectID != action.story.objectID)
              && (forall x :: x in state.data && x.objectID != action.story.objectID ==> x in r.data)
              && IsSubseq(r.data, state.data)
              && |r.data| == |state.data| - CountId(state.data, action.story.objectID)
    // only a successful fetch or a removal touches the stories
    ensures r.data != state.data ==> action.FetchSuccess? || action.RemoveStory?
    ensures Consistent(state) ==> Consistent(r)
  {
    match action
    case FetchInit => state.(isLoading := true, isError := false)
    case FetchSuccess(payload) => state.(isLoading := false, isError := false, data := payload)
    case FetchFailure => state.(isLoading := false, isError := true)
    case RemoveStory(story) => state.(data := Without(state.data, story.objectID))
  }

  /** `getSumComments`: total number of comments over the current stories. */
  function SumComments(state: StoriesState): (r: nat)
    ensures r == TotalComments(state.data)
    ensures |state.data| == 0 ==> r == 0
    ensures forall i :: 0 <= i < |state.data| ==> state.data[i].numComments <= r
  {
    SumFrom(0, state.data)
  }

  /** The state reached by dispatching `trace`, in order, from `s`. */
  function Run(s: StoriesState, trace: seq<StoriesAction>): StoriesState
    decreases |trace|
  {
    if |trace| == 0 then s else Run(StoriesReducer(s, trace[0]), trace[1..])
  }

  /** Payload of the last FETCH_SUCCESS in `trace`, or `base` when there is none. */
  function LastPayload(trace: seq<StoriesAction>, base: Stories): Stories
    decreases |trace|
  {
    if |trace| == 0 then base
    else LastPayload(trace[1..], if trace[0].FetchSuccess? then trace[0].payload else base)
  }

  /** The worked example: removing story "0" from stories "0" and "1". */
  lemma RemoveExample(one: Story, two: Story)
    requires one.objectID == "0" && two.objectID == "1"
    ensures StoriesReducer(StoriesState([one, two], false, false), RemoveStory(one))
            == StoriesState([two], false, false)
  {
    assert [one, two][1..] == [two];
  }

  /** REMOVE_STORY with the same story twice has the effect of doing it once. */
  lemma RemoveIdempotent(s: StoriesState, story: Story)
    ensures StoriesReducer(StoriesReducer(s, RemoveStory(story)), RemoveStory(story))
            == StoriesReducer(s, RemoveStory(story))
  {
    WithoutIdempotent(s.data, story.objectID);
  }

  /** The comment total after REMOVE_STORY plus the comments of the removed
      entries is the total before. */
  lemma SumAfterRemove(s: StoriesState, story: Story)
    ensures SumComments(StoriesReducer(s, RemoveStory(story)))
            + TotalComments(Matching(s.data, story.objectID))
            == SumComments(s)
  {
    TotalSplitsOnId(s.data, story.objectID);
  }

  /** When every entry sharing the removed story's identifier also shares its
      comment count, the total drops by that count once per removed entry. */
  lemma SumDropsByRemovedComments(s: StoriesState, story: Story)
    requires forall i :: 0 <= i < |s.data| && s.data[i].objectID == story.objectID
                         ==> s.data[i].numComments == story.numComments
    ensures SumComments(StoriesReducer(s, RemoveStory(story)))
            == SumComments(s) - story.numComments * CountId(s.data, story.objectID)
  {
    SumAfterRemove(s, story);
    TotalOfMatching(s.data, story.objectID, story.numComments);
  }

  /** Dispatching two traces one after the other is dispatching their concatenation. */
  lemma {:induction false} RunConcat(s: StoriesState, a: seq<StoriesAction>, b: seq<StoriesAction>)
    ensures Run(s, a + b) == Run(Run(s, a), b)
    decreases |a|
  {
    if |a| == 0 {
      assert a + b == b;
    } else {
      assert (a + b)[0] == a[0];
      assert (a + b)[1..] == a[1..] + b;
      RunConcat(StoriesReducer(s, a[0]), a[1..], b);
    }
  }

  /** Every trace keeps a consistent state consistent. */
  lemma {:induction false} RunKeepsConsistent(s: StoriesState, trace: seq<StoriesAction>)
    requires Consistent(s)
    ensures Consistent(Run(s, trace))
    decreases |trace|
  {
    if |trace| > 0 {
      RunKeepsConsistent(StoriesReducer(s, trace[0]), trace[1..]);
    }
  }

  /** From the mount-time state no sequence of actions shows the loading and
      the error notice together. */
  lemma NeverLoadingAndError(trace: seq<StoriesAction>)
    ensures !(Run(InitialState, trace).isLoading && Run(InitialState, trace).isError)
  {
    RunKeepsConsistent(InitialState, trace);
  }

  /** Dispatching keeps the stories an order-preserving selection of the last
      payload received (or of the starting stories before any). */
  lemma {:induction false} RunDataFromLastPayload(s: StoriesState, base: Stories, trace: seq<StoriesAction>)
    requires IsSubseq(s.data, base)
    ensures IsSubseq(Run(s, trace).data, LastPayload(trace, base))
    decreases |trace|
  {
    if |trace| > 0 {
      var a := trace[0];
      var next := StoriesReducer(s, a);
      var base' := if a.FetchSuccess? then a.payload else base;
      if a.FetchSuccess? {
        SubseqRefl(a.payload);
      } else if a.RemoveStory? {
        SubseqTrans(next.data, s.data, base);
      }
      RunDataFromLastPayload(next, base', trace[1..]);
    }
  }

  /** In every reachable state the stories shown are the last fetched ones
      with some removed: in fetch order, and nothing that was not fetched. */
  lemma ReachableDataFromLastFetch(trace: seq<StoriesAction>)
    ensures IsSubseq(Run(InitialState, trace).data, LastPayload(trace, []))
    ensures forall x :: x in Run(InitialState, trace).data ==> x in LastPayload(trace, [])
  {
    RunDataFromLastPayload(InitialState, [], trace);
    SubseqMembers(Run(InitialState, trace).data, LastPayload(trace, []));
  }

  /** How a settled request ends, with the transport abstracted away: the
      hits handed to FETCH_SUCCESS, or `Err` for anything that reaches the
      `.catch` (a rejected request, or a throw while reading the hits of a
      response). A request that never settles has no `Outcome`. */
  datatype Outcome = Ok(hits: Stories) | Err

  /** The actions `handleFetchStories` dispatches for one request: FETCH_INIT
      before the request, then one action for its outcome. */
  function FetchEvents(outcome: Outcome): (r: seq<StoriesAction>)
    ensures |r| == 2 && r[0] == FetchInit
    ensures r[1].FetchSuccess? <==> outcome.Ok?
    ensures r[1].FetchFailure? <==> outcome.Err?
    ensures outcome.Ok? ==> r[1].payload == outcome.hits
  {
    match outcome
    case Ok(hits) => [FetchInit, FetchSuccess(hits)]
    case Err => [FetchInit, FetchFailure]
  }

  /** One fetch cycle from any state: loading is shown in between, and the
      cycle ends with the hits and no notice, or with the error notice and
      the stories held before the cycle began. The outcome is consistent
      even if the starting state was not. */
  lemma FetchCycle(s: StoriesState, outcome: Outcome)
    ensures Run(s, FetchEvents(outcome)[..1]).isLoading
    ensures outcome.Ok? ==> Run(s, FetchEvents(outcome)) == StoriesState(outcome.hits, false, false)
    ensures outcome.Err? ==> Run(s, FetchEvents(outcome)) == StoriesState(s.data, false, true)
    ensures Consistent(Run(s, FetchEvents(outcome)))
  {
    var e := FetchEvents(outcome);
    var mid := StoriesReducer(s, e[0]);
    assert Run(s, e[..1]) == Run(mid, []) by {
      assert e[..1][1..] == [];
    }
    assert Run(s, e) == Run(StoriesReducer(mid, e[1]), []) by {
      assert e[1..][1..] == [];
    }
  }
}
