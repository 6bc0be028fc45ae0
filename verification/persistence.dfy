/**
 The `useSemiPersistentState` hook of src/App.tsx: a string state whose
 initial value is read from a key-value store and whose later changes are
 written back under the same key. The store is an abstract map from keys to
 strings; the `isMounted` ref is an explicit flag of the hook state.
 */
module SemiPersistentState {

  type Store = map<string, string>

  datatype Hook = Hook(key: string, value: string, isMounted: bool, store: Store)

  /** The stored value, or `fallback` when it is absent or empty: the
      JavaScript `getItem(key) || fallback`, where both `null` and `""` are
      falsy. */
  function StoredOr(store: Store, key: string, fallback: string): (v: string)
    ensures key in store && store[key] != "" ==> v == store[key]
    ensures key !in store || store[key] == "" ==> v == fallback
  {
    if key in store && store[key] != "" then store[key] else fallback
  }

  /** First render: the value is loaded, nothing is written, the effect has not run. */
  function Init(key: string, initial: string, store: Store): (h: Hook)
    ensures h.key == key && h.store == store && !h.isMounted
    ensures h.value == StoredOr(store, key, initial)
    ensures h.value == "" ==> h.value == initial
  {
    Hook(key, StoredOr(store, key, initial), false, store)
  }

  /** One run of the effect: the first run only arms the flag, every later
      run writes the current value under the hook's key. */
  function Effect(h: Hook): (h': Hook)
    ensures h'.isMounted && h'.key == h.key && h'.value == h.value
    ensures !h.isMounted ==> h'.store == h.store
    ensures h.isMounted ==> h.key in h'.store && h'.store[h.key] == h.value
    ensures h'.store.Keys == if h.isMounted then h.store.Keys + {h.key} else h.store.Keys
    ensures forall k :: k in h.store && k != h.key ==> h'.store[k] == h.store[k]
  {
    if !h.isMounted then h.(isMounted := true)
    else h.(store := h.store[h.key := h.value])
  }

  /** Mounting: the initial render followed by the effect's first run. */
  function Mount(key: string, initial: string, store: Store): (h: Hook)
    ensures h.isMounted && h.key == key
    ensures h.store == store
    ensures h.value == StoredOr(store, key, initial)
  {
    Effect(Init(key, initial, store))
  }

  /** `setValue(v)`. The effect depends on `value`, so it runs again exactly
      when `v` differs from the current value; setting the current value
      again re-renders nothing. */
  function SetValue(h: Hook, v: string): (h': Hook)
    ensures h'.value == v && h'.key == h.key
    ensures h.isMounted ==> h'.isMounted
    ensures h.isMounted && v != h.value ==> h.key in h'.store && h'.store[h.key] == v
    ensures v == h.value ==> h' == h
    ensures forall k :: k != h.key ==> (k in h'.store <==> k in h.store)
    ensures forall k :: k in h.store && k != h.key ==> h'.store[k] == h.store[k]
  {
    if v == h.value then h else Effect(h.(value := v))
  }

  /** The hook after the values `vs` are set one after the other, each in a
      render of its own (as separate keystroke events are). Several
      `setValue` calls within one handler would instead be batched into one
      render and one effect run with the final value. */
  function Edits(h: Hook, vs: seq<string>): (h': Hook)
    ensures h'.key == h.key
    ensures h.isMounted ==> h'.isMounted
    ensures |vs| > 0 ==> h'.value == vs[|vs| - 1]
    ensures |vs| == 0 ==> h' == h
    decreases |vs|
  {
    if |vs| == 0 then h else Edits(SetValue(h, vs[0]), vs[1..])
  }

  /** A mounted hook whose store, read again with the same fallback, gives
      back its value (or the fallback, when the value is empty). */
  predicate Recoverable(h: Hook, initial: string)
  {
    h.isMounted && Init(h.key, initial, h.store).value == (if h.value == "" then initial else h.value)
  }

  /** Setting values keeps a hook recoverable. */
  lemma {:induction false} EditsKeepRecoverable(h: Hook, initial: string, vs: seq<string>)
    requires Recoverable(h, initial)
    ensures Recoverable(Edits(h, vs), initial)
    decreases |vs|
  {
    if |vs| > 0 {
      EditsKeepRecoverable(SetValue(h, vs[0]), initial, vs[1..]);
    }
  }

  /** Persistence across restarts: after mounting and any number of edits,
      loading again from the store yields the last value, except that an
      empty value comes back as the default. */
  lemma ReloadRestoresValue(key: string, initial: string, store: Store, vs: seq<string>)
    ensures var h := Edits(Mount(key, initial, store), vs);
            Init(key, initial, h.store).value == (if h.value == "" then initial else h.value)
  {
    EditsKeepRecoverable(Mount(key, initial, store), initial, vs);
  }

  /** The hook never writes any key but its own. */
  lemma {:induction false} EditsTouchOnlyKey(h: Hook, vs: seq<string>)
    ensures forall k :: k != h.key ==> (k in Edits(h, vs).store <==> k in h.store)
    ensures forall k :: k in h.store && k != h.key ==> Edits(h, vs).store[k] == h.store[k]
    decreases |vs|
  {
    if |vs| > 0 {
      EditsTouchOnlyKey(SetValue(h, vs[0]), vs[1..]);
    }
  }
}
