/** The memo of body analyses (`secret_scanner.rs`): a bounded first-in-first-out cache keyed
    by a hash of the body, shared by racing callers. */
module ScanCache {
  import opened Text

  const CAPACITY: nat := 4096

  // ---- the cache as a value ----

  datatype Contents<R> = Contents(entries: map<nat, R>, order: seq<nat>)

  /** The order queue lists the cached keys, each once, and there are not too many. */
  ghost predicate Sound<R>(c: Contents<R>) {
    Distinct(c.order) && Elements(c.order) == c.entries.Keys && |c.order| <= CAPACITY
  }

  /** The cache without its oldest entry. */
  function Evicted<R>(c: Contents<R>): Contents<R>
    requires c.order != []
  {
    Contents(c.entries - {c.order[0]}, c.order[1..])
  }

  /** The cache after a store: unchanged if the key is there; else the oldest entry makes
      room if there is none, and the new one is the youngest. */
  function Stored<R>(c: Contents<R>, key: nat, result: R): Contents<R> {
    if key in c.entries then c
    else
      var room := if |c.order| >= CAPACITY then Evicted(c) else c;
      Contents(room.entries[key := result], room.order + [key])
  }

  lemma EvictedIsSound<R>(c: Contents<R>)
    requires Sound(c) && c.order != []
    ensures Sound(Evicted(c)) && |Evicted(c).order| == |c.order| - 1
  {
    var rest := c.order[1..];
    assert c.order == [c.order[0]] + rest;
    forall j | 0 <= j < |rest| ensures rest[j] != c.order[0] { assert rest[j] == c.order[j + 1]; }
    assert Elements(rest) == Elements(c.order) - {c.order[0]};
  }

  lemma StoredIsSound<R>(c: Contents<R>, key: nat, result: R)
    requires Sound(c)
    ensures Sound(Stored(c, key, result))
  {
    if key !in c.entries {
      if |c.order| >= CAPACITY { EvictedIsSound(c); }
      var room := if |c.order| >= CAPACITY then Evicted(c) else c;
      assert Elements(room.order + [key]) == Elements(room.order) + {key};
      assert key !in Elements(room.order);
    }
  }

  // ---- how long an entry can be looked up ----

  datatype Entry<R> = Entry(key: nat, result: R)

  /** One store after the other. */
  function StoredAll<R>(c: Contents<R>, stores: seq<Entry<R>>): Contents<R>
    decreases |stores|
  {
    if stores == [] then c else StoredAll(Stored(c, stores[0].key, stores[0].result), stores[1..])
  }

  /** How many of the stores bring a key that is not there at the time. */
  function Misses<R>(c: Contents<R>, stores: seq<Entry<R>>): nat
    decreases |stores|
  {
    if stores == [] then 0
    else (if stores[0].key in c.entries then 0 else 1)
         + Misses(Stored(c, stores[0].key, stores[0].result), stores[1..])
  }

  predicate Mentions<R>(stores: seq<Entry<R>>, key: nat) {
    exists i | 0 <= i < |stores| :: stores[i].key == key
  }

  lemma TailMentions<R>(stores: seq<Entry<R>>, key: nat)
    requires stores != [] && !Mentions(stores, key)
    ensures stores[0].key != key && !Mentions(stores[1..], key)
  {
    forall i | 0 <= i < |stores| - 1 ensures stores[1..][i].key != key { assert stores[i + 1].key != key; }
  }

  lemma {:induction false} AbsentStays<R>(c: Contents<R>, stores: seq<Entry<R>>, key: nat)
    requires key !in c.entries && !Mentions(stores, key)
    ensures key !in StoredAll(c, stores).entries
    decreases |stores|
  {
    if stores != [] {
      TailMentions(stores, key);
      AbsentStays(Stored(c, stores[0].key, stores[0].result), stores[1..], key);
    }
  }

  /** Where one store of another key leaves the i-th oldest entry. */
  lemma OneStore<R>(c: Contents<R>, i: nat, key: nat, result: R)
    requires Sound(c) && i < |c.order| && key != c.order[i]
    ensures var c', k := Stored(c, key, result), c.order[i];
            if key in c.entries then c' == c
            else if |c.order| < CAPACITY then
              |c'.order| == |c.order| + 1 && c'.order[i] == k && k in c'.entries && c'.entries[k] == c.entries[k]
            else if i == 0 then k !in c'.entries
            else |c'.order| == |c.order| && c'.order[i - 1] == k && k in c'.entries && c'.entries[k] == c.entries[k]
  {
    assert c.order[i] in Elements(c.order);
  }

  /** Main result: the i-th oldest entry survives any stores of other keys, with its value,
      exactly as long as the misses among them leave it one of the CAPACITY youngest. */
  lemma {:induction false} EntryLifetime<R>(c: Contents<R>, stores: seq<Entry<R>>, i: nat)
    requires Sound(c) && i < |c.order| && !Mentions(stores, c.order[i])
    ensures c.order[i] in c.entries
    ensures c.order[i] in StoredAll(c, stores).entries <==> |c.order| + Misses(c, stores) <= CAPACITY + i
    ensures c.order[i] in StoredAll(c, stores).entries ==>
              StoredAll(c, stores).entries[c.order[i]] == c.entries[c.order[i]]
    decreases |stores|
  {
    assert c.order[i] in Elements(c.order);
    if stores != [] {
      var key, result, rest := stores[0].key, stores[0].result, stores[1..];
      var c' := Stored(c, key, result);
      TailMentions(stores, c.order[i]);
      StoredIsSound(c, key, result);
      OneStore(c, i, key, result);
      if key in c.entries || |c.order| < CAPACITY {
        EntryLifetime(c', rest, i);
      } else if i == 0 {
        AbsentStays(c', rest, c.order[0]);
      } else {
        EntryLifetime(c', rest, i - 1);
      }
    }
  }

  // ---- the cache as the code holds it ----

  class ScanCache<R> {
    const hash: string -> nat
    const uncached: string -> R
    const empty: R
    var entries: map<nat, R>
    var order: seq<nat>

    constructor (hash: string -> nat, uncached: string -> R, empty: R)
      ensures this.hash == hash && this.uncached == uncached && this.empty == empty
      ensures View() == Contents(map[], []) && Valid()
    {
      this.hash, this.uncached, this.empty := hash, uncached, empty;
      entries, order := map[], [];
    }

    ghost function View(): Contents<R>
      reads this
    {
      Contents(entries, order)
    }

    ghost predicate Valid()
      reads this
    {
      Sound(View())
    }

    method CachedAnalysis(body: string) returns (hit: Option<R>)
      ensures hit == if hash(body) in entries then Some(entries[hash(body)]) else None
    {
      var key := hash(body);
      hit := if key in entries then Some(entries[key]) else None;
    }

    method StoreAnalysis(body: string, result: R)
      requires Valid()
      modifies this
      ensures View() == Stored(old(View()), hash(body), result) && Valid()
    {
      StoredIsSound(View(), hash(body), result);
      var key := hash(body);
      if key in entries {
        return;
      }
      ghost var before := View();
      DistinctCard(order);
      while |entries| >= CAPACITY
        invariant Valid() && |entries| == |order| && key !in entries
        invariant View() == before || (|before.order| >= CAPACITY && View() == Evicted(before) && |order| < CAPACITY)
        decreases |order|
      {
        if order == [] {
          break;
        }
        EvictedIsSound(View());
        var evicted := order[0];
        order := order[1..];
        entries := entries - {evicted};
        DistinctCard(order);
      }
      entries := entries[key := result];
      order := order + [key];
    }

    method Analyze(body: string) returns (result: R)
      requires Valid()
      modifies this
      ensures Valid()
      ensures Trim(body) == "" ==> result == empty && View() == old(View())
      ensures Trim(body) != "" && hash(body) in old(entries) ==>
                result == old(entries)[hash(body)] && View() == old(View())
      ensures Trim(body) != "" && hash(body) !in old(entries) ==>
                result == uncached(body) && View() == Stored(old(View()), hash(body), result)
    {
      if Trim(body) == "" {
        return empty;
      }
      var hit := CachedAnalysis(body);
      if hit.Some? {
        return hit.value;
      }
      result := uncached(body);
      StoreAnalysis(body, result);
    }
  }

  // ---- racing callers ----

  /** The hash, the uncached analysis and the result for blank bodies. */
  datatype Analyzer<!R> = Analyzer(hash: string -> nat, uncached: string -> R, empty: R)

  /** A call: before its lookup, between a miss and its store, or returned. */
  datatype Call<R> = Looking(body: string) | Missed(body: string, result: R) | Returned(body: string, result: R)

  datatype State<R> = State(cache: Contents<R>, calls: seq<Call<R>>)

  function Start<R>(): State<R> {
    State(Contents(map[], []), [])
  }

  /** The lookup, under the lock, and the analysis after a miss. */
  function Look<R>(a: Analyzer<R>, cache: Contents<R>, body: string): Call<R> {
    if Trim(body) == "" then Returned(body, a.empty)
    else if a.hash(body) in cache.entries then Returned(body, cache.entries[a.hash(body)])
    else Missed(body, a.uncached(body))
  }

  datatype Step = Arrive(body: string) | Advance(call: nat)

  predicate CanStep<R>(s: State<R>, step: Step) {
    step.Advance? ==> step.call < |s.calls| && !s.calls[step.call].Returned?
  }

  function Next<R>(a: Analyzer<R>, s: State<R>, step: Step): State<R>
    requires CanStep(s, step)
  {
    match step
    case Arrive(body) => s.(calls := s.calls + [Looking(body)])
    case Advance(w) =>
      match s.calls[w]
      case Looking(body) => s.(calls := s.calls[w := Look(a, s.cache, body)])
      case Missed(body, result) =>
        State(Stored(s.cache, a.hash(body), result), s.calls[w := Returned(body, result)])
  }

  /** The state after a history of steps, in any interleaving of the callers, if each step
      was possible. */
  function After<R>(a: Analyzer<R>, steps: seq<Step>): Option<State<R>> {
    if steps == [] then Some(Start())
    else
      var before := After(a, steps[..|steps| - 1]);
      var step := steps[|steps| - 1];
      if before.Some? && CanStep(before.value, step) then Some(Next(a, before.value, step)) else None
  }

  /** What a call should return. */
  function Expected<R>(a: Analyzer<R>, body: string): R {
    if Trim(body) == "" then a.empty else a.uncached(body)
  }

  /** Hashes collide only where the analyses agree. */
  ghost predicate HarmlessHash<R>(a: Analyzer<R>) {
    forall b, b' | Trim(b) != "" && Trim(b') != "" && a.hash(b) == a.hash(b') :: a.uncached(b) == a.uncached(b')
  }

  /** Every cached entry is the analysis of every body with that hash. */
  ghost predicate Faithful<R>(a: Analyzer<R>, entries: map<nat, R>) {
    forall b | Trim(b) != "" && a.hash(b) in entries :: entries[a.hash(b)] == a.uncached(b)
  }

  ghost predicate CallRight<R>(a: Analyzer<R>, call: Call<R>) {
    match call
    case Looking(_) => true
    case Missed(body, result) => Trim(body) != "" && result == a.uncached(body)
    case Returned(body, result) => result == Expected(a, body)
  }

  ghost predicate Inv<R>(a: Analyzer<R>, s: State<R>) {
    Faithful(a, s.cache.entries) && forall w | 0 <= w < |s.calls| :: CallRight(a, s.calls[w])
  }

  lemma StoredIsFaithful<R>(a: Analyzer<R>, c: Contents<R>, body: string)
    requires HarmlessHash(a) && Faithful(a, c.entries) && Trim(body) != ""
    ensures Faithful(a, Stored(c, a.hash(body), a.uncached(body)).entries)
  {
  }

  lemma StepKeeps<R>(a: Analyzer<R>, s: State<R>, step: Step)
    requires HarmlessHash(a) && Inv(a, s) && CanStep(s, step)
    ensures Inv(a, Next(a, s, step))
  {
    if step.Advance? {
      assert CallRight(a, s.calls[step.call]);
      if s.calls[step.call].Missed? {
        StoredIsFaithful(a, s.cache, s.calls[step.call].body);
      }
    }
  }

  lemma {:induction false} HistoryKeeps<R>(a: Analyzer<R>, steps: seq<Step>)
    requires HarmlessHash(a) && After(a, steps).Some?
    ensures Inv(a, After(a, steps).value)
  {
    if steps != [] {
      HistoryKeeps(a, steps[..|steps| - 1]);
      StepKeeps(a, After(a, steps[..|steps| - 1]).value, steps[|steps| - 1]);
    }
  }

  /** Main result, over every history of racing calls: the order queue stays a duplicate-free
      listing of the cached keys and the size stays within the capacity. */
  lemma {:induction false} CacheStaysSound<R>(a: Analyzer<R>, steps: seq<Step>)
    requires After(a, steps).Some?
    ensures Sound(After(a, steps).value.cache)
    ensures |After(a, steps).value.cache.entries| <= CAPACITY
  {
    if steps != [] {
      var before, step := After(a, steps[..|steps| - 1]).value, steps[|steps| - 1];
      CacheStaysSound(a, steps[..|steps| - 1]);
      if step.Advance? && before.calls[step.call].Missed? {
        StoredIsSound(before.cache, a.hash(before.calls[step.call].body), before.calls[step.call].result);
      }
    }
    DistinctCard(After(a, steps).value.cache.order);
  }

  /** Every call of every history returned what the uncached analysis returns. */
  ghost predicate Transparent<R>(a: Analyzer<R>) {
    forall steps: seq<Step> | After(a, steps).Some? :: AllRight(a, After(a, steps).value)
  }

  ghost predicate AllRight<R>(a: Analyzer<R>, s: State<R>) {
    forall w | 0 <= w < |s.calls| && s.calls[w].Returned? :: s.calls[w].result == Expected(a, s.calls[w].body)
  }

  /** Two bodies analysed one after the other. */
  function TwoCalls(b: string, b': string): seq<Step> {
    [Arrive(b), Advance(0), Advance(0), Arrive(b'), Advance(1)]
  }

  lemma AfterStep<R>(a: Analyzer<R>, steps: seq<Step>, step: Step)
    requires After(a, steps).Some? && CanStep(After(a, steps).value, step)
    ensures After(a, steps + [step]) == Some(Next(a, After(a, steps).value, step))
  {
    assert (steps + [step])[..|steps|] == steps;
  }

  lemma ClashShows<R>(a: Analyzer<R>, b: string, b': string)
    requires Trim(b) != "" && Trim(b') != "" && a.hash(b) == a.hash(b')
    ensures After(a, TwoCalls(b, b')).Some?
    ensures After(a, TwoCalls(b, b')).value.calls == [Returned(b, a.uncached(b)), Returned(b', a.uncached(b))]
  {
    var none: seq<Step> := [];
    AfterStep(a, none, Arrive(b));
    AfterStep(a, none + [Arrive(b)], Advance(0));
    AfterStep(a, none + [Arrive(b)] + [Advance(0)], Advance(0));
    AfterStep(a, none + [Arrive(b)] + [Advance(0)] + [Advance(0)], Arrive(b'));
    AfterStep(a, none + [Arrive(b)] + [Advance(0)] + [Advance(0)] + [Arrive(b')], Advance(1));
    assert TwoCalls(b, b') == none + [Arrive(b)] + [Advance(0)] + [Advance(0)] + [Arrive(b')] + [Advance(1)];
  }

  /** Main result: the memo is transparent, whatever the history and the races, if and only
      if hashes collide only between bodies with equal analyses. */
  lemma TransparentIff<R>(a: Analyzer<R>)
    ensures Transparent(a) <==> HarmlessHash(a)
  {
    if HarmlessHash(a) {
      forall steps: seq<Step> | After(a, steps).Some? ensures AllRight(a, After(a, steps).value) {
        HistoryKeeps(a, steps);
        var s := After(a, steps).value;
        forall w | 0 <= w < |s.calls| && s.calls[w].Returned?
          ensures s.calls[w].result == Expected(a, s.calls[w].body)
        {
          assert CallRight(a, s.calls[w]);
        }
      }
    }
    if Transparent(a) {
      forall b, b' | Trim(b) != "" && Trim(b') != "" && a.hash(b) == a.hash(b')
        ensures a.uncached(b) == a.uncached(b')
      {
        ClashShows(a, b, b');
        var s := After(a, TwoCalls(b, b')).value;
        assert AllRight(a, s);
        assert s.calls[1].Returned?;
      }
    }
  }
}
