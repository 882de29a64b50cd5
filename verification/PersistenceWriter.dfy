/** The batching, retrying writer that drains the capture buffer (`PersistenceWriter`). The
    repository and the event publisher are outside: their answers come in as functions of
    the call number. */
module PersistenceWriter {

  datatype SaveAnswer = Saved | Transient | Permanent

  /** What the outside world sees of the writer. */
  datatype Event<F> = Attempt(batch: seq<F>, answer: SaveAnswer) | Announce(flow: F)

  // ---- the trace a correct run leaves ----

  /** The batches of a stream: consecutive, full but for the last. */
  function Batches<F>(flows: seq<F>, size: nat): (r: seq<seq<F>>)
    requires size > 0
    decreases |flows|
  {
    if flows == [] then []
    else if |flows| <= size then [flows]
    else [flows[..size]] + Batches(flows[size..], size)
  }

  function Repeat<F>(batch: seq<F>, n: nat): seq<Event<F>> {
    seq(n, _ => Attempt(batch, Transient))
  }

  function Announcements<F>(flows: seq<F>): seq<Event<F>> {
    seq(|flows|, i requires 0 <= i < |flows| => Announce(flows[i]))
  }

  /** A batch that went through: n transient failures, the save, then one event per flow. */
  function Flushed<F>(batch: seq<F>, n: nat): seq<Event<F>> {
    Repeat(batch, n) + [Attempt(batch, Saved)] + Announcements(batch)
  }

  function FlushedAll<F>(batches: seq<seq<F>>, retries: seq<nat>): seq<Event<F>>
    requires |batches| == |retries|
  {
    if batches == [] then []
    else FlushedAll(batches[..|batches| - 1], retries[..|retries| - 1])
         + Flushed(batches[|batches| - 1], retries[|retries| - 1])
  }

  ghost predicate WithinRetries(retries: seq<nat>, max: nat) {
    forall i | 0 <= i < |retries| :: retries[i] <= max
  }

  /** How a failed flush ends: the save gave up, or a publication failed midway. */
  ghost predicate Aborted<F(!new)>(batch: seq<F>, max: nat, tail: seq<Event<F>>) {
    || (exists n: nat :: n <= max && tail == Repeat(batch, n) + [Attempt(batch, Permanent)])
    || tail == Repeat(batch, max) + [Attempt(batch, Transient)]
    || (exists n: nat, m: nat :: n <= max && m < |batch|
          && tail == Repeat(batch, n) + [Attempt(batch, Saved)] + Announcements(batch[..m]))
  }

  /** The trace goes on with a batch that was cut short. */
  ghost predicate CutShort<F(!new)>(before: seq<Event<F>>, after: seq<Event<F>>, batch: seq<F>, max: nat) {
    exists tail :: after == before + tail && Aborted(batch, max, tail)
  }

  lemma AbortedSaving<F(!new)>(before: seq<Event<F>>, batch: seq<F>, max: nat, n: nat, answer: SaveAnswer)
    requires n <= max && (answer == Permanent || (answer == Transient && n == max))
    ensures CutShort(before, before + Repeat(batch, n) + [Attempt(batch, answer)], batch, max)
  {
    var tail := Repeat(batch, n) + [Attempt(batch, answer)];
    assert before + Repeat(batch, n) + [Attempt(batch, answer)] == before + tail && Aborted(batch, max, tail);
  }

  lemma AbortedPublishing<F(!new)>(before: seq<Event<F>>, batch: seq<F>, max: nat, n: nat, m: nat)
    requires n <= max && m < |batch|
    ensures var trace := before + Repeat(batch, n) + [Attempt(batch, Saved)] + Announcements(batch[..m]);
            CutShort(before, trace, batch, max)
  {
    var trace := before + Repeat(batch, n) + [Attempt(batch, Saved)] + Announcements(batch[..m]);
    var tail := Repeat(batch, n) + [Attempt(batch, Saved)] + Announcements(batch[..m]);
    assert trace == before + tail && Aborted(batch, max, tail);
  }

  lemma FlushedInOne<F>(before: seq<Event<F>>, batch: seq<F>, n: nat)
    ensures before + Repeat(batch, n) + [Attempt(batch, Saved)] + Announcements(batch) == before + Flushed(batch, n)
  {
  }

  lemma OneMoreBatch<F>(batches: seq<seq<F>>, retries: seq<nat>, batch: seq<F>, n: nat)
    requires |batches| == |retries|
    ensures FlushedAll(batches + [batch], retries + [n]) == FlushedAll(batches, retries) + Flushed(batch, n)
  {
    assert (batches + [batch])[..|batches|] == batches && (retries + [n])[..|retries|] == retries;
  }

  // ---- the trace and the outside ----

  /** The answers of the attempts, in order. */
  function Answers<F>(trace: seq<Event<F>>): seq<SaveAnswer> {
    if trace == [] then []
    else Answers(trace[..|trace| - 1])
         + (if trace[|trace| - 1].Attempt? then [trace[|trace| - 1].answer] else [])
  }

  function AnnouncedFlows<F>(trace: seq<Event<F>>): seq<F> {
    if trace == [] then []
    else AnnouncedFlows(trace[..|trace| - 1])
         + (if trace[|trace| - 1].Announce? then [trace[|trace| - 1].flow] else [])
  }

  /** The attempts carry the repository's answers, one after the other. */
  ghost predicate AnsweredBy<F>(trace: seq<Event<F>>, made: nat, answers: nat -> SaveAnswer) {
    |Answers(trace)| == made && forall j | 0 <= j < made :: Answers(trace)[j] == answers(j)
  }

  /** One flow is announced for each publication that went through; only the last may fail. */
  ghost predicate PublishedBy<F>(trace: seq<Event<F>>, made: nat, answers: nat -> bool, failed: bool) {
    && made == |AnnouncedFlows(trace)| + (if failed then 1 else 0)
    && (forall j | 0 <= j < |AnnouncedFlows(trace)| :: answers(j))
    && (failed ==> !answers(made - 1))
  }

  lemma TraceGrows<F>(trace: seq<Event<F>>, e: Event<F>)
    ensures Answers(trace + [e]) == Answers(trace) + (if e.Attempt? then [e.answer] else [])
    ensures AnnouncedFlows(trace + [e]) == AnnouncedFlows(trace) + (if e.Announce? then [e.flow] else [])
  {
    assert (trace + [e])[..|trace|] == trace;
  }

  lemma OneMoreAttempt<F>(trace: seq<Event<F>>, batch: seq<F>, made: nat, answers: nat -> SaveAnswer)
    requires AnsweredBy(trace, made, answers)
    ensures var trace' := trace + [Attempt(batch, answers(made))];
            AnsweredBy(trace', made + 1, answers) && AnnouncedFlows(trace') == AnnouncedFlows(trace)
  {
    TraceGrows(trace, Attempt(batch, answers(made)));
  }

  lemma OneMorePublication<F>(trace: seq<Event<F>>, flow: F, made: nat, answers: nat -> bool)
    requires PublishedBy(trace, made, answers, false)
    ensures answers(made) ==> PublishedBy(trace + [Announce(flow)], made + 1, answers, false)
    ensures !answers(made) ==> PublishedBy(trace, made + 1, answers, true)
    ensures Answers(trace + [Announce(flow)]) == Answers(trace)
  {
    TraceGrows(trace, Announce(flow));
  }

  lemma OneMoreAnnouncement<F>(trace: seq<Event<F>>, flows: seq<F>, i: nat)
    requires i < |flows|
    ensures trace + Announcements(flows[..i + 1]) == (trace + Announcements(flows[..i])) + [Announce(flows[i])]
  {
    assert Announcements(flows[..i + 1]) == Announcements(flows[..i]) + [Announce(flows[i])];
  }

  // ---- batches ----

  function Concat<F>(batches: seq<seq<F>>): seq<F> {
    if batches == [] then [] else batches[0] + Concat(batches[1..])
  }

  /** Batching keeps every flow in order, fills every batch but the last, and never makes
      an empty one. */
  lemma {:induction false} BatchesMeaning<F>(flows: seq<F>, size: nat)
    requires size > 0
    ensures Concat(Batches(flows, size)) == flows
    ensures forall i | 0 <= i < |Batches(flows, size)| - 1 :: |Batches(flows, size)[i]| == size
    ensures forall b | b in Batches(flows, size) :: 0 < |b| <= size
    decreases |flows|
  {
    var bs := Batches(flows, size);
    if |flows| > size {
      BatchesMeaning(flows[size..], size);
      assert bs[1..] == Batches(flows[size..], size);
      forall i | 0 <= i < |bs| - 1 ensures |bs[i]| == size {
        if i > 0 { assert bs[i] == bs[1..][i - 1]; }
      }
    } else if flows != [] {
      assert bs[1..] == [];
    }
  }

  predicate Multiple(n: nat, size: nat)
    requires size > 0
    decreases n
  {
    n == 0 || (n >= size && Multiple(n - size, size))
  }

  /** A stream grows by whole batches at the end. */
  lemma {:induction false} BatchesAppend<F>(full: seq<F>, batch: seq<F>, size: nat)
    requires size > 0 && Multiple(|full|, size) && 0 < |batch| <= size
    ensures Batches(full + batch, size) == Batches(full, size) + [batch]
    decreases |full|
  {
    if full == [] {
      assert full + batch == batch;
    } else {
      assert (full + batch)[..size] == full[..size];
      assert (full + batch)[size..] == full[size..] + batch;
      BatchesAppend(full[size..], batch, size);
      if |full| == size {
        assert full[size..] == [] && full[..size] == full;
      }
    }
  }

  lemma NextBatch<F>(flows: seq<F>, i: nat, j: nat, size: nat)
    requires size > 0 && i < j <= |flows| && j - i <= size && Multiple(i, size)
    ensures Batches(flows[..j], size) == Batches(flows[..i], size) + [flows[i..j]]
  {
    assert flows[..i] + flows[i..j] == flows[..j];
    BatchesAppend(flows[..i], flows[i..j], size);
  }

  /** The batches of a prefix made of whole batches come first. */
  lemma {:induction false} BatchesPrefix<F>(flows: seq<F>, n: nat, size: nat)
    requires size > 0 && n <= |flows| && Multiple(n, size)
    ensures |Batches(flows[..n], size)| <= |Batches(flows, size)|
    ensures Batches(flows[..n], size) == Batches(flows, size)[..|Batches(flows[..n], size)|]
    decreases |flows|
  {
    if n == |flows| {
      assert flows[..n] == flows;
    } else if n > 0 {
      assert flows[..n][..size] == flows[..size];
      assert flows[..n][size..] == flows[size..][..n - size];
      BatchesPrefix(flows[size..], n - size, size);
      if n == size {
        assert flows[..n][..size] == flows[..n];
        assert flows[size..][..0] == [];
      }
    }
  }

  /** The batch from i to j is the next one after those of the first i flows. */
  lemma BatchInPlace<F>(flows: seq<F>, i: nat, j: nat, size: nat)
    requires size > 0 && i < j <= |flows| && j - i <= size && Multiple(i, size)
    requires j == |flows| || j - i == size
    ensures var n := |Batches(flows[..i], size)|;
            n < |Batches(flows, size)| && Batches(flows, size)[..n] == Batches(flows[..i], size)
            && Batches(flows, size)[n] == flows[i..j]
  {
    NextBatch(flows, i, j, size);
    if j == |flows| {
      assert flows[..j] == flows;
    } else {
      BatchesPrefix(flows, j, size);
    }
  }

  /** Of what was received, the first `flushed` flows are in the batches done; the rest, less
      than a full one, is the batch. */
  ghost predicate Batched<F>(
      incoming: seq<F>, size: nat, flushed: nat, received: nat, batch: seq<F>, done: seq<seq<F>>)
  {
    && size > 0 && flushed <= received <= |incoming| && Multiple(flushed, size)
    && batch == incoming[flushed..received] && |batch| < size && done == Batches(incoming[..flushed], size)
  }

  /** One more flow: the batch goes on, or is full and the next of all. */
  lemma BatchGrows<F>(incoming: seq<F>, size: nat, flushed: nat, received: nat, batch: seq<F>, done: seq<seq<F>>)
    requires received < |incoming| && Batched(incoming, size, flushed, received, batch, done)
    ensures var more := batch + [incoming[received]];
            if |more| < size then Batched(incoming, size, flushed, received + 1, more, done)
            else
              && Batched(incoming, size, received + 1, received + 1, [], done + [more])
              && NextOfAll(incoming, size, done, more)
  {
    var more := batch + [incoming[received]];
    assert incoming[flushed..received + 1] == more;
    if |more| >= size {
      NextBatch(incoming, flushed, received + 1, size);
      BatchInPlace(incoming, flushed, received + 1, size);
      MultipleGrows(flushed, size);
    }
  }

  lemma {:induction false} MultipleGrows(n: nat, size: nat)
    requires size > 0 && Multiple(n, size)
    ensures Multiple(n + size, size)
    decreases n
  {
    if n > 0 { MultipleGrows(n - size, size); }
  }

  ghost predicate Draining<F>(incoming: seq<F>, size: nat, received: nat, batch: seq<F>, done: seq<seq<F>>) {
    received <= |incoming| && exists flushed: nat :: Batched(incoming, size, flushed, received, batch, done)
  }

  /** What one more flow makes of the batch and of the batches done. */
  ghost predicate Takes<F>(
      flow: F, size: nat, batch: seq<F>, done: seq<seq<F>>, batch': seq<F>, done': seq<seq<F>>)
  {
    if |batch| + 1 < size then batch' == batch + [flow] && done' == done
    else batch' == [] && done' == done + [batch + [flow]]
  }

  lemma StartsEmpty<F>(incoming: seq<F>, size: nat)
    requires size > 0
    ensures Draining(incoming, size, 0, [], [])
  {
    assert incoming[0..0] == [] && incoming[..0] == [];
    assert Batched(incoming, size, 0, 0, [], []);
  }

  lemma TakesNext<F>(incoming: seq<F>, size: nat, received: nat, batch: seq<F>, done: seq<seq<F>>)
    requires received < |incoming| && Draining(incoming, size, received, batch, done)
    ensures forall batch', done' | Takes(incoming[received], size, batch, done, batch', done') ::
              Draining(incoming, size, received + 1, batch', done')
    ensures |batch| + 1 == size ==>
              NextOfAll(incoming, size, done, batch + [incoming[received]])
  {
    var flushed: nat :| Batched(incoming, size, flushed, received, batch, done);
    BatchGrows(incoming, size, flushed, received, batch, done);
  }

  /** After the batches done, this is the next of all. */
  ghost predicate NextOfAll<F>(incoming: seq<F>, size: nat, done: seq<seq<F>>, batch: seq<F>) {
    && size > 0 && |done| < |Batches(incoming, size)|
    && done == Batches(incoming, size)[..|done|] && Batches(incoming, size)[|done|] == batch
  }

  /** What is left at the end is the last batch of all, unless there is none. */
  lemma LastBatch<F>(incoming: seq<F>, size: nat, batch: seq<F>, done: seq<seq<F>>)
    requires Draining(incoming, size, |incoming|, batch, done)
    ensures if batch == [] then done == Batches(incoming, size)
            else done + [batch] == Batches(incoming, size) && NextOfAll(incoming, size, done, batch)
  {
    var flushed: nat :| Batched(incoming, size, flushed, |incoming|, batch, done);
    assert incoming[..|incoming|] == incoming;
    if batch != [] {
      NextBatch(incoming, flushed, |incoming|, size);
      BatchInPlace(incoming, flushed, |incoming|, size);
    }
  }

  /** The trace a run leaves: that of all batches, or of the first of them and one cut short. */
  ghost predicate RunLeaves<F(!new)>(incoming: seq<F>, size: nat, max: nat, ok: bool,
                                     done: seq<seq<F>>, retries: seq<nat>, trace: seq<Event<F>>) {
    && size > 0 && |done| == |retries|
    && var batches := Batches(incoming, size);
       if ok then done == batches && trace == FlushedAll(done, retries)
       else |done| < |batches| && done == batches[..|done|]
            && CutShort(FlushedAll(done, retries), trace, batches[|done|], max)
  }

  // ---- the writer ----

  class PersistenceWriter<F(!new)> {
    const batchSize: nat
    const maxRetries: nat
    const saveAnswers: nat -> SaveAnswer
    const publishAnswers: nat -> bool
    var batch: seq<F>
    var savesMade: nat
    var publishesMade: nat
    ghost var trace: seq<Event<F>>
    ghost var done: seq<seq<F>>
    ghost var retries: seq<nat>

    /** The attempts in the trace carry the repository's answers, one after the other. */
    ghost predicate SavesHonest()
      reads this
    {
      AnsweredBy(trace, savesMade, saveAnswers)
    }

    /** A flow is announced for each publication that went through; a failure is the last. */
    ghost predicate PublishesHonest(failed: bool)
      reads this
    {
      PublishedBy(trace, publishesMade, publishAnswers, failed)
    }

    /** Between two receptions: the trace is that of the batches flushed so far. */
    ghost predicate Valid()
      reads this
    {
      SavesHonest() && PublishesHonest(false) && Flushing()
    }

    ghost predicate Flushing()
      reads this
    {
      batchSize > 0 && |batch| < batchSize && |done| == |retries|
      && trace == FlushedAll(done, retries) && WithinRetries(retries, maxRetries)
    }

    constructor (batchSize: nat, maxRetries: nat, saveAnswers: nat -> SaveAnswer, publishAnswers: nat -> bool)
      ensures Valid() && batch == [] && done == [] && trace == []
      ensures this.batchSize == (if batchSize == 0 then 1 else batchSize) && this.maxRetries == maxRetries
      ensures this.saveAnswers == saveAnswers && this.publishAnswers == publishAnswers
    {
      this.batchSize := if batchSize == 0 then 1 else batchSize;
      this.maxRetries, this.saveAnswers, this.publishAnswers := maxRetries, saveAnswers, publishAnswers;
      batch, savesMade, publishesMade := [], 0, 0;
      trace, done, retries := [], [], [];
    }

    /** Attempts end at the first answer that is not transient, or when the retries are used
        up; each carries the repository's answer of its number. */
    method SaveBatchWithRetry(flows: seq<F>) returns (ok: bool, ghost failures: nat)
      requires SavesHonest()
      modifies this`savesMade, this`trace
      ensures SavesHonest() && AnnouncedFlows(trace) == AnnouncedFlows(old(trace))
      ensures failures <= maxRetries && savesMade == old(savesMade) + failures + 1
      ensures forall n: nat | old(savesMade) <= n < savesMade - 1 :: saveAnswers(n) == Transient
      ensures trace == old(trace) + Repeat(flows, failures) + [Attempt(flows, saveAnswers(savesMade - 1))]
      ensures ok <==> saveAnswers(savesMade - 1) == Saved
      ensures !ok ==> saveAnswers(savesMade - 1) == Permanent || failures == maxRetries
    {
      var attempt := 0;
      while true
        invariant SavesHonest() && AnnouncedFlows(trace) == AnnouncedFlows(old(trace))
        invariant attempt <= maxRetries && savesMade == old(savesMade) + attempt
        invariant trace == old(trace) + Repeat(flows, attempt)
        invariant forall n: nat | old(savesMade) <= n < savesMade :: saveAnswers(n) == Transient
        decreases maxRetries - attempt
      {
        var answer := saveAnswers(savesMade);
        OneMoreAttempt(trace, flows, savesMade, saveAnswers);
        savesMade := savesMade + 1;
        trace := trace + [Attempt(flows, answer)];
        failures := attempt;
        if answer == Saved {
          ok := true;
          return;
        } else if answer == Transient && attempt < maxRetries {
          assert Repeat(flows, attempt + 1) == Repeat(flows, attempt) + [Attempt(flows, Transient)];
          attempt := attempt + 1;
        } else {
          ok := false;
          return;
        }
      }
    }

    /** Publications stop at the first that fails. */
    method PublishAll(flows: seq<F>) returns (ok: bool, ghost published: nat)
      requires PublishesHonest(false)
      modifies this`publishesMade, this`trace
      ensures PublishesHonest(!ok) && Answers(trace) == Answers(old(trace))
      ensures ok <==> forall n: nat | old(publishesMade) <= n < old(publishesMade) + |flows| :: publishAnswers(n)
      ensures ok ==> trace == old(trace) + Announcements(flows)
      ensures !ok ==> published < |flows| && trace == old(trace) + Announcements(flows[..published])
    {
      for i := 0 to |flows|
        invariant trace == old(trace) + Announcements(flows[..i])
        invariant PublishesHonest(false) && Answers(trace) == Answers(old(trace))
        invariant publishesMade == old(publishesMade) + i
        invariant forall n: nat | old(publishesMade) <= n < publishesMade :: publishAnswers(n)
      {
        var sent := publishAnswers(publishesMade);
        OneMorePublication(trace, flows[i], publishesMade, publishAnswers);
        OneMoreAnnouncement(old(trace), flows, i);
        publishesMade := publishesMade + 1;
        if !sent {
          ok, published := false, i;
          return;
        }
        trace := trace + [Announce(flows[i])];
      }
      assert flows[..|flows|] == flows;
      ok, published := true, |flows|;
    }

    /** The last thing that happened is a failure: the repository refused for good, or
        `maxRetries` + 1 times in a row, or a publication failed. */
    ghost predicate GaveUp()
      reads this
    {
      || (PublishesHonest(false) && savesMade > 0 && saveAnswers(savesMade - 1) == Permanent)
      || (PublishesHonest(false) && savesMade > maxRetries
          && forall n: nat | savesMade - maxRetries - 1 <= n < savesMade :: saveAnswers(n) == Transient)
      || PublishesHonest(true)
    }

    /** A batch is saved and announced; the trace shows it, or where it was cut short. */
    method SaveAndPublish(flows: seq<F>) returns (ok: bool, ghost failures: nat)
      requires SavesHonest() && PublishesHonest(false)
      modifies this`savesMade, this`publishesMade, this`trace
      ensures SavesHonest() && (if ok then PublishesHonest(false) else GaveUp())
      ensures ok ==> failures <= maxRetries && trace == old(trace) + Flushed(flows, failures)
      ensures !ok ==> CutShort(old(trace), trace, flows, maxRetries)
    {
      ok, failures := SaveBatchWithRetry(flows);
      if !ok {
        AbortedSaving(old(trace), flows, maxRetries, failures, saveAnswers(savesMade - 1));
        return;
      }
      ghost var published: nat;
      ok, published := PublishAll(flows);
      if ok {
        FlushedInOne(old(trace), flows, failures);
      } else {
        AbortedPublishing(old(trace), flows, maxRetries, failures, published);
      }
    }

    /** Empties the batch; on success the trace has grown by exactly one flushed batch. */
    method Flush() returns (ok: bool)
      requires batchSize > 0 && |batch| <= batchSize && |done| == |retries|
      requires trace == FlushedAll(done, retries) && WithinRetries(retries, maxRetries)
      requires SavesHonest() && PublishesHonest(false)
      modifies this
      ensures batch == [] && SavesHonest() && (if ok then PublishesHonest(false) else GaveUp())
      ensures ok ==> Valid() && done == old(done) + (if old(batch) == [] then [] else [old(batch)])
      ensures !ok ==>
                && done == old(done) && retries == old(retries) && old(batch) != []
                && CutShort(old(trace), trace, old(batch), maxRetries)
    {
      if batch == [] {
        return true;
      }
      var flows := batch;
      batch := [];
      ghost var failures: nat;
      ok, failures := SaveAndPublish(flows);
      if ok {
        OneMoreBatch(done, retries, flows, failures);
        done, retries := done + [flows], retries + [failures];
      }
    }

    /** One reception: the flow joins the batch, which is flushed when full. */
    method Accept(flow: F) returns (ok: bool)
      requires Valid()
      modifies this
      ensures SavesHonest() && (!ok ==> GaveUp())
      ensures ok ==>
                Valid() && Takes(flow, batchSize, old(batch), old(done), batch, done)
      ensures !ok ==>
                && |old(batch)| + 1 == batchSize && done == old(done) && retries == old(retries)
                && CutShort(old(trace), trace, old(batch) + [flow], maxRetries)
    {
      batch := batch + [flow];
      ok := true;
      if |batch| >= batchSize {
        ok := Flush();
      }
    }

    /** Main result. On success the trace is exactly that of the batches of what was
        received: saved in order, full but for the last, each attempted at most
        `maxRetries` + 1 times, each flow announced once and right after its batch. On an
        error the same holds for the batches before it, and the next one is cut short. Either
        way the attempts carry the repository's answers, and it is an error exactly when the
        last thing that happened was a failure. */
    method Run(incoming: seq<F>) returns (ok: bool)
      requires Valid() && batch == [] && done == [] && trace == []
      modifies this
      ensures SavesHonest() && (if ok then PublishesHonest(false) else GaveUp())
      ensures WithinRetries(retries, maxRetries)
      ensures RunLeaves(incoming, batchSize, maxRetries, ok, done, retries, trace)
      ensures AnnouncedFlows(trace) <= SavedFlows(trace) <= incoming && (ok ==> AnnouncedFlows(trace) == incoming)
      ensures incoming != [] && (forall n: nat :: saveAnswers(n) == Permanent) ==> !ok && AnnouncedFlows(trace) == []
    {
      var received := 0;
      StartsEmpty(incoming, batchSize);
      while received < |incoming|
        invariant Valid() && Draining(incoming, batchSize, received, batch, done)
        decreases |incoming| - received
      {
        TakesNext(incoming, batchSize, received, batch, done);
        ok := Accept(incoming[received]);
        received := received + 1;
        if !ok {
          RunMeaning(incoming, batchSize, maxRetries, ok, done, retries, trace, savesMade, saveAnswers);
          return;
        }
      }
      LastBatch(incoming, batchSize, batch, done);
      ok := Flush();
      RunMeaning(incoming, batchSize, maxRetries, ok, done, retries, trace, savesMade, saveAnswers);
    }
  }

  // ---- what the trace says ----

  function Batch<F>(e: Event<F>): seq<F> {
    if e.Attempt? && e.answer == Saved then e.batch else []
  }

  function SavedFlows<F>(trace: seq<Event<F>>): seq<F> {
    if trace == [] then [] else SavedFlows(trace[..|trace| - 1]) + Batch(trace[|trace| - 1])
  }

  lemma {:induction false} SavedConcat<F>(a: seq<Event<F>>, b: seq<Event<F>>)
    ensures SavedFlows(a + b) == SavedFlows(a) + SavedFlows(b)
  {
    if b == [] {
      assert a + b == a;
    } else {
      var init, last := b[..|b| - 1], b[|b| - 1];
      SavedConcat(a, init);
      assert (a + b)[..|a + b| - 1] == a + init && (a + b)[|a + b| - 1] == last;
      assert (SavedFlows(a) + SavedFlows(init)) + Batch(last) == SavedFlows(a) + (SavedFlows(init) + Batch(last));
    }
  }

  lemma {:induction false} AnnouncedConcat<F>(a: seq<Event<F>>, b: seq<Event<F>>)
    ensures AnnouncedFlows(a + b) == AnnouncedFlows(a) + AnnouncedFlows(b)
  {
    if b == [] {
      assert a + b == a;
    } else {
      var init, last := b[..|b| - 1], b[|b| - 1];
      var x := if last.Announce? then [last.flow] else [];
      AnnouncedConcat(a, init);
      assert (a + b)[..|a + b| - 1] == a + init && (a + b)[|a + b| - 1] == last;
      assert (AnnouncedFlows(a) + AnnouncedFlows(init)) + x == AnnouncedFlows(a) + (AnnouncedFlows(init) + x);
    }
  }

  lemma {:induction false} RepeatSavesNothing<F>(batch: seq<F>, n: nat)
    ensures SavedFlows(Repeat(batch, n)) == [] && AnnouncedFlows(Repeat(batch, n)) == []
  {
    if n > 0 {
      assert Repeat(batch, n)[..n - 1] == Repeat(batch, n - 1);
      RepeatSavesNothing(batch, n - 1);
    }
  }

  lemma {:induction false} AnnouncementsOnly<F>(flows: seq<F>)
    ensures SavedFlows(Announcements(flows)) == [] && AnnouncedFlows(Announcements(flows)) == flows
  {
    if flows != [] {
      assert Announcements(flows)[..|flows| - 1] == Announcements(flows[..|flows| - 1]);
      AnnouncementsOnly(flows[..|flows| - 1]);
    }
  }

  lemma FlushedConserves<F>(batch: seq<F>, n: nat)
    ensures SavedFlows(Flushed(batch, n)) == batch && AnnouncedFlows(Flushed(batch, n)) == batch
  {
    var save := [Attempt(batch, Saved)];
    SavedConcat(Repeat(batch, n) + save, Announcements(batch));
    SavedConcat(Repeat(batch, n), save);
    AnnouncedConcat(Repeat(batch, n) + save, Announcements(batch));
    AnnouncedConcat(Repeat(batch, n), save);
    RepeatSavesNothing(batch, n);
    AnnouncementsOnly(batch);
    assert save[..0] == [];
    assert SavedFlows(save) == batch && AnnouncedFlows(save) == [];
  }

  /** The trace of a successful run saves, and announces, exactly the flows of its batches. */
  lemma {:induction false} TraceConserves<F>(batches: seq<seq<F>>, retries: seq<nat>)
    requires |batches| == |retries|
    ensures SavedFlows(FlushedAll(batches, retries)) == Concat(batches)
    ensures AnnouncedFlows(FlushedAll(batches, retries)) == Concat(batches)
  {
    if batches != [] {
      var init, last, n := batches[..|batches| - 1], batches[|batches| - 1], retries[|retries| - 1];
      var before, step := FlushedAll(init, retries[..|retries| - 1]), Flushed(last, n);
      assert FlushedAll(batches, retries) == before + step;
      TraceConserves(init, retries[..|retries| - 1]);
      assert Concat(batches) == Concat(init) + last by {
        ConcatAppend(init, last);
        assert init + [last] == batches;
      }
      FlushedConserves(last, n);
      SavedConcat(before, step);
      AnnouncedConcat(before, step);
    }
  }

  lemma {:induction false} ConcatAppend<F>(batches: seq<seq<F>>, last: seq<F>)
    ensures Concat(batches + [last]) == Concat(batches) + last
  {
    if batches == [] {
      assert (batches + [last])[1..] == [];
    } else {
      assert (batches + [last])[1..] == batches[1..] + [last];
      ConcatAppend(batches[1..], last);
    }
  }

  /** Nothing lost, nothing repeated: what a successful run saved and announced is the
      received stream, in order. */
  lemma SavedIsReceived<F>(incoming: seq<F>, size: nat, retries: seq<nat>)
    requires size > 0 && |retries| == |Batches(incoming, size)|
    ensures SavedFlows(FlushedAll(Batches(incoming, size), retries)) == incoming
    ensures AnnouncedFlows(FlushedAll(Batches(incoming, size), retries)) == incoming
  {
    TraceConserves(Batches(incoming, size), retries);
    BatchesMeaning(incoming, size);
  }

  /** A repository that always refuses has saved nothing. */
  lemma {:induction false} SavedWasAnswered<F>(trace: seq<Event<F>>)
    ensures Saved !in Answers(trace) ==> SavedFlows(trace) == []
  {
    if trace != [] {
      var init, last := trace[..|trace| - 1], trace[|trace| - 1];
      SavedWasAnswered(init);
      if last.Attempt? { assert Answers(trace)[|Answers(init)|] == last.answer; }
    }
  }

  lemma NoneSaved<F>(trace: seq<Event<F>>, made: nat, answers: nat -> SaveAnswer)
    requires AnsweredBy(trace, made, answers)
    ensures (forall n: nat :: answers(n) == Permanent) ==> SavedFlows(trace) == []
  {
    SavedWasAnswered(trace);
  }

  lemma {:induction false} ConcatPrefix<F>(batches: seq<seq<F>>, n: nat)
    requires n < |batches|
    ensures Concat(batches[..n]) + batches[n] <= Concat(batches)
  {
    if n == 0 {
      assert Concat(batches) == batches[0] + Concat(batches[1..]);
    } else {
      ConcatPrefix(batches[1..], n - 1);
      assert batches[..n][1..] == batches[1..][..n - 1];
      assert batches[0] + (Concat(batches[..n][1..]) + batches[n]) == Concat(batches[..n]) + batches[n];
    }
  }

  /** What a batch cut short saves and announces: nothing, or all and the first few. */
  lemma AbortedMeaning<F(!new)>(batch: seq<F>, max: nat, tail: seq<Event<F>>)
    requires Aborted(batch, max, tail)
    ensures AnnouncedFlows(tail) <= SavedFlows(tail) <= batch
    ensures SavedFlows(tail) == [] || SavedFlows(tail) == batch
  {
    if n: nat :| n <= max && tail == Repeat(batch, n) + [Attempt(batch, Permanent)] {
      SavingMeaning(batch, n, Permanent);
    } else if tail == Repeat(batch, max) + [Attempt(batch, Transient)] {
      SavingMeaning(batch, max, Transient);
    } else {
      var n: nat, m: nat :|
        n <= max && m < |batch| && tail == Repeat(batch, n) + [Attempt(batch, Saved)] + Announcements(batch[..m]);
      PublishingMeaning(batch, n, m);
    }
  }

  lemma SavingMeaning<F>(batch: seq<F>, n: nat, answer: SaveAnswer)
    requires answer != Saved
    ensures var tail := Repeat(batch, n) + [Attempt(batch, answer)];
            SavedFlows(tail) == [] && AnnouncedFlows(tail) == []
  {
    var last := [Attempt(batch, answer)];
    SavedConcat(Repeat(batch, n), last);
    AnnouncedConcat(Repeat(batch, n), last);
    RepeatSavesNothing(batch, n);
    assert last[..0] == [];
  }

  lemma PublishingMeaning<F>(batch: seq<F>, n: nat, m: nat)
    requires m < |batch|
    ensures var tail := Repeat(batch, n) + [Attempt(batch, Saved)] + Announcements(batch[..m]);
            SavedFlows(tail) == batch && AnnouncedFlows(tail) == batch[..m]
  {
    var save := [Attempt(batch, Saved)];
    SavedConcat(Repeat(batch, n) + save, Announcements(batch[..m]));
    SavedConcat(Repeat(batch, n), save);
    AnnouncedConcat(Repeat(batch, n) + save, Announcements(batch[..m]));
    AnnouncedConcat(Repeat(batch, n), save);
    RepeatSavesNothing(batch, n);
    AnnouncementsOnly(batch[..m]);
    assert save[..0] == [];
    assert SavedFlows(save) == batch && AnnouncedFlows(save) == [];
  }

  lemma PrefixesUnder<T>(before: seq<T>, a: seq<T>, b: seq<T>, c: seq<T>, all: seq<T>)
    requires a <= b <= c && before + c <= all
    ensures before + a <= before + b <= all
  {
  }

  /** After an error too: what was announced was saved before, and what was saved is the
      beginning of what was received. */
  lemma CutShortMeaning<F(!new)>(batches: seq<seq<F>>, n: nat, retries: seq<nat>, trace: seq<Event<F>>, max: nat)
    requires n < |batches| && |retries| == n
    requires CutShort(FlushedAll(batches[..n], retries), trace, batches[n], max)
    ensures AnnouncedFlows(trace) <= SavedFlows(trace) <= Concat(batches)
  {
    var before := FlushedAll(batches[..n], retries);
    var tail :| trace == before + tail && Aborted(batches[n], max, tail);
    AbortedMeaning(batches[n], max, tail);
    TraceConserves(batches[..n], retries);
    SavedConcat(before, tail);
    AnnouncedConcat(before, tail);
    ConcatPrefix(batches, n);
    PrefixesUnder(Concat(batches[..n]), AnnouncedFlows(tail), SavedFlows(tail), batches[n], Concat(batches));
  }

  /** What a run has saved and announced, however it ended. */
  lemma RunMeaning<F(!new)>(incoming: seq<F>, size: nat, max: nat, ok: bool, done: seq<seq<F>>, retries: seq<nat>,
                            trace: seq<Event<F>>, made: nat, answers: nat -> SaveAnswer)
    requires RunLeaves(incoming, size, max, ok, done, retries, trace) && AnsweredBy(trace, made, answers)
    ensures AnnouncedFlows(trace) <= SavedFlows(trace) <= incoming && (ok ==> AnnouncedFlows(trace) == incoming)
    ensures incoming != [] && (forall n: nat :: answers(n) == Permanent) ==> !ok && AnnouncedFlows(trace) == []
  {
    BatchesMeaning(incoming, size);
    if ok {
      SavedIsReceived(incoming, size, retries);
    } else {
      CutShortMeaning(Batches(incoming, size), |done|, retries, trace, max);
    }
    NoneSaved(trace, made, answers);
  }
}
