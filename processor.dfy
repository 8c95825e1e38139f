/** The retrying batch engine of `utils/parallel_llm.py`. The work function is an
    abstract outcome per entry, id and attempt number; the order in which the thread
    pool completes a batch is a permutation parameter; rate limiting and sleeping are
    left out except for the list of backoff delays the retry loop would sleep. */
module ParallelProcessor {
  import opened Wrappers
  import opened Sequences

  /** An entry dictionary: its payload and its optional `entry_num` key. */
  datatype Entry<E> = Entry(payload: E, entryNum: Option<int>)

  /** What one call of `process_func` does: raise (with `str(e)`), or return a
      dictionary whose `chunks` key may be missing and whose `success` key, if any,
      is never looked at. A returned value without `.get`, or a `chunks` value
      without a length, raises inside the `try` and is a `Raised` outcome. */
  datatype CallOutcome<C> =
    | Raised(message: string)
    | Returned(chunks: Option<seq<C>>, reportedSuccess: Option<bool>)

  /** `ProcessingResult`. */
  datatype ProcessingResult<C> =
    ProcessingResult(entryId: int, success: bool, data: seq<C>, error: Option<string>,
                     chunksCreated: int)

  /** What a run of the retry loop produces: the result, how many calls were made,
      and the delays slept, in order. */
  datatype RetryRun<C> = RetryRun(result: ProcessingResult<C>, calls: nat, sleeps: seq<nat>)

  function Pow2(n: nat): (p: nat)
    ensures p >= 1
  {
    if n == 0 then 1 else 2 * Pow2(n - 1)
  }

  /** The delays 2**0, ..., 2**(n-1). */
  function Backoff(n: nat): (b: seq<nat>)
    ensures |b| == n
  {
    if n == 0 then [] else Backoff(n - 1) + [Pow2(n - 1)]
  }

  /** The delay slept after failed attempt `a` is 2**a seconds. */
  lemma {:induction false} BackoffAt(n: nat)
    ensures forall a :: 0 <= a < n ==> Backoff(n)[a] == Pow2(a)
  {
    if n > 0 {
      BackoffAt(n - 1);
      assert forall a :: 0 <= a < n - 1 ==> Backoff(n)[a] == Backoff(n - 1)[a];
    }
  }

  function Sum(xs: seq<nat>): nat {
    if |xs| == 0 then 0 else Sum(xs[..|xs| - 1]) + xs[|xs| - 1]
  }

  /** The total backoff after n failed attempts that each slept is 2**n - 1 seconds. */
  lemma {:induction false} BackoffTotal(n: nat)
    ensures Sum(Backoff(n)) == Pow2(n) - 1
  {
    if n > 0 {
      BackoffTotal(n - 1);
      assert Backoff(n)[..n - 1] == Backoff(n - 1);
    }
  }

  function Failure<C>(id: int, lastError: Option<string>): ProcessingResult<C> {
    ProcessingResult(id, false, [], lastError, 0)
  }

  function Success<C>(id: int, chunks: Option<seq<C>>): ProcessingResult<C> {
    var data := chunks.GetOr([]);
    ProcessingResult(id, true, data, None, |data|)
  }

  /** The retry loop from attempt `attempt` on, `lastError` being the message of the
      attempt before. */
  function RetryFrom<C>(maxRetries: int, id: int, work: nat -> CallOutcome<C>,
                        attempt: nat, lastError: Option<string>): RetryRun<C>
    decreases maxRetries - attempt
  {
    if attempt >= maxRetries then RetryRun(Failure(id, lastError), attempt, [])
    else
      match work(attempt)
      case Returned(chunks, _) => RetryRun(Success(id, chunks), attempt + 1, [])
      case Raised(msg) =>
        var rest := RetryFrom(maxRetries, id, work, attempt + 1, Some(msg));
        var slept := if attempt < maxRetries - 1 then [Pow2(attempt)] else [];
        RetryRun(rest.result, rest.calls, slept + rest.sleeps)
  }

  /** `process_with_retry` as a value: attempt `a` of `work` is `work(a)`. */
  function Retry<C>(maxRetries: int, id: int, work: nat -> CallOutcome<C>): RetryRun<C> {
    RetryFrom(maxRetries, id, work, 0, None)
  }

  /** `process_with_retry(process_func, entry, entry_id)`: call `work` until one call
      returns, at most `maxRetries` times, sleeping 2**attempt after every failed
      attempt but the last. */
  method ProcessWithRetry<C>(maxRetries: int, id: int, work: nat -> CallOutcome<C>)
    returns (r: ProcessingResult<C>, calls: nat, sleeps: seq<nat>)
    ensures Retry(maxRetries, id, work) == RetryRun(r, calls, sleeps)
  {
    var lastError: Option<string> := None;
    var attempt: nat := 0;
    sleeps := [];
    while attempt < maxRetries
      invariant attempt == 0 ==> lastError == None
      invariant attempt <= maxRetries || attempt == 0
      invariant var x := RetryFrom(maxRetries, id, work, attempt, lastError);
        Retry(maxRetries, id, work) == RetryRun(x.result, x.calls, sleeps + x.sleeps)
      decreases maxRetries - attempt
    {
      var outcome := work(attempt);
      match outcome {
        case Returned(chunks, _) =>
          r, calls := Success(id, chunks), attempt + 1;
          assert sleeps + [] == sleeps;
          return;
        case Raised(msg) =>
          ghost var rest := RetryFrom(maxRetries, id, work, attempt + 1, Some(msg));
          ghost var slept: seq<nat> := if attempt < maxRetries - 1 then [Pow2(attempt)] else [];
          assert RetryFrom(maxRetries, id, work, attempt, lastError)
              == RetryRun(rest.result, rest.calls, slept + rest.sleeps);
          assert sleeps + (slept + rest.sleeps) == (sleeps + slept) + rest.sleeps;
          lastError := Some(msg);
          if attempt < maxRetries - 1 {
            sleeps := sleeps + [Pow2(attempt)];
          } else {
            assert sleeps + slept == sleeps;
          }
      }
      attempt := attempt + 1;
    }
    r, calls := Failure(id, lastError), attempt;
    assert sleeps + [] == sleeps;
  }

  /** No attempt, or all attempts, or a prefix of the attempts raised. */
  predicate RaisedBefore<C>(work: nat -> CallOutcome<C>, k: nat) {
    forall a :: 0 <= a < k ==> work(a).Raised?
  }

  /** If the first `k` calls raise and call `k` (within the budget) returns, the
      result is a success carrying that call's `chunks` (default `[]`), whatever the
      returned `success` key said; `k + 1` calls were made, with backoff after each
      failure. */
  lemma {:induction false} FirstReturnWins<C>(maxRetries: int, id: int,
                                              work: nat -> CallOutcome<C>, k: nat)
    requires k < maxRetries && RaisedBefore(work, k) && work(k).Returned?
    ensures var run := Retry(maxRetries, id, work);
      && run.result.success
      && run.result.entryId == id
      && run.result.data == work(k).chunks.GetOr([])
      && run.result.chunksCreated == |run.result.data|
      && run.result.error == None
      && run.calls == k + 1
      && run.sleeps == Backoff(k)
  {
    FirstReturnFrom(maxRetries, id, work, k, 0, None);
    var run := Retry(maxRetries, id, work);
    assert Backoff(0) + run.sleeps == run.sleeps;
  }

  lemma {:induction false} FirstReturnFrom<C>(maxRetries: int, id: int,
                                              work: nat -> CallOutcome<C>, k: nat,
                                              attempt: nat, lastError: Option<string>)
    requires attempt <= k < maxRetries && RaisedBefore(work, k) && work(k).Returned?
    ensures var run := RetryFrom(maxRetries, id, work, attempt, lastError);
      && run.result == Success(id, work(k).chunks)
      && run.calls == k + 1
      && Backoff(attempt) + run.sleeps == Backoff(k)
    decreases k - attempt
  {
    if attempt < k {
      var msg := work(attempt).message;
      FirstReturnFrom(maxRetries, id, work, k, attempt + 1, Some(msg));
      assert Backoff(attempt + 1) == Backoff(attempt) + [Pow2(attempt)];
    }
  }

  /** If every one of the `maxRetries >= 1` attempts raises, the result is a failure
      with no data, no chunks, and the last attempt's message as its error; every
      attempt was made and all but the last slept (`BackoffTotal` sums those delays
      to `2**(maxRetries-1) - 1` seconds). */
  lemma {:induction false} Exhausted<C>(maxRetries: nat, id: int, work: nat -> CallOutcome<C>)
    requires maxRetries >= 1 && RaisedBefore(work, maxRetries)
    ensures var run := Retry(maxRetries, id, work);
      && !run.result.success
      && run.result.entryId == id
      && run.result.data == []
      && run.result.chunksCreated == 0
      && run.result.error == Some(work(maxRetries - 1).message)
      && run.calls == maxRetries
      && run.sleeps == Backoff(maxRetries - 1)
  {
    ExhaustedFrom(maxRetries, id, work, 0, None);
    var run := Retry(maxRetries, id, work);
    assert Backoff(0) + run.sleeps == run.sleeps;
  }

  lemma {:induction false} ExhaustedFrom<C>(maxRetries: nat, id: int,
                                            work: nat -> CallOutcome<C>,
                                            attempt: nat, lastError: Option<string>)
    requires attempt < maxRetries && RaisedBefore(work, maxRetries)
    ensures var run := RetryFrom(maxRetries, id, work, attempt, lastError);
      && run.result == Failure(id, Some(work(maxRetries - 1).message))
      && run.calls == maxRetries
      && Backoff(attempt) + run.sleeps == Backoff(maxRetries - 1)
    decreases maxRetries - attempt
  {
    var msg := work(attempt).message;
    if attempt + 1 < maxRetries {
      ExhaustedFrom(maxRetries, id, work, attempt + 1, Some(msg));
      assert Backoff(attempt + 1) == Backoff(attempt) + [Pow2(attempt)];
    } else {
      assert Backoff(attempt) + [] == Backoff(attempt);
    }
  }

  /** With `max_retries <= 0` the work function is never called and the result is a
      failure whose error is `None`. */
  lemma NoBudget<C>(maxRetries: int, id: int, work: nat -> CallOutcome<C>)
    requires maxRetries <= 0
    ensures Retry(maxRetries, id, work) == RetryRun(Failure(id, None), 0, [])
  {
  }

  /** At most `max_retries` calls, and at least one when the budget allows one; the
      result is a success exactly when some attempt within the budget returned. */
  lemma {:induction false} RetryShape<C>(maxRetries: int, id: int, work: nat -> CallOutcome<C>,
                                         attempt: nat, lastError: Option<string>)
    ensures var run := RetryFrom(maxRetries, id, work, attempt, lastError);
      && (attempt < maxRetries ==> attempt < run.calls <= maxRetries)
      && (attempt >= maxRetries ==> run.calls == attempt)
      && run.result.entryId == id
      && (run.result.success <==> exists a :: attempt <= a < maxRetries && work(a).Returned?)
      && (run.result.success ==> run.result.error == None
                                 && run.result.chunksCreated == |run.result.data|)
      && (!run.result.success ==> run.result.data == [] && run.result.chunksCreated == 0)
    decreases maxRetries - attempt
  {
    if attempt < maxRetries && work(attempt).Raised? {
      RetryShape(maxRetries, id, work, attempt + 1, Some(work(attempt).message));
      var run := RetryFrom(maxRetries, id, work, attempt, lastError);
      if !run.result.success {
        assert forall a :: attempt <= a < maxRetries ==> work(a).Raised? by {
          forall a | attempt <= a < maxRetries ensures work(a).Raised? {
            if a > attempt {
              assert !(attempt + 1 <= a < maxRetries && work(a).Returned?);
            }
          }
        }
      }
    }
  }

  /** The id `process_batch` gives the entry at index `i`: its `entry_num`, else `i`. */
  function EntryId<E>(entries: seq<Entry<E>>, i: nat): int
    requires i < |entries|
  {
    entries[i].entryNum.GetOr(i)
  }

  /** The result of entry `i` of a batch. */
  function EntryResult<E, C>(entries: seq<Entry<E>>, i: nat, maxRetries: int,
                             work: (Entry<E>, int, nat) -> CallOutcome<C>): ProcessingResult<C>
    requires i < |entries|
  {
    var id := EntryId(entries, i);
    Retry(maxRetries, id, a => work(entries[i], id, a)).result
  }

  /** The results of a batch in submission order. */
  function BatchResults<E, C>(entries: seq<Entry<E>>, maxRetries: int,
                              work: (Entry<E>, int, nat) -> CallOutcome<C>): (rs: seq<ProcessingResult<C>>)
    ensures |rs| == |entries|
    ensures forall i :: 0 <= i < |entries| ==> rs[i] == EntryResult(entries, i, maxRetries, work)
  {
    seq(|entries|, i requires 0 <= i < |entries| => EntryResult(entries, i, maxRetries, work))
  }

  /** `process_batch(entries, process_func, callback)`: every entry is submitted with
      its id, and the results are collected in completion order `order`, one per
      entry; the callback sees them in that same order. */
  method ProcessBatch<E, C>(entries: seq<Entry<E>>, maxRetries: int,
                            work: (Entry<E>, int, nat) -> CallOutcome<C>, order: seq<nat>)
    returns (results: seq<ProcessingResult<C>>)
    requires IsPermutationOf(order, |entries|)
    ensures AllBelow(order, |entries|)
    ensures results == Permuted(BatchResults(entries, maxRetries, work), order)
    ensures |results| == |entries|
    ensures multiset(results) == multiset(BatchResults(entries, maxRetries, work))
  {
    var futures: seq<ProcessingResult<C>> := [];
    for i := 0 to |entries|
      invariant futures == BatchResults(entries[..i], maxRetries, work)
    {
      var id := entries[i].entryNum.GetOr(i);
      var r, _, _ := ProcessWithRetry(maxRetries, id, a => work(entries[i], id, a));
      assert forall k :: 0 <= k < i ==>
        EntryResult(entries[..i + 1], k, maxRetries, work) == EntryResult(entries[..i], k, maxRetries, work);
      futures := futures + [r];
    }
    assert entries[..|entries|] == entries;
    PermutationBounds(order, |entries|);
    results := [];
    for j := 0 to |order|
      invariant results == Permuted(futures, order[..j])
    {
      results := results + [futures[order[j]]];
    }
    assert order[..|order|] == order;
    PermutedMultiset(futures, order);
  }

  /** Every window's completion order is a permutation of its indices. */
  ghost predicate OrdersArePermutations(orderFor: (nat, nat) -> seq<nat>) {
    forall w: nat, n: nat {:trigger IsPermutationOf(orderFor(w, n), n)} :: IsPermutationOf(orderFor(w, n), n)
  }

  /** The results of one window completing in `order` (which `ProcessStream` only
      ever passes as a permutation of the window's indices). */
  function WindowResults<E, C>(window: seq<Entry<E>>, maxRetries: int,
                               work: (Entry<E>, int, nat) -> CallOutcome<C>,
                               order: seq<nat>): (r: seq<ProcessingResult<C>>)
    ensures |r| == |window|
  {
    var rs := BatchResults(window, maxRetries, work);
    if |order| == |window| && AllBelow(order, |window|) then Permuted(rs, order) else rs
  }

  /** The results `process_stream` yields for the windows `ws`, window `w`
      completing in order `orderFor(w, len(window))`. */
  function StreamResults<E, C>(ws: seq<seq<Entry<E>>>, maxRetries: int,
                               work: (Entry<E>, int, nat) -> CallOutcome<C>,
                               orderFor: (nat, nat) -> seq<nat>): seq<ProcessingResult<C>>
    decreases |ws|
  {
    if |ws| == 0 then []
    else
      var w := |ws| - 1;
      StreamResults(ws[..w], maxRetries, work, orderFor)
        + WindowResults(ws[w], maxRetries, work, orderFor(w, |ws[w]|))
  }

  /** One result per entry of the windows. */
  lemma {:induction false} StreamResultsLength<E, C>(ws: seq<seq<Entry<E>>>, maxRetries: int,
                                                     work: (Entry<E>, int, nat) -> CallOutcome<C>,
                                                     orderFor: (nat, nat) -> seq<nat>)
    ensures |StreamResults(ws, maxRetries, work, orderFor)| == |Flatten(ws)|
    decreases |ws|
  {
    if |ws| > 0 {
      var w := |ws| - 1;
      var init := ws[..w];
      StreamResultsLength(init, maxRetries, work, orderFor);
      assert |StreamResults(ws, maxRetries, work, orderFor)|
             == |StreamResults(init, maxRetries, work, orderFor)| + |ws[w]|;
      FlattenLast(ws);
    }
  }

  lemma StreamResultsSnoc<E, C>(ws: seq<seq<Entry<E>>>, batch: seq<Entry<E>>, maxRetries: int,
                                work: (Entry<E>, int, nat) -> CallOutcome<C>,
                                orderFor: (nat, nat) -> seq<nat>)
    ensures StreamResults(ws + [batch], maxRetries, work, orderFor)
         == StreamResults(ws, maxRetries, work, orderFor)
            + WindowResults(batch, maxRetries, work, orderFor(|ws|, |batch|))
  {
    assert (ws + [batch])[..|ws|] == ws;
  }

  /** Processing one gathered window and appending what it yields. */
  method FlushWindow<E, C>(batch: seq<Entry<E>>, windows: seq<seq<Entry<E>>>,
                           results: seq<ProcessingResult<C>>, maxRetries: int,
                           work: (Entry<E>, int, nat) -> CallOutcome<C>,
                           orderFor: (nat, nat) -> seq<nat>)
    returns (windows': seq<seq<Entry<E>>>, results': seq<ProcessingResult<C>>)
    requires OrdersArePermutations(orderFor)
    requires results == StreamResults(windows, maxRetries, work, orderFor)
    ensures windows' == windows + [batch]
    ensures results' == StreamResults(windows', maxRetries, work, orderFor)
  {
    var order := orderFor(|windows|, |batch|);
    assert IsPermutationOf(order, |batch|);
    var rs := ProcessBatch(batch, maxRetries, work, order);
    StreamResultsSnoc(windows, batch, maxRetries, work, orderFor);
    windows', results' := windows + [batch], results + rs;
  }

  /** The windows cut so far cover `entries[..start]` and are all full. */
  ghost predicate FullWindows<E>(windows: seq<seq<Entry<E>>>, entries: seq<Entry<E>>,
                                 start: nat, k: nat)
  {
    start <= |entries| && Flatten(windows) == entries[..start]
    && forall w :: 0 <= w < |windows| ==> |windows[w]| == k
  }

  lemma FullWindowsStep<E>(windows: seq<seq<Entry<E>>>, entries: seq<Entry<E>>,
                           start: nat, k: nat, i: nat)
    requires FullWindows(windows, entries, start, k)
    requires start <= i < |entries| && |entries[start..i + 1]| == k
    ensures FullWindows(windows + [entries[start..i + 1]], entries, i + 1, k)
  {
    FlattenSnoc(windows, entries[start..i + 1]);
    assert entries[..start] + entries[start..i + 1] == entries[..i + 1];
  }

  lemma FullWindowsDone<E>(windows: seq<seq<Entry<E>>>, entries: seq<Entry<E>>,
                           start: nat, k: nat)
    requires k >= 1 && FullWindows(windows, entries, start, k)
    requires |entries| - start < k
    ensures var last := entries[start..];
      (if |last| > 0 then windows + [last] else windows) == Groups(entries, k)
  {
    var last := entries[start..];
    if |last| > 0 {
      FlattenSnoc(windows, last);
      assert entries[..start] + last == entries;
      GroupsUnique(windows + [last], entries, k);
    } else {
      assert entries[..start] == entries;
      GroupsUnique(windows, entries, k);
    }
  }

  /** Mid-stream: the full windows cut so far and the results they yielded. */
  ghost predicate StreamSoFar<E, C>(entries: seq<Entry<E>>, start: nat, k: nat,
                                    windows: seq<seq<Entry<E>>>, results: seq<ProcessingResult<C>>,
                                    maxRetries: int, work: (Entry<E>, int, nat) -> CallOutcome<C>,
                                    orderFor: (nat, nat) -> seq<nat>)
  {
    FullWindows(windows, entries, start, k)
    && results == StreamResults(windows, maxRetries, work, orderFor)
  }

  /** A batch that has filled up to `k` entries is processed as the next window. */
  method FlushFull<E, C>(entries: seq<Entry<E>>, start: nat, i: nat, k: nat,
                         windows: seq<seq<Entry<E>>>, results: seq<ProcessingResult<C>>,
                         maxRetries: int, work: (Entry<E>, int, nat) -> CallOutcome<C>,
                         orderFor: (nat, nat) -> seq<nat>)
    returns (windows': seq<seq<Entry<E>>>, results': seq<ProcessingResult<C>>)
    requires OrdersArePermutations(orderFor)
    requires start <= i < |entries| && i + 1 - start == k
    requires StreamSoFar(entries, start, k, windows, results, maxRetries, work, orderFor)
    ensures windows' == windows + [entries[start..i + 1]]
    ensures StreamSoFar(entries, i + 1, k, windows', results', maxRetries, work, orderFor)
  {
    FullWindowsStep(windows, entries, start, k, i);
    windows', results' := FlushWindow(entries[start..i + 1], windows, results, maxRetries, work, orderFor);
  }

  /** `process_stream(entry_iterator, process_func, callback, batch_size)`: entries
      are gathered into a batch that is processed as soon as it holds `batch_size`
      entries, and once more at the end if anything is left. The windows are the
      consecutive slices of `max(batch_size, 1)` entries, so a `batch_size` of 1 or
      less makes every window a single entry; one result is yielded per entry. */
  method ProcessStream<E, C>(entries: seq<Entry<E>>, maxRetries: int,
                             work: (Entry<E>, int, nat) -> CallOutcome<C>,
                             batchSize: int, orderFor: (nat, nat) -> seq<nat>)
    returns (results: seq<ProcessingResult<C>>, windows: seq<seq<Entry<E>>>)
    requires OrdersArePermutations(orderFor)
    ensures windows == Groups(entries, Max(batchSize, 1))
    ensures results == StreamResults(windows, maxRetries, work, orderFor)
    ensures |results| == |entries|
  {
    var k := Max(batchSize, 1);
    var batch: seq<Entry<E>> := [];
    var start := 0;
    results, windows := [], [];
    for i := 0 to |entries|
      invariant start <= i && |batch| < k
      invariant batch == entries[start..i]
      invariant StreamSoFar(entries, start, k, windows, results, maxRetries, work, orderFor)
    {
      SliceSnoc(entries, start, i);
      batch := batch + [entries[i]];
      assert |batch| >= batchSize <==> i + 1 - start == k;
      if |batch| >= batchSize {
        windows, results := FlushFull(entries, start, i, k, windows, results, maxRetries, work, orderFor);
        start := i + 1;
        batch := [];
      }
    }
    windows, results := FlushLast(entries, start, k, windows, results, maxRetries, work, orderFor);
  }

  /** The end of the stream: the partial batch left, if any, is processed as one last
      window, which completes the cut of the entries into windows. */
  method FlushLast<E, C>(entries: seq<Entry<E>>, start: nat, k: nat,
                         windows: seq<seq<Entry<E>>>, results: seq<ProcessingResult<C>>,
                         maxRetries: int, work: (Entry<E>, int, nat) -> CallOutcome<C>,
                         orderFor: (nat, nat) -> seq<nat>)
    returns (windows': seq<seq<Entry<E>>>, results': seq<ProcessingResult<C>>)
    requires OrdersArePermutations(orderFor)
    requires k >= 1 && |entries| - start < k
    requires StreamSoFar(entries, start, k, windows, results, maxRetries, work, orderFor)
    ensures windows' == Groups(entries, k)
    ensures results' == StreamResults(windows', maxRetries, work, orderFor)
    ensures |results'| == |entries|
  {
    var batch := entries[start..];
    FullWindowsDone(windows, entries, start, k);
    windows', results' := windows, results;
    if |batch| > 0 {
      windows', results' := FlushWindow(batch, windows, results, maxRetries, work, orderFor);
    }
    GroupsFlatten(entries, k);
    StreamResultsLength(windows', maxRetries, work, orderFor);
  }
}
