/** `llm_deep_clean_phase2_optimized.py`: the parallel deep-cleaning driver. Every
    entry is one English/Hindi pair; the model is asked for a cleaned pair, and the
    answer (or the original pair, when the call or its answer goes wrong) is written
    out; an entry missing either text fails. It numbers the entries itself and
    filters them exactly as the Phase 2 driver does. The model API and the JSON
    decoder are parameters; the thread pool is a completion order. */
module DeepClean {
  import opened Wrappers
  import opened Sequences
  import opened Strings
  import opened CheckpointStore
  import opened ParallelProcessor
  import opened Resume
  import opened Fence
  import opened Json
  import opened Progress
  import Phase2

  /** The `max_retries` the driver builds its processor with. */
  const MaxRetries := 3

  /** One output line: the `english` and `hindi` values of the cleaned (or the
      original) pair, whatever JSON they hold. */
  datatype Pair = Pair(english: Json, hindi: Json)

  /** The entry's own pair. */
  function Original(entry: Fields): Pair
    requires Has(entry, "english") && Has(entry, "hindi")
  {
    Pair(Get(entry, "english").value, Get(entry, "hindi").value)
  }

  /** The JSON text `json.loads` is given: the stripped reply, unfenced. */
  function Answer(content: string): string {
    Unfence(Strip(content))
  }

  /** `llm_clean_pair(entry, entry_num)`, given the model's reply (its message content,
      or the error the API call raised) and the JSON decoder. The prompt reads the
      entry's `english` and `hindi` before the `try`, so a missing one raises
      `KeyError`. Past that nothing raises: the result holds exactly one pair, the
      answer's values (each defaulting to the entry's) when the answer decodes to an
      object, and the original pair on any error, a non-object answer included
      (it has no `.get`). */
  function CleanPair(entry: Fields, reply: Result<string, string>, decode: string -> Result<Json, string>)
    : (o: CallOutcome<Pair>)
    ensures o.Raised? <==> !Has(entry, "english") || !Has(entry, "hindi")
    ensures o.Raised? ==> o.message == KeyErrorMessage(if Has(entry, "english") then "hindi" else "english")
    ensures o.Returned? ==> o.chunks.Some? && |o.chunks.value| == 1
    ensures o.Returned? ==>
      o.reportedSuccess == Some(Decoded(reply, decode).Ok? && Decoded(reply, decode).value.Obj?)
    ensures o.Returned? && o.reportedSuccess == Some(false) ==> o.chunks.value == [Original(entry)]
    ensures o.Returned? && o.reportedSuccess == Some(true) ==>
      var c := Decoded(reply, decode).value.fields;
      o.chunks.value == [Pair(Get(c, "english").GetOr(Original(entry).english),
                              Get(c, "hindi").GetOr(Original(entry).hindi))]
  {
    if !Has(entry, "english") then Raised(KeyErrorMessage("english"))
    else if !Has(entry, "hindi") then Raised(KeyErrorMessage("hindi"))
    else
      var p := Original(entry);
      match Decoded(reply, decode)
      case Err(_) => Returned(Some([p]), Some(false))
      case Ok(v) =>
        if v.Obj? then
          Returned(Some([Pair(Get(v.fields, "english").GetOr(p.english), Get(v.fields, "hindi").GetOr(p.hindi))]), Some(true))
        else Returned(Some([p]), Some(false))
  }

  /** A reply the model wraps in a `json` fence, naming both keys, is written as it
      names them. */
  lemma FencedReplyCleans(entry: Fields, content: string, body: string, rest: string,
                          decode: string -> Result<Json, string>, fields: Fields)
    requires Has(entry, "english") && Has(entry, "hindi")
    requires Strip(content) == Tick + "json" + body + Tick + rest
    requires !Contains(body, Tick) && (body == [] || body[|body| - 1] != '`')
    requires decode(Strip(body)) == Ok(Obj(fields)) && Has(fields, "english") && Has(fields, "hindi")
    ensures CleanPair(entry, Ok(content), decode)
         == Returned(Some([Pair(Get(fields, "english").value, Get(fields, "hindi").value)]), Some(true))
  {
    AnswerOfFenced(content, body, rest);
  }

  lemma AnswerOfFenced(content: string, body: string, rest: string)
    requires Strip(content) == Tick + "json" + body + Tick + rest
    requires !Contains(body, Tick) && (body == [] || body[|body| - 1] != '`')
    ensures Answer(content) == Strip(body)
  {
    UnfenceTagged(body, rest);
  }

  /** The work function `process_with_retry` calls: attempt `a` on entry `e` gets the
      reply `reply(e, a)`. */
  function Work(reply: (Entry<Fields>, nat) -> Result<string, string>,
                decode: string -> Result<Json, string>): (Entry<Fields>, int, nat) -> CallOutcome<Pair> {
    (e: Entry<Fields>, id: int, a: nat) => CleanPair(e.payload, reply(e, a), decode)
  }

  /** For an entry holding both keys the cleaning call never raises, so
      `process_with_retry` calls it once and reports a success holding that one pair,
      even when the model failed. */
  lemma CleanedOnce(e: Entry<Fields>, id: int, reply: (Entry<Fields>, nat) -> Result<string, string>,
                    decode: string -> Result<Json, string>)
    requires Has(e.payload, "english") && Has(e.payload, "hindi")
    ensures var work := Work(reply, decode);
      var run := Retry(MaxRetries, id, a => work(e, id, a));
      && run.calls == 1 && run.sleeps == []
      && run.result.success && run.result.error == None && run.result.entryId == id
      && run.result.data == CleanPair(e.payload, reply(e, 0), decode).chunks.value
      && run.result.chunksCreated == 1
  {
    var work := Work(reply, decode);
    var w := a => work(e, id, a);
    assert w(0) == CleanPair(e.payload, reply(e, 0), decode);
    FirstReturnWins(MaxRetries, id, w, 0);
  }

  /** An entry missing `english` or `hindi` raises `KeyError` on every attempt: three
      calls, sleeps of 1 and 2 seconds, and a failure with no pair. */
  lemma MissingKeyFails(e: Entry<Fields>, id: int, reply: (Entry<Fields>, nat) -> Result<string, string>,
                        decode: string -> Result<Json, string>)
    requires !Has(e.payload, "english") || !Has(e.payload, "hindi")
    ensures var work := Work(reply, decode);
      var run := Retry(MaxRetries, id, a => work(e, id, a));
      && run.calls == 3 && run.sleeps == [1, 2]
      && !run.result.success && run.result.entryId == id
      && run.result.data == [] && run.result.chunksCreated == 0
      && run.result.error == Some(KeyErrorMessage(if Has(e.payload, "english") then "hindi" else "english"))
  {
    var work := Work(reply, decode);
    var w := (a: nat) => work(e, id, a);
    forall a | 0 <= a < MaxRetries ensures w(a).Raised? {
      assert w(a) == CleanPair(e.payload, reply(e, a), decode);
    }
    assert w(2) == CleanPair(e.payload, reply(e, 2), decode);
    Exhausted(MaxRetries, id, w);
    assert Backoff(2) == [1, 2] by {
      assert Backoff(1) == [1];
    }
  }

  /** The loading loop's numbering: entry `i` (from 0) becomes number `i + 1`, any
      `entry_num` the line held being overwritten. */
  function Numbered(raw: seq<Entry<Fields>>): (all: seq<Entry<Fields>>)
    ensures |all| == |raw|
    ensures forall i :: 0 <= i < |raw| ==> all[i].payload == raw[i].payload && StoredId(all[i]) == i + 1
  {
    seq(|raw|, i requires 0 <= i < |raw| => Entry(raw[i].payload, Some(i + 1)))
  }

  /** The numbers are 1, 2, ... in order, so no two entries share one. */
  lemma NumberedIds(raw: seq<Entry<Fields>>)
    ensures forall i :: 0 <= i < |raw| ==> Numbered(raw)[i].entryNum.Some?
    ensures forall i, j :: 0 <= i < j < |raw| ==> StoredId(Numbered(raw)[i]) != StoredId(Numbered(raw)[j])
  {
  }

  /** `for i, line in enumerate(f, 1): entry['entry_num'] = i`. */
  method NumberEntries(raw: seq<Entry<Fields>>) returns (all: seq<Entry<Fields>>)
    ensures all == Numbered(raw)
  {
    all := [];
    for i := 0 to |raw|
      invariant |all| == i
      invariant forall k :: 0 <= k < i ==> all[k] == Entry(raw[k].payload, Some(k + 1))
    {
      var entry := raw[i].(entryNum := Some(i + 1));
      all := all + [entry];
    }
  }

  /** The pairs `on_progress` writes for a result: all of its data, success or not. */
  function WrittenOf(r: ProcessingResult<Pair>): seq<Pair> {
    r.data
  }

  /** A result as `process_with_retry` builds it: its chunk count is its data's
      length. */
  predicate Counted(r: ProcessingResult<Pair>) {
    r.chunksCreated == |r.data|
  }

  /** `on_progress(result)`: every pair of the result is written, the entry is marked
      with `len(result.data)` chunks, and the checkpoint is saved when the running
      total reaches a multiple of `checkpoint_interval`. */
  method OnProgress(cm: CheckpointManager, interval: int, out: seq<Pair>,
                    result: ProcessingResult<Pair>, fault: SaveFault)
    returns (out': seq<Pair>, saved: bool)
    requires cm.Valid() && interval != 0
    modifies cm
    ensures cm.Valid()
    ensures cm.Rec() == MarkRecord(old(cm.Rec()), Mark(result.entryId, result.success, |result.data|))
    ensures cm.stats.totalProcessed == old(cm.stats.totalProcessed) + 1
    ensures out' == out + WrittenOf(result)
    ensures saved <==> Due(cm.stats.totalProcessed, interval)
    ensures saved && fault == NoFault ==> cm.file.Document? && Loaded(cm.file) == cm.Rec()
    ensures !saved || fault != NoFault ==> cm.file == old(cm.file)
  {
    out' := out;
    for k := 0 to |result.data|
      invariant out' == out + result.data[..k]
      invariant unchanged(cm)
    {
      assert result.data[..k + 1] == result.data[..k] + [result.data[k]];
      out' := out' + [result.data[k]];
    }
    assert result.data[..|result.data|] == result.data;
    cm.MarkProcessed(result.entryId, result.success, |result.data|);
    saved := IsDue(cm.stats.totalProcessed, interval);
    if saved {
      cm.Save(fault);
    }
  }

  /** The callback run over the results in the order they complete; `faults(t)` is how
      the interval save at running total `t` ends. Returns the totals at which it
      saved. */
  method Callbacks(cm: CheckpointManager, interval: int, out: seq<Pair>,
                   rs: seq<ProcessingResult<Pair>>, faults: int -> SaveFault)
    returns (out': seq<Pair>, savedAt: seq<int>)
    requires cm.Valid() && interval != 0
    requires forall j :: 0 <= j < |rs| ==> Counted(rs[j])
    modifies cm
    ensures cm.Valid()
    ensures cm.Rec() == Replay(old(cm.Rec()), Marks(rs))
    ensures out' == out + Outputs(rs, WrittenOf)
    ensures savedAt == DueTotals(old(cm.stats.totalProcessed), |rs|, interval)
  {
    ghost var r0 := cm.Rec();
    var base := cm.stats.totalProcessed;
    out', savedAt := out, [];
    for i := 0 to |rs|
      invariant cm.Valid()
      invariant cm.Rec() == Replay(r0, Marks(rs[..i]))
      invariant cm.stats.totalProcessed == base + i
      invariant out' == out + Outputs(rs[..i], WrittenOf)
      invariant savedAt == DueTotals(base, i, interval)
    {
      Step(r0, rs, i, WrittenOf);
      assert Counted(rs[i]);
      var saved;
      out', saved := OnProgress(cm, interval, out', rs[i], faults(base + i + 1));
      assert out' == out + (Outputs(rs[..i], WrittenOf) + WrittenOf(rs[i])) by {
        AppendAssoc(out, Outputs(rs[..i], WrittenOf), WrittenOf(rs[i]));
      }
      DueStep(base, i, interval, saved);
      if saved {
        savedAt := savedAt + [base + i + 1];
      }
    }
    assert rs[..|rs|] == rs;
  }

  /** A result of a batch is a success exactly when its entry holds both keys; it
      then holds the one pair `llm_clean_pair` returned, and otherwise no pair. */
  lemma BatchShape(todo: seq<Entry<Fields>>, reply: (Entry<Fields>, nat) -> Result<string, string>,
                   decode: string -> Result<Json, string>, order: seq<nat>, j: nat)
    requires AllBelow(order, |todo|) && j < |order|
    ensures var e := todo[order[j]];
      var r := Permuted(BatchResults(todo, MaxRetries, Work(reply, decode)), order)[j];
      && Counted(r)
      && (r.success <==> Has(e.payload, "english") && Has(e.payload, "hindi"))
      && (r.success ==> r.data == CleanPair(e.payload, reply(e, 0), decode).chunks.value && |r.data| == 1)
      && (!r.success ==> r.data == [])
  {
    var i := order[j];
    var e := todo[i];
    if Has(e.payload, "english") && Has(e.payload, "hindi") {
      CleanedOnce(e, EntryId(todo, i), reply, decode);
    } else {
      MissingKeyFails(e, EntryId(todo, i), reply, decode);
    }
  }

  /** So every result whose callback runs has its chunk count right. */
  lemma HandledCounted(todo: seq<Entry<Fields>>, reply: (Entry<Fields>, nat) -> Result<string, string>,
                       decode: string -> Result<Json, string>, order: seq<nat>, interrupt: Option<nat>)
    requires AllBelow(order, |todo|)
    ensures var h := Handled(Permuted(BatchResults(todo, MaxRetries, Work(reply, decode)), order), interrupt);
      forall j :: 0 <= j < |h| ==> Counted(h[j])
  {
    var full := Permuted(BatchResults(todo, MaxRetries, Work(reply, decode)), order);
    var h := Handled(full, interrupt);
    forall j | 0 <= j < |h| ensures Counted(h[j]) {
      BatchShape(todo, reply, decode, order, j);
      assert h[j] == full[j];
    }
  }

  /** `process_llm_cleaning_optimized(...)`. `f` is the checkpoint file and `outFile`
      the output file at the start; `raw` the decoded input lines; `reply` and `decode`
      stand for the model and `json.loads`; `order` is the completion order; the
      interval saves end as `faults` says and the last save (after the batch, or in
      the interrupt handler) as `finalFault`. */
  method ProcessDeepClean(f: FileContent, raw: seq<Entry<Fields>>, resume: bool, clear: bool,
                          interval: int, outFile: seq<Pair>,
                          reply: (Entry<Fields>, nat) -> Result<string, string>,
                          decode: string -> Result<Json, string>,
                          order: seq<nat>, interrupt: Option<nat>,
                          faults: int -> SaveFault, finalFault: SaveFault)
    returns (cm: CheckpointManager, out: seq<Pair>, handled: seq<ProcessingResult<Pair>>,
             outcome: Outcome)
    requires interval != 0
    requires IsPermutationOf(order, |Phase2.Selected(Numbered(raw), Phase2.Start(f, clear).ids, resume)|)
    ensures cm.Valid()
    ensures AllBelow(order, |Phase2.Selected(Numbered(raw), Phase2.Start(f, clear).ids, resume)|)
    ensures outcome == AllDone <==> Phase2.Selected(Numbered(raw), Phase2.Start(f, clear).ids, resume) == []
    ensures outcome == AllDone ==>
      && cm.Rec() == Phase2.Start(f, clear) && cm.file == (if clear then Absent else f)
      && out == outFile && handled == []
    ensures outcome != AllDone ==>
      var todo := Phase2.Selected(Numbered(raw), Phase2.Start(f, clear).ids, resume);
      var full := Permuted(BatchResults(todo, MaxRetries, Work(reply, decode)), order);
      && handled == Handled(full, interrupt)
      && (outcome == Interrupted <==> |handled| < |full|)
      && cm.Rec() == Replay(Phase2.Start(f, clear), Marks(handled))
      && out == (if resume then outFile else []) + Outputs(handled, WrittenOf)
      && (finalFault == NoFault ==> cm.file.Document? && Loaded(cm.file) == cm.Rec())
  {
    cm := new CheckpointManager(f);
    if clear {
      cm.Clear();
    }
    ghost var start := Phase2.Start(f, clear);
    var all := NumberEntries(raw);
    var todo := if resume || |cm.processedIds| > 0 then Unprocessed(all, cm.processedIds) else all;
    assert todo == Phase2.Selected(Numbered(raw), start.ids, resume);
    PermutationBounds(order, |todo|);
    if |todo| == 0 {
      return cm, outFile, [], AllDone;
    }
    out, handled, outcome := RunBatch(cm, todo, interval, if resume then outFile else [],
                                      reply, decode, order, interrupt, faults, finalFault);
  }

  /** The `try` block and its interrupt handler: the batch with its callbacks, then
      the final save, which also runs when the user interrupts. `out0` is the output
      file as opened. */
  method RunBatch(cm: CheckpointManager, todo: seq<Entry<Fields>>, interval: int, out0: seq<Pair>,
                  reply: (Entry<Fields>, nat) -> Result<string, string>,
                  decode: string -> Result<Json, string>,
                  order: seq<nat>, interrupt: Option<nat>,
                  faults: int -> SaveFault, finalFault: SaveFault)
    returns (out: seq<Pair>, handled: seq<ProcessingResult<Pair>>, outcome: Outcome)
    requires cm.Valid() && interval != 0 && IsPermutationOf(order, |todo|)
    modifies cm
    ensures cm.Valid() && AllBelow(order, |todo|)
    ensures var full := Permuted(BatchResults(todo, MaxRetries, Work(reply, decode)), order);
      && handled == Handled(full, interrupt)
      && outcome != AllDone
      && (outcome == Interrupted <==> |handled| < |full|)
      && cm.Rec() == Replay(old(cm.Rec()), Marks(handled))
      && out == out0 + Outputs(handled, WrittenOf)
      && (finalFault == NoFault ==> cm.file.Document? && Loaded(cm.file) == cm.Rec())
  {
    var full := ProcessBatch(todo, MaxRetries, Work(reply, decode), order);
    handled := Handled(full, interrupt);
    HandledCounted(todo, reply, decode, order, interrupt);
    outcome := if |handled| < |full| then Interrupted else Completed;
    var due;
    out, due := Callbacks(cm, interval, out0, handled, faults);
    cm.Save(finalFault);
  }

  /** A run writes exactly one pair per handled entry, in completion order. */
  lemma {:induction false} OnePairEach(rs: seq<ProcessingResult<Pair>>)
    requires forall j :: 0 <= j < |rs| ==> |rs[j].data| == 1
    ensures |Outputs(rs, WrittenOf)| == |rs|
    ensures forall j :: 0 <= j < |rs| ==> Outputs(rs, WrittenOf)[j] == rs[j].data[0]
    decreases |rs|
  {
    if |rs| > 0 {
      var init := rs[..|rs| - 1];
      OnePairEach(init);
      assert forall j :: 0 <= j < |init| ==> init[j] == rs[j];
    }
  }

  /** Because entries are numbered by the driver itself, a run that completes and
      saves leaves a checkpoint under which the next run submits nothing. */
  lemma CompletedRunCoversAll<C>(raw: seq<Entry<Fields>>, r0: Record, resume: bool,
                                 work: (Entry<Fields>, int, nat) -> CallOutcome<C>, order: seq<nat>)
    requires IsPermutationOf(order, |Phase2.Selected(Numbered(raw), r0.ids, resume)|)
    ensures AllBelow(order, |Phase2.Selected(Numbered(raw), r0.ids, resume)|)
    ensures var rs := Permuted(BatchResults(Phase2.Selected(Numbered(raw), r0.ids, resume), Phase2.MaxRetries, work), order);
      Phase2.Selected(Numbered(raw), Replay(r0, Marks(rs)).ids, resume) == []
  {
    NumberedIds(raw);
    Phase2.CompletedRunCoversNumbered(Numbered(raw), r0, resume, work, order);
  }
}
