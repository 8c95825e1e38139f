/** `chunk_sentences_phase2_optimized.py`: the parallel Phase 2 driver. It aligns the
    entries Phase 1 could not match by asking the model, through the shared checkpoint
    manager and parallel processor. The model API and the JSON decoder are
    parameters; the thread pool is a completion order. */
module Phase2 {
  import opened Wrappers
  import opened Sequences
  import opened Strings
  import opened CheckpointStore
  import opened ParallelProcessor
  import opened Resume
  import opened Json
  import opened Progress

  /** The `max_retries` the driver builds its processor with. */
  const MaxRetries := 3

  /** The keys the prompt reads from an entry, in the order it reads them. */
  const PromptKeys := ["eng_sentences", "english", "hin_sentences", "hindi"]

  /** One output line: the two texts of a chunk. */
  datatype Line = Line(english: string, hindi: string)

  /** `align_with_llm(entry, entry_num)`, followed by the `len(result.get('chunks', []))`
      of the retry loop's `try`, given the model's reply (its message content, or the
      error the API call raised) and the JSON decoder. The prompt reads four keys of
      the entry before the function's own `try`, so a missing one raises `KeyError`;
      an API or decoding error is caught and becomes an empty chunk list; a decoded
      value without a length makes the retry loop's `len` raise. */
  function AlignWithLlm(entry: Fields, reply: Result<string, string>, decode: string -> Result<Json, string>)
    : (o: CallOutcome<Json>)
    ensures o.Raised? <==> FirstMissing(entry, PromptKeys).Some? || Unsized(Decoded(reply, decode))
    ensures FirstMissing(entry, PromptKeys).Some? ==>
      o == Raised(KeyErrorMessage(FirstMissing(entry, PromptKeys).value))
    ensures FirstMissing(entry, PromptKeys).None? && Unsized(Decoded(reply, decode)) ==>
      o == Raised(NoLenMessage(Decoded(reply, decode).value))
    ensures o.Returned? ==> o.reportedSuccess == Some(Decoded(reply, decode).Ok?)
    ensures o.Returned? ==> o.chunks == Some(ReplyChunks(reply, decode))
  {
    match FirstMissing(entry, PromptKeys)
    case Some(key) => Raised(KeyErrorMessage(key))
    case None =>
      match Decoded(reply, decode)
      case Err(_) => Returned(Some([]), Some(false))
      case Ok(v) => if Sized(v) then Returned(Some(Items(v)), Some(true)) else Raised(NoLenMessage(v))
  }

  /** The chunks of one reply: what iterating over the decoded value visits, or none
      when the call or the decoding failed. */
  function ReplyChunks(reply: Result<string, string>, decode: string -> Result<Json, string>): seq<Json> {
    if Decoded(reply, decode).Ok? then Items(Decoded(reply, decode).value) else []
  }

  /** The work function `process_with_retry` calls: attempt `a` on entry `e` gets the
      reply `reply(e, a)`. */
  function Work(reply: (Entry<Fields>, nat) -> Result<string, string>,
                decode: string -> Result<Json, string>): (Entry<Fields>, int, nat) -> CallOutcome<Json> {
    (e: Entry<Fields>, id: int, a: nat) => AlignWithLlm(e.payload, reply(e, a), decode)
  }

  /** The entry holds the prompt's keys and one of its three replies does not decode
      to a value without a length. */
  ghost predicate Alignable(e: Entry<Fields>, reply: (Entry<Fields>, nat) -> Result<string, string>,
                            decode: string -> Result<Json, string>) {
    && FirstMissing(e.payload, PromptKeys).None?
    && exists a :: 0 <= a < MaxRetries && !Unsized(Decoded(reply(e, a), decode))
  }

  /** An entry's result is a success exactly when it is alignable: a missing prompt
      key fails every attempt, and so does a decoded value without a length. */
  lemma AlignedIff(e: Entry<Fields>, id: int, reply: (Entry<Fields>, nat) -> Result<string, string>,
                   decode: string -> Result<Json, string>)
    ensures var work := Work(reply, decode);
      Retry(MaxRetries, id, a => work(e, id, a)).result.success <==> Alignable(e, reply, decode)
  {
    var work := Work(reply, decode);
    var w := a => work(e, id, a);
    RetryShape(MaxRetries, id, w, 0, None);
    forall a: nat
      ensures w(a).Returned? <==> FirstMissing(e.payload, PromptKeys).None? && !Unsized(Decoded(reply(e, a), decode))
    {
      assert w(a) == AlignWithLlm(e.payload, reply(e, a), decode);
    }
  }

  /** The first attempt whose answer is not a value without a length ends the retry
      loop with a success holding that answer's chunks; a failed API call or an
      undecodable answer shows only as an empty chunk list. The attempts before slept
      1 and 2 seconds. */
  lemma FirstSizedWins(e: Entry<Fields>, id: int, reply: (Entry<Fields>, nat) -> Result<string, string>,
                       decode: string -> Result<Json, string>, k: nat)
    requires FirstMissing(e.payload, PromptKeys).None?
    requires k < MaxRetries && !Unsized(Decoded(reply(e, k), decode))
    requires forall a :: 0 <= a < k ==> Unsized(Decoded(reply(e, a), decode))
    ensures var work := Work(reply, decode);
      var run := Retry(MaxRetries, id, a => work(e, id, a));
      && run.calls == k + 1 && run.sleeps == Backoff(k)
      && run.result.success && run.result.error == None && run.result.entryId == id
      && run.result.data == ReplyChunks(reply(e, k), decode)
      && run.result.chunksCreated == |run.result.data|
  {
    var work := Work(reply, decode);
    var w := (a: nat) => work(e, id, a);
    forall a | 0 <= a <= k ensures w(a) == AlignWithLlm(e.payload, reply(e, a), decode) {
    }
    FirstReturnWins(MaxRetries, id, w, k);
  }

  /** An entry that is not alignable makes all three calls, sleeps 1 and 2 seconds,
      and fails with the last attempt's message: the `KeyError` of the first missing
      prompt key, or the `TypeError` of `len`. */
  lemma FailsAfterThree(e: Entry<Fields>, id: int, reply: (Entry<Fields>, nat) -> Result<string, string>,
                        decode: string -> Result<Json, string>)
    requires !Alignable(e, reply, decode)
    ensures var work := Work(reply, decode);
      var run := Retry(MaxRetries, id, a => work(e, id, a));
      && run.calls == 3 && run.sleeps == [1, 2]
      && !run.result.success && run.result.entryId == id
      && run.result.data == [] && run.result.chunksCreated == 0
      && run.result.error == Some(match FirstMissing(e.payload, PromptKeys)
                                  case Some(key) => KeyErrorMessage(key)
                                  case None => NoLenMessage(Decoded(reply(e, 2), decode).value))
  {
    var work := Work(reply, decode);
    var w := (a: nat) => work(e, id, a);
    forall a | 0 <= a < MaxRetries ensures w(a).Raised? {
      assert w(a) == AlignWithLlm(e.payload, reply(e, a), decode);
    }
    assert w(2) == AlignWithLlm(e.payload, reply(e, 2), decode);
    Exhausted(MaxRetries, id, w);
    assert Backoff(2) == [1, 2] by {
      assert Backoff(1) == [1];
    }
  }

  /** The entries the driver submits: those whose `entry_num` (default 0) is not
      recorded, whenever `resume` is set or the checkpoint holds ids. */
  function Selected<E>(all: seq<Entry<E>>, ids: set<int>, resume: bool): seq<Entry<E>> {
    if resume || |ids| > 0 then Unprocessed(all, ids) else all
  }

  /** So the flag makes no difference to what is submitted: an empty checkpoint keeps
      every entry either way. */
  lemma SelectedIsUnprocessed<E>(all: seq<Entry<E>>, ids: set<int>, resume: bool)
    ensures Selected(all, ids, resume) == Unprocessed(all, ids)
  {
    if ids == {} {
      NothingRecorded(all);
    }
  }

  /** The checkpoint state filtering starts from: cleared when `clear_checkpoint` is
      set, else what the file holds. */
  function Start(f: FileContent, clear: bool): Record {
    if clear then Record({}, ZeroStats) else Loaded(f)
  }

  /** Clearing happens before the filter, so with `clear_checkpoint` every loaded entry
      is submitted. */
  lemma ClearSubmitsAll<E>(f: FileContent, all: seq<Entry<E>>, resume: bool)
    ensures Selected(all, Start(f, true).ids, resume) == all
  {
    SelectedIsUnprocessed(all, {}, resume);
    NothingRecorded(all);
  }

  /** `chunk.get(key, '')`. */
  function Field(c: Json, key: string): Json
    requires c.Obj?
  {
    Get(c.fields, key).GetOr(Str(""))
  }

  /** What the write loop of `on_progress` does with one chunk: it tests
      `chunk.get('english', '').strip()` and then the same for `hindi`, short-circuited,
      and writes the two texts when neither is empty. A chunk that is not an object
      has no `.get`, and a value that is not a string has no `.strip`: both raise. */
  function ChunkAction(c: Json): Action<Line> {
    if !c.Obj? then Raise
    else
      var e := Field(c, "english");
      if !e.Str? then Raise
      else if IsBlank(e.s) then Skip
      else
        var h := Field(c, "hindi");
        if !h.Str? then Raise
        else if IsBlank(h.s) then Skip
        else Write(Line(e.s, h.s))
  }

  /** A chunk is written exactly when it is an object whose two texts are strings that
      are non-empty once stripped; it raises exactly when it is not an object, its
      English is not a string, or its English is non-empty and its Hindi not a
      string. */
  lemma ChunkActionCases(c: Json)
    ensures ChunkAction(c).Write? <==>
      c.Obj? && Field(c, "english").Str? && Field(c, "hindi").Str?
      && NonBlank(Field(c, "english").s) && NonBlank(Field(c, "hindi").s)
    ensures ChunkAction(c).Write? ==>
      && Has(c.fields, "english") && Has(c.fields, "hindi")
      && ChunkAction(c).line == Line(Field(c, "english").s, Field(c, "hindi").s)
    ensures ChunkAction(c).Raise? <==>
      !c.Obj? || !Field(c, "english").Str?
      || (NonBlank(Field(c, "english").s) && !Field(c, "hindi").Str?)
  {
    StripEmptyIffBlank("");
    if c.Obj? {
      if Field(c, "english").Str? {
        StripEmptyIffBlank(Field(c, "english").s);
      }
      if Field(c, "hindi").Str? {
        StripEmptyIffBlank(Field(c, "hindi").s);
      }
    }
  }

  /** At most one line per chunk, and every line's two texts are non-empty once
      stripped. The checkpoint counts `chunks_created`, every chunk, so it can count
      more than were written. */
  lemma WrittenLinesShape(cs: seq<Json>)
    ensures |Scan(cs, ChunkAction).lines| <= |cs|
    ensures forall l :: l in Scan(cs, ChunkAction).lines ==> NonBlank(l.english) && NonBlank(l.hindi)
  {
    ScanShape(cs, ChunkAction);
    forall l | l in Scan(cs, ChunkAction).lines ensures NonBlank(l.english) && NonBlank(l.hindi) {
      var i :| 0 <= i < |cs| && ChunkAction(cs[i]) == Write(l);
      ChunkActionCases(cs[i]);
    }
  }

  /** A list of objects whose `english` and `hindi` values are strings never makes the
      write loop raise; one line per chunk is written exactly when no text is blank. */
  lemma StringChunksWritten(cs: seq<Json>)
    requires forall i :: 0 <= i < |cs| ==>
      cs[i].Obj? && Field(cs[i], "english").Str? && Field(cs[i], "hindi").Str?
    ensures !Scan(cs, ChunkAction).raised
    ensures |Scan(cs, ChunkAction).lines| == |cs| <==>
      forall i :: 0 <= i < |cs| ==> NonBlank(Field(cs[i], "english").s) && NonBlank(Field(cs[i], "hindi").s)
  {
    ScanRaised(cs, ChunkAction);
    ScanAll(cs, ChunkAction);
    forall i | 0 <= i < |cs| ensures !ChunkAction(cs[i]).Raise? {
      ChunkActionCases(cs[i]);
    }
    forall i | 0 <= i < |cs|
      ensures ChunkAction(cs[i]).Write? <==> NonBlank(Field(cs[i], "english").s) && NonBlank(Field(cs[i], "hindi").s)
    {
      ChunkActionCases(cs[i]);
    }
  }

  /** The lines `on_progress` writes for a result: those of its chunks up to the first
      that raises, when it is a success. */
  function LinesOf(r: ProcessingResult<Json>): seq<Line> {
    if r.success then Scan(r.data, ChunkAction).lines else []
  }

  /** The callback raises on this result: a success with a chunk the write loop trips
      over. */
  predicate Crashes(r: ProcessingResult<Json>) {
    r.success && Scan(r.data, ChunkAction).raised
  }

  /** `on_progress(result)`: the kept lines, the mark with the unfiltered count, and a
      save when the running total reaches a multiple of `checkpoint_interval`. A chunk
      the write loop raises on ends the callback before the mark. */
  method OnProgress(cm: CheckpointManager, interval: int, out: seq<Line>,
                    result: ProcessingResult<Json>, fault: SaveFault)
    returns (out': seq<Line>, saved: bool, crashed: bool)
    requires cm.Valid() && interval != 0
    modifies cm
    ensures cm.Valid()
    ensures crashed == Crashes(result)
    ensures out' == out + LinesOf(result)
    ensures crashed ==> cm.Rec() == old(cm.Rec()) && !saved
    ensures !crashed ==>
      && cm.Rec() == MarkRecord(old(cm.Rec()), MarkOf(result))
      && cm.stats.totalProcessed == old(cm.stats.totalProcessed) + 1
      && (saved <==> Due(cm.stats.totalProcessed, interval))
    ensures saved && fault == NoFault ==> cm.file.Document? && Loaded(cm.file) == cm.Rec()
    ensures !saved || fault != NoFault ==> cm.file == old(cm.file)
  {
    out', crashed := out, false;
    if result.success {
      out', crashed := WriteUntilRaise(out, result.data, ChunkAction);
      if crashed {
        return out', false, true;
      }
    }
    cm.MarkProcessed(result.entryId, result.success, result.chunksCreated);
    saved := IsDue(cm.stats.totalProcessed, interval);
    if saved {
      cm.Save(fault);
    }
  }

  /** The callback run over the results in the order they complete, until one raises;
      `faults(t)` is how the interval save at running total `t` ends. Returns the
      totals at which it saved and how many callbacks finished. */
  method Callbacks(cm: CheckpointManager, interval: int, out: seq<Line>,
                   rs: seq<ProcessingResult<Json>>, faults: int -> SaveFault)
    returns (out': seq<Line>, savedAt: seq<int>, done: nat)
    requires cm.Valid() && interval != 0
    modifies cm
    ensures cm.Valid()
    ensures done == FirstCrash(rs, Crashes)
    ensures cm.Rec() == Replay(old(cm.Rec()), Marks(rs[..done]))
    ensures out' == out + Outputs(rs[..done], LinesOf) + (if done < |rs| then LinesOf(rs[done]) else [])
    ensures savedAt == DueTotals(old(cm.stats.totalProcessed), done, interval)
  {
    ghost var r0 := cm.Rec();
    var base := cm.stats.totalProcessed;
    out', savedAt := out, [];
    for i := 0 to |rs|
      invariant cm.Valid()
      invariant i <= FirstCrash(rs, Crashes)
      invariant cm.Rec() == Replay(r0, Marks(rs[..i]))
      invariant cm.stats.totalProcessed == base + i
      invariant out' == out + Outputs(rs[..i], LinesOf)
      invariant savedAt == DueTotals(base, i, interval)
    {
      var crashed;
      out', savedAt, crashed := CallbackAt(cm, interval, out, out', rs, i, faults(base + i + 1), r0, base, savedAt);
      if crashed {
        return out', savedAt, i;
      }
    }
    assert rs[..|rs|] == rs;
    done := |rs|;
  }

  /** Callback `i` of `Callbacks`, from the state the ones before left. */
  method CallbackAt(cm: CheckpointManager, interval: int, out0: seq<Line>, out: seq<Line>,
                    rs: seq<ProcessingResult<Json>>, i: nat, fault: SaveFault,
                    ghost r0: Record, base: int, savedAt: seq<int>)
    returns (out': seq<Line>, savedAt': seq<int>, crashed: bool)
    requires cm.Valid() && interval != 0 && i < |rs| && i <= FirstCrash(rs, Crashes)
    requires cm.Rec() == Replay(r0, Marks(rs[..i])) && cm.stats.totalProcessed == base + i
    requires out == out0 + Outputs(rs[..i], LinesOf) && savedAt == DueTotals(base, i, interval)
    modifies cm
    ensures cm.Valid()
    ensures crashed == Crashes(rs[i])
    ensures crashed ==> FirstCrash(rs, Crashes) == i
    ensures !crashed ==> i + 1 <= FirstCrash(rs, Crashes)
    ensures crashed ==> cm.Rec() == old(cm.Rec()) && savedAt' == savedAt
                        && out' == out0 + Outputs(rs[..i], LinesOf) + LinesOf(rs[i])
    ensures !crashed ==>
      && cm.Rec() == Replay(r0, Marks(rs[..i + 1])) && cm.stats.totalProcessed == base + i + 1
      && out' == out0 + Outputs(rs[..i + 1], LinesOf) && savedAt' == DueTotals(base, i + 1, interval)
  {
    var saved;
    out', saved, crashed := OnProgress(cm, interval, out, rs[i], fault);
    FirstCrashStep(rs, Crashes, i);
    savedAt' := savedAt;
    if crashed {
      return;
    }
    Step(r0, rs, i, LinesOf);
    assert out' == out0 + (Outputs(rs[..i], LinesOf) + LinesOf(rs[i])) by {
      AppendAssoc(out0, Outputs(rs[..i], LinesOf), LinesOf(rs[i]));
    }
    DueStep(base, i, interval, saved);
    if saved {
      savedAt' := savedAt + [base + i + 1];
    }
  }

  /** `process_phase2_optimized(...)`. `f` is the checkpoint file and `outFile` the
      output file at the start; `reply` and `decode` stand for the model and
      `json.loads`; `order` is the completion order; the interval saves end as `faults`
      says and the last save (after the batch, in the interrupt handler, or in the
      handler that saves and re-raises when a callback raised) as `finalFault`. */
  method ProcessPhase2(f: FileContent, all: seq<Entry<Fields>>, resume: bool, clear: bool,
                       interval: int, outFile: seq<Line>,
                       reply: (Entry<Fields>, nat) -> Result<string, string>,
                       decode: string -> Result<Json, string>,
                       order: seq<nat>, interrupt: Option<nat>,
                       faults: int -> SaveFault, finalFault: SaveFault)
    returns (cm: CheckpointManager, out: seq<Line>, handled: seq<ProcessingResult<Json>>,
             outcome: Outcome)
    requires interval != 0
    requires IsPermutationOf(order, |Selected(all, Start(f, clear).ids, resume)|)
    ensures cm.Valid()
    ensures AllBelow(order, |Selected(all, Start(f, clear).ids, resume)|)
    ensures outcome == AllDone <==> Selected(all, Start(f, clear).ids, resume) == []
    ensures outcome == AllDone ==>
      && cm.Rec() == Start(f, clear) && cm.file == (if clear then Absent else f)
      && out == outFile && handled == []
    ensures outcome != AllDone ==>
      var full := Permuted(BatchResults(Selected(all, Start(f, clear).ids, resume), MaxRetries, Work(reply, decode)), order);
      var done := FirstCrash(handled, Crashes);
      && handled == Handled(full, interrupt)
      && (outcome == Crashed <==> done < |handled|)
      && (outcome == Interrupted <==> done == |handled| < |full|)
      && cm.Rec() == Replay(Start(f, clear), Marks(handled[..done]))
      && out == (if resume then outFile else []) + Outputs(handled[..done], LinesOf)
                + (if done < |handled| then LinesOf(handled[done]) else [])
      && (finalFault == NoFault ==> cm.file.Document? && Loaded(cm.file) == cm.Rec())
  {
    cm := new CheckpointManager(f);
    if clear {
      cm.Clear();
    }
    var todo := if resume || |cm.processedIds| > 0 then Unprocessed(all, cm.processedIds) else all;
    PermutationBounds(order, |todo|);
    if |todo| == 0 {
      return cm, outFile, [], AllDone;
    }
    out, handled, outcome := RunBatch(cm, todo, interval, if resume then outFile else [],
                                      reply, decode, order, interrupt, faults, finalFault);
  }

  /** The `try` block and its two handlers: the batch with its callbacks, then the
      final save, which also runs when the user interrupts and when a callback raised.
      `out0` is the output file as opened. */
  method RunBatch(cm: CheckpointManager, todo: seq<Entry<Fields>>, interval: int, out0: seq<Line>,
                  reply: (Entry<Fields>, nat) -> Result<string, string>,
                  decode: string -> Result<Json, string>,
                  order: seq<nat>, interrupt: Option<nat>,
                  faults: int -> SaveFault, finalFault: SaveFault)
    returns (out: seq<Line>, handled: seq<ProcessingResult<Json>>, outcome: Outcome)
    requires cm.Valid() && interval != 0 && IsPermutationOf(order, |todo|)
    modifies cm
    ensures cm.Valid() && AllBelow(order, |todo|)
    ensures var full := Permuted(BatchResults(todo, MaxRetries, Work(reply, decode)), order);
      var done := FirstCrash(handled, Crashes);
      && handled == Handled(full, interrupt)
      && outcome != AllDone
      && (outcome == Crashed <==> done < |handled|)
      && (outcome == Interrupted <==> done == |handled| < |full|)
      && cm.Rec() == Replay(old(cm.Rec()), Marks(handled[..done]))
      && out == out0 + Outputs(handled[..done], LinesOf) + (if done < |handled| then LinesOf(handled[done]) else [])
      && (finalFault == NoFault ==> cm.file.Document? && Loaded(cm.file) == cm.Rec())
  {
    var full := ProcessBatch(todo, MaxRetries, Work(reply, decode), order);
    handled := Handled(full, interrupt);
    var due, done;
    out, due, done := Callbacks(cm, interval, out0, handled, faults);
    outcome := if done < |handled| then Crashed else if |handled| < |full| then Interrupted else Completed;
    cm.Save(finalFault);
  }

  /** Each result of a batch is a success exactly when its entry is alignable. */
  lemma BatchOutcomes(todo: seq<Entry<Fields>>, reply: (Entry<Fields>, nat) -> Result<string, string>,
                      decode: string -> Result<Json, string>, order: seq<nat>)
    requires AllBelow(order, |todo|)
    ensures var rs := Permuted(BatchResults(todo, MaxRetries, Work(reply, decode)), order);
      forall j :: 0 <= j < |rs| ==> (rs[j].success <==> Alignable(todo[order[j]], reply, decode))
  {
    var rs := Permuted(BatchResults(todo, MaxRetries, Work(reply, decode)), order);
    forall j | 0 <= j < |rs| ensures rs[j].success <==> Alignable(todo[order[j]], reply, decode) {
      AlignedIff(todo[order[j]], EntryId(todo, order[j]), reply, decode);
    }
  }

  /** When every entry is alignable, a run adds nothing to the failure counter: each
      handled entry counts as successful, including those whose every call failed. */
  lemma NoFailuresCounted(todo: seq<Entry<Fields>>, reply: (Entry<Fields>, nat) -> Result<string, string>,
                          decode: string -> Result<Json, string>,
                          order: seq<nat>, interrupt: Option<nat>, r0: Record, n: nat)
    requires AllBelow(order, |todo|)
    requires forall i :: 0 <= i < |todo| ==> Alignable(todo[i], reply, decode)
    ensures var h := Handled(Permuted(BatchResults(todo, MaxRetries, Work(reply, decode)), order), interrupt);
      n <= |h| ==>
      && Replay(r0, Marks(h[..n])).stats.failed == r0.stats.failed
      && Replay(r0, Marks(h[..n])).stats.successful == r0.stats.successful + n
  {
    var full := Permuted(BatchResults(todo, MaxRetries, Work(reply, decode)), order);
    var h := Handled(full, interrupt);
    if n <= |h| {
      BatchOutcomes(todo, reply, decode, order);
      forall j | 0 <= j < n ensures Marks(h[..n])[j].success {
        assert h[..n][j] == full[j];
      }
      AllSuccess(r0, Marks(h[..n]));
    }
  }

  lemma {:induction false} AllSuccess(r: Record, h: seq<Mark>)
    requires forall j :: 0 <= j < |h| ==> h[j].success
    ensures Replay(r, h).stats.failed == r.stats.failed
    ensures Replay(r, h).stats.successful == r.stats.successful + |h|
    decreases |h|
  {
    if |h| > 0 {
      AllSuccess(r, h[..|h| - 1]);
    }
  }

  /** When every entry carries `entry_num`, a run that completes and saves leaves a
      checkpoint under which the next run finds nothing to do. (An entry without one
      is marked under its position in the submitted list but looked up as 0.) */
  lemma CompletedRunCoversNumbered<E, C>(all: seq<Entry<E>>, r0: Record, resume: bool,
                                         work: (Entry<E>, int, nat) -> CallOutcome<C>, order: seq<nat>)
    requires forall i :: 0 <= i < |all| ==> all[i].entryNum.Some?
    requires IsPermutationOf(order, |Selected(all, r0.ids, resume)|)
    ensures AllBelow(order, |Selected(all, r0.ids, resume)|)
    ensures var rs := Permuted(BatchResults(Selected(all, r0.ids, resume), MaxRetries, work), order);
      Selected(all, Replay(r0, Marks(rs)).ids, resume) == []
  {
    var todo := Selected(all, r0.ids, resume);
    PermutationBounds(order, |todo|);
    var rs := Permuted(BatchResults(todo, MaxRetries, work), order);
    var ids := Replay(r0, Marks(rs)).ids;
    ReplayFrom(r0, Marks(rs));
    SelectedIsUnprocessed(all, r0.ids, resume);
    forall i | 0 <= i < |all| ensures StoredId(all[i]) in ids {
      if StoredId(all[i]) !in r0.ids {
        UnprocessedMembers(all, r0.ids);
        var m :| 0 <= m < |todo| && todo[m] == all[i];
        NumberedIsMarked(todo, work, order, m);
      }
    }
    SelectedIsUnprocessed(all, ids, resume);
    AllRecorded(all, ids);
  }

  /** A submitted entry that carries `entry_num` is marked under it. */
  lemma NumberedIsMarked<E, C>(todo: seq<Entry<E>>, work: (Entry<E>, int, nat) -> CallOutcome<C>,
                               order: seq<nat>, m: nat)
    requires IsPermutationOf(order, |todo|) && m < |todo| && todo[m].entryNum.Some?
    ensures AllBelow(order, |todo|)
    ensures StoredId(todo[m]) in IdsOf(Marks(Permuted(BatchResults(todo, MaxRetries, work), order)))
  {
    PermutationBounds(order, |todo|);
    var rs := Permuted(BatchResults(todo, MaxRetries, work), order);
    assert Range(|todo|)[m] == m;
    assert m in multiset(Range(|todo|));
    assert m in multiset(order);
    var j :| 0 <= j < |order| && order[j] == m;
    var id := EntryId(todo, m);
    RetryShape(MaxRetries, id, a => work(todo[m], id, a), 0, None);
    assert rs[j].entryId == StoredId(todo[m]);
    MarkedId(rs, j);
  }
}
