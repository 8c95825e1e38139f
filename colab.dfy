/** `colab_optimized_standalone.py`: the self-contained Phase 2 notebook. It carries
    its own copies of the checkpoint and the parallel processor, which differ from
    the shared ones in three ways: the checkpoint file is written in place, there is
    no `clear`, and an entry without `entry_num` gets id 0. The model API and the
    JSON decoder are parameters; the thread pool is a completion order. */
module Colab {
  import opened Wrappers
  import opened Sequences
  import opened Strings
  import opened CheckpointStore
  import opened ParallelProcessor
  import opened Resume
  import opened Json
  import opened Progress

  /** `CHECKPOINT_INTERVAL`. */
  const CheckpointInterval := 50

  /** The `max_retries` the notebook builds its processor with. */
  const MaxRetries := 3

  /** The keys the prompt reads from an entry, in the order it reads them. */
  const PromptKeys := ["eng_sentences", "english", "hin_sentences", "hindi"]

  /** One output line: the values of a chunk's `english` and `hindi` keys, whatever
      JSON they hold. */
  datatype Line = Line(english: Json, hindi: Json)

  /** How a `save` ends: the document is written, `open(..., 'w')` fails before the
      file is touched, or `json.dump` fails after the file was truncated. */
  datatype WriteFault = WriteOk | OpenFails | DumpFails

  /** What a save leaves in the checkpoint file, from `before` and the state `rec`. */
  predicate SavedAs(before: FileContent, rec: Record, fault: WriteFault, after: FileContent) {
    match fault
    case WriteOk => after.Document? && Loaded(after) == rec
    case OpenFails => after == before
    case DumpFails => after == Unreadable
  }

  /** The notebook's `CheckpointManager`. */
  class ColabCheckpoint {
    var processedIds: set<int>
    var stats: Stats
    var file: FileContent
    /** Some duplicate-free enumeration of the ids, standing for `list(self.processed_ids)`;
        its order is never observed, since loading rebuilds a set. */
    var listing: seq<int>

    ghost predicate Valid()
      reads this
    {
      NoDup(listing) && Elems(listing) == processedIds
    }

    function Rec(): Record
      reads this
    {
      Record(processedIds, stats)
    }

    /** `CheckpointManager(checkpoint_file)`: `_load` reads the file as the shared
        manager does. */
    constructor (f: FileContent)
      ensures Valid()
      ensures Rec() == Loaded(f)
      ensures file == f
    {
      var r := Loaded(f);
      var l := if f.Document? then Dedup(f.ids.GetOr([])) else [];
      DedupProperties(if f.Document? then f.ids.GetOr([]) else []);
      processedIds := r.ids;
      stats := r.stats;
      file := f;
      listing := l;
    }

    /** `is_processed(entry_id)`. */
    predicate IsProcessed(id: int)
      reads this
    {
      id in processedIds
    }

    /** `mark_processed(entry_id, success, chunks_created)`. */
    method MarkProcessed(id: int, success: bool, chunks: int)
      requires Valid()
      modifies this
      ensures Valid()
      ensures Rec() == MarkRecord(old(Rec()), Mark(id, success, chunks))
      ensures IsProcessed(id)
      ensures stats.totalProcessed == old(stats.totalProcessed) + 1
      ensures file == old(file)
    {
      if id !in processedIds {
        ElemsSnoc(listing, id);
        InElems(listing, id);
        listing := listing + [id];
      }
      processedIds := processedIds + {id};
      stats := Bump(stats, success, chunks);
    }

    /** `save()`: the checkpoint file is opened for writing and the document dumped
        into it directly, errors swallowed. A dump that fails half way leaves a
        truncated file that the next `_load` cannot read. */
    method Save(fault: WriteFault)
      requires Valid()
      modifies this
      ensures Valid()
      ensures Rec() == old(Rec())
      ensures SavedAs(old(file), Rec(), fault, file)
    {
      match fault {
        case WriteOk => file := Document(Some(listing), Some(stats));
        case OpenFails =>
        case DumpFails => file := Unreadable;
      }
    }
  }

  /** Unlike the shared manager, whose save goes through a temporary file, a save
      that fails while writing loses every recorded id: the restarted notebook
      starts from nothing. */
  method TornSave(f: FileContent, h: seq<Mark>) returns (before: Record, resumed: Record)
    ensures before == Replay(Loaded(f), h)
    ensures resumed == Record({}, ZeroStats)
  {
    var cm := new ColabCheckpoint(f);
    for i := 0 to |h|
      invariant cm.Valid()
      invariant cm.Rec() == Replay(Loaded(f), h[..i])
    {
      assert h[..i + 1][..i] == h[..i];
      cm.MarkProcessed(h[i].id, h[i].success, h[i].chunks);
    }
    assert h[..|h|] == h;
    before := cm.Rec();
    cm.Save(DumpFails);
    var next := new ColabCheckpoint(cm.file);
    resumed := next.Rec();
  }

  /** `align_with_llm(entry, entry_num)`, followed by the `len(result.get('chunks', []))`
      of the retry loop's `try`, given the model's reply (its message content, or the
      error the API call raised) and the JSON decoder. Nothing is caught: a missing
      prompt key, an API error, an undecodable answer and a decoded value without a
      length all raise, and are retried. */
  function AlignWithLlm(entry: Fields, reply: Result<string, string>, decode: string -> Result<Json, string>)
    : (o: CallOutcome<Json>)
    ensures o.Returned? <==>
      FirstMissing(entry, PromptKeys).None? && Decoded(reply, decode).Ok? && Sized(Decoded(reply, decode).value)
    ensures o.Returned? ==> o.chunks == Some(Items(Decoded(reply, decode).value))
    ensures FirstMissing(entry, PromptKeys).Some? ==>
      o == Raised(KeyErrorMessage(FirstMissing(entry, PromptKeys).value))
    ensures FirstMissing(entry, PromptKeys).None? && Decoded(reply, decode).Err? ==>
      o == Raised(Decoded(reply, decode).error)
    ensures FirstMissing(entry, PromptKeys).None? && Unsized(Decoded(reply, decode)) ==>
      o == Raised(NoLenMessage(Decoded(reply, decode).value))
  {
    match FirstMissing(entry, PromptKeys)
    case Some(key) => Raised(KeyErrorMessage(key))
    case None =>
      match Decoded(reply, decode)
      case Err(msg) => Raised(msg)
      case Ok(v) => if Sized(v) then Returned(Some(Items(v)), Some(true)) else Raised(NoLenMessage(v))
  }

  /** The work function `process_with_retry` calls: attempt `a` on entry `e` gets the
      reply `reply(e, a)`. */
  function Work(reply: (Entry<Fields>, nat) -> Result<string, string>,
                decode: string -> Result<Json, string>): (Entry<Fields>, int, nat) -> CallOutcome<Json> {
    (e: Entry<Fields>, id: int, a: nat) => AlignWithLlm(e.payload, reply(e, a), decode)
  }

  /** An entry's result is a success exactly when it holds the prompt's keys and one
      of its three attempts gets a reply that decodes to a value with a length. */
  lemma AlignedIffDecoded(e: Entry<Fields>, reply: (Entry<Fields>, nat) -> Result<string, string>,
                          decode: string -> Result<Json, string>)
    ensures var r := ColabResult(e, MaxRetries, Work(reply, decode));
      r.success <==> FirstMissing(e.payload, PromptKeys).None?
                     && exists a :: 0 <= a < MaxRetries && Decoded(reply(e, a), decode).Ok?
                                    && Sized(Decoded(reply(e, a), decode).value)
  {
    var id := StoredId(e);
    var work := Work(reply, decode);
    var w := (a: nat) => work(e, id, a);
    RetryShape(MaxRetries, id, w, 0, None);
    forall a: nat
      ensures w(a).Returned? <==> FirstMissing(e.payload, PromptKeys).None? && Decoded(reply(e, a), decode).Ok?
                                  && Sized(Decoded(reply(e, a), decode).value)
    {
      assert work(e, id, a) == AlignWithLlm(e.payload, reply(e, a), decode);
    }
  }

  /** `process_with_retry` for one entry of this notebook's `process_batch`, which
      submits `entry.get('entry_num', 0)` as the id. */
  function ColabResult<E, C>(e: Entry<E>, maxRetries: int,
                             work: (Entry<E>, int, nat) -> CallOutcome<C>): ProcessingResult<C> {
    var id := StoredId(e);
    Retry(maxRetries, id, a => work(e, id, a)).result
  }

  /** The results of a batch in submission order. */
  function ColabBatch<E, C>(entries: seq<Entry<E>>, maxRetries: int,
                            work: (Entry<E>, int, nat) -> CallOutcome<C>): (rs: seq<ProcessingResult<C>>)
    ensures |rs| == |entries|
  {
    seq(|entries|, i requires 0 <= i < |entries| => ColabResult(entries[i], maxRetries, work))
  }

  /** Every result carries the id it was submitted with. */
  lemma ColabResultId<E, C>(e: Entry<E>, maxRetries: int, work: (Entry<E>, int, nat) -> CallOutcome<C>)
    ensures ColabResult(e, maxRetries, work).entryId == StoredId(e)
  {
    var id := StoredId(e);
    RetryShape(maxRetries, id, a => work(e, id, a), 0, None);
  }

  /** `process_batch(entries, process_func, progress_callback)`: results in completion
      order `order`. Every entry without `entry_num` is reported under id 0. */
  method ProcessBatch<E, C>(entries: seq<Entry<E>>, maxRetries: int,
                            work: (Entry<E>, int, nat) -> CallOutcome<C>, order: seq<nat>)
    returns (results: seq<ProcessingResult<C>>)
    requires IsPermutationOf(order, |entries|)
    ensures AllBelow(order, |entries|)
    ensures results == Permuted(ColabBatch(entries, maxRetries, work), order)
    ensures forall j :: 0 <= j < |results| ==> results[j].entryId == StoredId(entries[order[j]])
    ensures forall j :: 0 <= j < |results| && entries[order[j]].entryNum.None? ==> results[j].entryId == 0
  {
    var futures: seq<ProcessingResult<C>> := [];
    for i := 0 to |entries|
      invariant |futures| == i
      invariant forall k :: 0 <= k < i ==> futures[k] == ColabResult(entries[k], maxRetries, work)
    {
      var id := entries[i].entryNum.GetOr(0);
      var r, _, _ := ProcessWithRetry(maxRetries, id, a => work(entries[i], id, a));
      futures := futures + [r];
    }
    assert futures == ColabBatch(entries, maxRetries, work);
    PermutationBounds(order, |entries|);
    results := [];
    for j := 0 to |order|
      invariant results == Permuted(futures, order[..j])
    {
      results := results + [futures[order[j]]];
    }
    assert order[..|order|] == order;
    forall j | 0 <= j < |results| ensures results[j].entryId == StoredId(entries[order[j]]) {
      ColabResultId(entries[order[j]], maxRetries, work);
    }
  }

  /** The entries `process_optimized` submits: the unprocessed ones when resuming from
      a checkpoint that holds ids, else all of them. */
  function Selected<E>(all: seq<Entry<E>>, ids: set<int>, resume: bool): seq<Entry<E>> {
    if resume && |ids| > 0 then Unprocessed(all, ids) else all
  }

  /** The filter is skipped without `resume`; with it the non-empty test makes no
      difference, since an empty checkpoint keeps every entry. */
  lemma SelectedIff<E>(all: seq<Entry<E>>, ids: set<int>, resume: bool)
    ensures Selected(all, ids, resume) == if resume then Unprocessed(all, ids) else all
  {
    if ids == {} {
      NothingRecorded(all);
    }
  }

  /** What the write loop of `on_progress` does with one chunk: `chunk['english']`
      and `chunk['hindi']` are written as they are when the chunk is an object
      holding both keys; anything else raises (`KeyError`, or `TypeError` for a chunk
      that is not an object). */
  function ChunkAction(c: Json): Action<Line> {
    if c.Obj? && Has(c.fields, "english") && Has(c.fields, "hindi")
    then Write(Line(Get(c.fields, "english").value, Get(c.fields, "hindi").value))
    else Raise
  }

  /** The write loop completes exactly when every chunk is an object holding both
      keys, and then writes one line per chunk, in order, holding that chunk's two
      values; otherwise it writes fewer lines than there are chunks. */
  lemma WrittenIffObjects(cs: seq<Json>)
    ensures !Scan(cs, ChunkAction).raised <==>
      forall i :: 0 <= i < |cs| ==> cs[i].Obj? && Has(cs[i].fields, "english") && Has(cs[i].fields, "hindi")
    ensures !Scan(cs, ChunkAction).raised ==>
      && |Scan(cs, ChunkAction).lines| == |cs|
      && forall i :: 0 <= i < |cs| ==>
           Scan(cs, ChunkAction).lines[i] == Line(Get(cs[i].fields, "english").value, Get(cs[i].fields, "hindi").value)
    ensures Scan(cs, ChunkAction).raised ==> |Scan(cs, ChunkAction).lines| < |cs|
  {
    ScanRaised(cs, ChunkAction);
    ScanAll(cs, ChunkAction);
    ScanShape(cs, ChunkAction);
    if !Scan(cs, ChunkAction).raised {
      assert forall i :: 0 <= i < |cs| ==> ChunkAction(cs[i]).Write?;
    }
  }

  /** The lines `on_progress` writes for a result: those of its chunks up to the first
      that raises, when it is a success. */
  function Written(r: ProcessingResult<Json>): seq<Line> {
    if r.success then Scan(r.data, ChunkAction).lines else []
  }

  /** The callback raises on this result: a success with a chunk the write loop trips
      over. */
  predicate Crashes(r: ProcessingResult<Json>) {
    r.success && Scan(r.data, ChunkAction).raised
  }

  /** `on_progress(result)`: the chunk lines, the mark, and a save when the running
      total reaches a multiple of `CHECKPOINT_INTERVAL`. A chunk the write loop raises
      on ends the callback before the mark. */
  method OnProgress(cm: ColabCheckpoint, out: seq<Line>, result: ProcessingResult<Json>,
                    fault: WriteFault)
    returns (out': seq<Line>, saved: bool, crashed: bool)
    requires cm.Valid()
    modifies cm
    ensures cm.Valid()
    ensures crashed == Crashes(result)
    ensures out' == out + Written(result)
    ensures crashed ==> cm.Rec() == old(cm.Rec()) && !saved
    ensures !crashed ==>
      && cm.Rec() == MarkRecord(old(cm.Rec()), MarkOf(result))
      && cm.stats.totalProcessed == old(cm.stats.totalProcessed) + 1
      && (saved <==> Due(cm.stats.totalProcessed, CheckpointInterval))
    ensures saved ==> SavedAs(old(cm.file), cm.Rec(), fault, cm.file)
    ensures !saved ==> cm.file == old(cm.file)
  {
    out', crashed := out, false;
    if result.success {
      out', crashed := WriteUntilRaise(out, result.data, ChunkAction);
      if crashed {
        return out', false, true;
      }
    }
    cm.MarkProcessed(result.entryId, result.success, result.chunksCreated);
    saved := IsDue(cm.stats.totalProcessed, CheckpointInterval);
    if saved {
      cm.Save(fault);
    }
  }

  /** The callback run over the results in the order they complete, until one raises;
      `faults(t)` is how the interval save at running total `t` ends. Returns the
      totals at which it saved and how many callbacks finished. Without a save the
      checkpoint file is as it was. */
  method Callbacks(cm: ColabCheckpoint, out: seq<Line>, rs: seq<ProcessingResult<Json>>,
                   faults: int -> WriteFault)
    returns (out': seq<Line>, savedAt: seq<int>, done: nat)
    requires cm.Valid()
    modifies cm
    ensures cm.Valid()
    ensures done == FirstCrash(rs, Crashes)
    ensures cm.Rec() == Replay(old(cm.Rec()), Marks(rs[..done]))
    ensures out' == out + Outputs(rs[..done], Written) + (if done < |rs| then Written(rs[done]) else [])
    ensures savedAt == DueTotals(old(cm.stats.totalProcessed), done, CheckpointInterval)
    ensures savedAt == [] ==> cm.file == old(cm.file)
  {
    ghost var r0 := cm.Rec();
    ghost var f0 := cm.file;
    var base := cm.stats.totalProcessed;
    out', savedAt := out, [];
    for i := 0 to |rs|
      invariant cm.Valid()
      invariant i <= FirstCrash(rs, Crashes)
      invariant cm.Rec() == Replay(r0, Marks(rs[..i]))
      invariant cm.stats.totalProcessed == base + i
      invariant out' == out + Outputs(rs[..i], Written)
      invariant savedAt == DueTotals(base, i, CheckpointInterval)
      invariant savedAt == [] ==> cm.file == f0
    {
      var crashed;
      out', savedAt, crashed := CallbackAt(cm, out, out', rs, i, faults(base + i + 1), r0, base, savedAt);
      if crashed {
        return out', savedAt, i;
      }
    }
    assert rs[..|rs|] == rs;
    done := |rs|;
  }

  /** Callback `i` of `Callbacks`, from the state the ones before left. */
  method CallbackAt(cm: ColabCheckpoint, out0: seq<Line>, out: seq<Line>,
                    rs: seq<ProcessingResult<Json>>, i: nat, fault: WriteFault,
                    ghost r0: Record, base: int, savedAt: seq<int>)
    returns (out': seq<Line>, savedAt': seq<int>, crashed: bool)
    requires cm.Valid() && i < |rs| && i <= FirstCrash(rs, Crashes)
    requires cm.Rec() == Replay(r0, Marks(rs[..i])) && cm.stats.totalProcessed == base + i
    requires out == out0 + Outputs(rs[..i], Written) && savedAt == DueTotals(base, i, CheckpointInterval)
    modifies cm
    ensures cm.Valid()
    ensures crashed == Crashes(rs[i])
    ensures crashed ==> FirstCrash(rs, Crashes) == i
    ensures !crashed ==> i + 1 <= FirstCrash(rs, Crashes)
    ensures savedAt' == savedAt || |savedAt'| > 0
    ensures savedAt' == savedAt ==> cm.file == old(cm.file)
    ensures crashed ==> cm.Rec() == old(cm.Rec()) && savedAt' == savedAt
                        && out' == out0 + Outputs(rs[..i], Written) + Written(rs[i])
    ensures !crashed ==>
      && cm.Rec() == Replay(r0, Marks(rs[..i + 1])) && cm.stats.totalProcessed == base + i + 1
      && out' == out0 + Outputs(rs[..i + 1], Written) && savedAt' == DueTotals(base, i + 1, CheckpointInterval)
  {
    var saved;
    out', saved, crashed := OnProgress(cm, out, rs[i], fault);
    FirstCrashStep(rs, Crashes, i);
    savedAt' := savedAt;
    if crashed {
      return;
    }
    Step(r0, rs, i, Written);
    assert out' == out0 + (Outputs(rs[..i], Written) + Written(rs[i])) by {
      AppendAssoc(out0, Outputs(rs[..i], Written), Written(rs[i]));
    }
    DueStep(base, i, CheckpointInterval, saved);
    if saved {
      savedAt' := savedAt + [base + i + 1];
    }
  }

  /** `process_optimized(resume)`. `f` is the checkpoint file and `outFile` the output
      file at the start; `reply` and `decode` stand for the model and `json.loads`;
      `order` is the completion order; the interval saves end as `faults` says and the
      last save (after the batch, or in the interrupt handler) as `finalFault`. Only
      `KeyboardInterrupt` is caught: when a callback raises there is no last save. */
  method ProcessOptimized(f: FileContent, all: seq<Entry<Fields>>, resume: bool, outFile: seq<Line>,
                          reply: (Entry<Fields>, nat) -> Result<string, string>,
                          decode: string -> Result<Json, string>,
                          order: seq<nat>, interrupt: Option<nat>,
                          faults: int -> WriteFault, finalFault: WriteFault)
    returns (cm: ColabCheckpoint, out: seq<Line>, handled: seq<ProcessingResult<Json>>,
             outcome: Outcome)
    requires IsPermutationOf(order, |Selected(all, Loaded(f).ids, resume)|)
    ensures cm.Valid()
    ensures AllBelow(order, |Selected(all, Loaded(f).ids, resume)|)
    ensures outcome == AllDone <==> Selected(all, Loaded(f).ids, resume) == []
    ensures outcome == AllDone ==> cm.Rec() == Loaded(f) && cm.file == f && out == outFile && handled == []
    ensures outcome != AllDone ==>
      var full := Permuted(ColabBatch(Selected(all, Loaded(f).ids, resume), MaxRetries, Work(reply, decode)), order);
      var done := FirstCrash(handled, Crashes);
      && handled == Handled(full, interrupt)
      && (outcome == Crashed <==> done < |handled|)
      && (outcome == Interrupted <==> done == |handled| < |full|)
      && cm.Rec() == Replay(Loaded(f), Marks(handled[..done]))
      && out == (if resume then outFile else []) + Outputs(handled[..done], Written)
                + (if done < |handled| then Written(handled[done]) else [])
      && (outcome != Crashed && finalFault == WriteOk ==> cm.file.Document? && Loaded(cm.file) == cm.Rec())
      && (outcome != Crashed && finalFault == DumpFails ==> cm.file == Unreadable)
      && (outcome == Crashed && DueTotals(Loaded(f).stats.totalProcessed, done, CheckpointInterval) == [] ==>
            cm.file == f)
  {
    cm := new ColabCheckpoint(f);
    var todo := if resume && |cm.processedIds| > 0 then Unprocessed(all, cm.processedIds) else all;
    PermutationBounds(order, |todo|);
    if |todo| == 0 {
      return cm, outFile, [], AllDone;
    }
    out, handled, outcome := RunBatch(cm, todo, if resume then outFile else [],
                                      reply, decode, order, interrupt, faults, finalFault);
  }

  /** The `try` block and its interrupt handler: the batch with its callbacks, then
      the final save, which also runs when the user interrupts but not when a
      callback raised. `out0` is the output file as opened. */
  method RunBatch(cm: ColabCheckpoint, todo: seq<Entry<Fields>>, out0: seq<Line>,
                  reply: (Entry<Fields>, nat) -> Result<string, string>,
                  decode: string -> Result<Json, string>,
                  order: seq<nat>, interrupt: Option<nat>,
                  faults: int -> WriteFault, finalFault: WriteFault)
    returns (out: seq<Line>, handled: seq<ProcessingResult<Json>>, outcome: Outcome)
    requires cm.Valid() && IsPermutationOf(order, |todo|)
    modifies cm
    ensures cm.Valid() && AllBelow(order, |todo|)
    ensures var full := Permuted(ColabBatch(todo, MaxRetries, Work(reply, decode)), order);
      var done := FirstCrash(handled, Crashes);
      && handled == Handled(full, interrupt)
      && outcome != AllDone
      && (outcome == Crashed <==> done < |handled|)
      && (outcome == Interrupted <==> done == |handled| < |full|)
      && cm.Rec() == Replay(old(cm.Rec()), Marks(handled[..done]))
      && out == out0 + Outputs(handled[..done], Written) + (if done < |handled| then Written(handled[done]) else [])
      && (outcome != Crashed && finalFault == WriteOk ==> cm.file.Document? && Loaded(cm.file) == cm.Rec())
      && (outcome != Crashed && finalFault == DumpFails ==> cm.file == Unreadable)
      && (outcome == Crashed && DueTotals(old(cm.stats.totalProcessed), done, CheckpointInterval) == [] ==>
            cm.file == old(cm.file))
  {
    var full := ProcessBatch(todo, MaxRetries, Work(reply, decode), order);
    handled := Handled(full, interrupt);
    var savedAt, done;
    out, savedAt, done := Callbacks(cm, out0, handled, faults);
    if done < |handled| {
      outcome := Crashed;
      return;
    }
    outcome := if |handled| < |full| then Interrupted else Completed;
    cm.Save(finalFault);
  }

  /** A run that completes and saves leaves a checkpoint under which a resumed run
      finds nothing to do: every entry it did not skip was marked under the id the
      filter looks up. */
  lemma CompletedRunCoversAll<E, C>(all: seq<Entry<E>>, r0: Record, resume: bool,
                                    work: (Entry<E>, int, nat) -> CallOutcome<C>, order: seq<nat>)
    requires IsPermutationOf(order, |Selected(all, r0.ids, resume)|)
    requires Selected(all, r0.ids, resume) != []
    ensures AllBelow(order, |Selected(all, r0.ids, resume)|)
    ensures var rs := Permuted(ColabBatch(Selected(all, r0.ids, resume), MaxRetries, work), order);
      Selected(all, Replay(r0, Marks(rs)).ids, true) == []
  {
    var todo := Selected(all, r0.ids, resume);
    PermutationBounds(order, |todo|);
    var rs := Permuted(ColabBatch(todo, MaxRetries, work), order);
    var ids := Replay(r0, Marks(rs)).ids;
    forall i | 0 <= i < |all| ensures StoredId(all[i]) in ids {
      EntryRecorded(all, r0, resume, work, order, i);
    }
    MarkedId(rs, 0);
    ReplayFrom(r0, Marks(rs));
    assert ids != {};
    AllRecorded(all, ids);
  }

  /** After the batch every entry's id is recorded: it was recorded before, or the
      entry was submitted and its result marked. */
  lemma EntryRecorded<E, C>(all: seq<Entry<E>>, r0: Record, resume: bool,
                            work: (Entry<E>, int, nat) -> CallOutcome<C>, order: seq<nat>, i: nat)
    requires IsPermutationOf(order, |Selected(all, r0.ids, resume)|) && i < |all|
    ensures AllBelow(order, |Selected(all, r0.ids, resume)|)
    ensures var rs := Permuted(ColabBatch(Selected(all, r0.ids, resume), MaxRetries, work), order);
      StoredId(all[i]) in Replay(r0, Marks(rs)).ids
  {
    var todo := Selected(all, r0.ids, resume);
    PermutationBounds(order, |todo|);
    var rs := Permuted(ColabBatch(todo, MaxRetries, work), order);
    ReplayFrom(r0, Marks(rs));
    if StoredId(all[i]) !in r0.ids {
      SubmittedIfNew(all, r0.ids, resume, i);
      var m :| 0 <= m < |todo| && todo[m] == all[i];
      SubmittedIsMarked(todo, work, order, m);
    }
  }

  /** An entry whose id is not recorded is submitted. */
  lemma SubmittedIfNew<E>(all: seq<Entry<E>>, ids: set<int>, resume: bool, i: nat)
    requires i < |all| && StoredId(all[i]) !in ids
    ensures all[i] in Selected(all, ids, resume)
  {
    UnprocessedMembers(all, ids);
  }

  /** A submitted entry's id is among the ids its batch marks. */
  lemma SubmittedIsMarked<E, C>(todo: seq<Entry<E>>, work: (Entry<E>, int, nat) -> CallOutcome<C>,
                                order: seq<nat>, m: nat)
    requires IsPermutationOf(order, |todo|) && m < |todo|
    ensures AllBelow(order, |todo|)
    ensures StoredId(todo[m]) in IdsOf(Marks(Permuted(ColabBatch(todo, MaxRetries, work), order)))
  {
    PermutationBounds(order, |todo|);
    var rs := Permuted(ColabBatch(todo, MaxRetries, work), order);
    assert Range(|todo|)[m] == m;
    assert m in multiset(Range(|todo|));
    assert m in multiset(order);
    var j :| 0 <= j < |order| && order[j] == m;
    ColabResultId(todo[m], MaxRetries, work);
    assert rs[j].entryId == StoredId(todo[m]);
    MarkedId(rs, j);
  }
}
