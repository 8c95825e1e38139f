/** The resumable-run checkpoint of `utils/checkpoint_manager.py`: a set of processed
    entry ids and four counters, persisted to one file. The file system is the `file`
    field holding an abstract file content; what can go wrong while saving is a
    parameter of `Save`. */
module CheckpointStore {
  import opened Wrappers
  import opened Sequences

  /** The `stats` dictionary. */
  datatype Stats = Stats(totalProcessed: int, successful: int, failed: int, chunksCreated: int)

  /** The four counters a fresh or cleared checkpoint starts from. */
  const ZeroStats := Stats(0, 0, 0, 0)

  /** Every processed entry was counted as exactly one of success or failure. */
  predicate Balanced(s: Stats) {
    s.successful + s.failed == s.totalProcessed
  }

  /** The counter update of one `mark_processed(entry_id, success, chunks_created)`. */
  function Bump(s: Stats, success: bool, chunks: int): Stats {
    if success then
      Stats(s.totalProcessed + 1, s.successful + 1, s.failed, s.chunksCreated + chunks)
    else
      Stats(s.totalProcessed + 1, s.successful, s.failed + 1, s.chunksCreated)
  }

  /** The in-memory state: `processed_ids` and `stats`. */
  datatype Record = Record(ids: set<int>, stats: Stats)

  /** One `mark_processed` call. */
  datatype Mark = Mark(id: int, success: bool, chunks: int)

  /** The state transition of one `mark_processed`. */
  function MarkRecord(r: Record, m: Mark): Record {
    Record(r.ids + {m.id}, Bump(r.stats, m.success, m.chunks))
  }

  /** The state after a sequence of `mark_processed` calls. */
  function Replay(r: Record, h: seq<Mark>): Record
    decreases |h|
  {
    if |h| == 0 then r else MarkRecord(Replay(r, h[..|h| - 1]), h[|h| - 1])
  }

  /** What the checkpoint file holds. A `Document` is a JSON object whose
      `processed_ids` and `stats` keys may each be absent; `Unreadable` is anything
      `json.load` or the key lookups reject (including a half-written file). */
  datatype FileContent =
    | Absent
    | Unreadable
    | Document(ids: Option<seq<int>>, stats: Option<Stats>)

  /** The state `_load` leaves after construction: the defaults unless the file is a
      readable document, each key falling back to its default on its own. */
  function Loaded(f: FileContent): (r: Record)
    ensures f.Absent? || f.Unreadable? ==> r == Record({}, ZeroStats)
    ensures f.Document? ==> r.ids == Elems(f.ids.GetOr([]))
                            && r.stats == f.stats.GetOr(ZeroStats)
  {
    match f
    case Document(ids, stats) => Record(Elems(ids.GetOr([])), stats.GetOr(ZeroStats))
    case _ => Record({}, ZeroStats)
  }

  /** The ways `save` can fail: creating the directory, writing the temporary file,
      or the final `os.replace`. */
  datatype SaveFault = NoFault | MkdirFails | TempWriteFails | ReplaceFails

  class CheckpointManager {
    var processedIds: set<int>
    var stats: Stats
    var file: FileContent
    /** The order `list(self.processed_ids)` produces: first insertion order here,
        an unspecified order in Python. */
    var listing: seq<int>

    ghost predicate Valid()
      reads this
    {
      NoDup(listing) && Elems(listing) == processedIds
    }

    function Rec(): Record
      reads this
    {
      Record(processedIds, stats)
    }

    /** `CheckpointManager(checkpoint_file)`: defaults, then `_load`, which never
        raises. */
    constructor (f: FileContent)
      ensures Valid()
      ensures Rec() == Loaded(f)
      ensures file == f
    {
      var r := Loaded(f);
      var l := if f.Document? then Dedup(f.ids.GetOr([])) else [];
      DedupProperties(if f.Document? then f.ids.GetOr([]) else []);
      processedIds := r.ids;
      stats := r.stats;
      file := f;
      listing := l;
    }

    /** `is_processed(entry_id)`. */
    predicate IsProcessed(id: int)
      reads this
    {
      id in processedIds
    }

    /** `mark_processed(entry_id, success, chunks_created)`. */
    method MarkProcessed(id: int, success: bool, chunks: int)
      requires Valid()
      modifies this
      ensures Valid()
      ensures Rec() == MarkRecord(old(Rec()), Mark(id, success, chunks))
      ensures IsProcessed(id)
      ensures processedIds == old(processedIds) + {id}
      ensures stats.totalProcessed == old(stats.totalProcessed) + 1
      ensures file == old(file)
    {
      if id !in processedIds {
        ElemsSnoc(listing, id);
        InElems(listing, id);
        listing := listing + [id];
      }
      processedIds := processedIds + {id};
      stats := Bump(stats, success, chunks);
    }

    /** `get_stats()`: a copy, so later marks do not change the value returned. */
    function GetStats(): (s: Stats)
      reads this
      ensures s == Rec().stats
    {
      stats
    }

    /** `get_remaining_count(total_entries)`: not clamped at zero. */
    function GetRemainingCount(totalEntries: int): (n: int)
      reads this
      ensures n + |processedIds| == totalEntries
      ensures n < 0 <==> |processedIds| > totalEntries
    {
      totalEntries - |processedIds|
    }

    /** `save()`: the document is written to a temporary file that then replaces the
        checkpoint, so a failure at any step leaves the old file in place; failures
        are swallowed. A successful save reloads as the current state. */
    method Save(fault: SaveFault)
      requires Valid()
      modifies this
      ensures Valid()
      ensures Rec() == old(Rec())
      ensures fault == NoFault ==> file.Document? && Loaded(file) == Rec()
      ensures fault != NoFault ==> file == old(file)
    {
      if fault == NoFault {
        file := Document(Some(listing), Some(stats));
      }
    }

    /** `clear()`: empty set, zero counters, and the checkpoint file removed. */
    method Clear()
      modifies this
      ensures Valid()
      ensures Rec() == Record({}, ZeroStats)
      ensures file == Absent
    {
      processedIds := {};
      stats := ZeroStats;
      file := Absent;
      listing := [];
    }
  }

  /** Counter updates keep success plus failure equal to the total. */
  lemma BumpBalanced(s: Stats, success: bool, chunks: int)
    requires Balanced(s)
    ensures Balanced(Bump(s, success, chunks))
  {
  }

  /** Marking always counts the call, whether or not the id was new: marking an id
      twice leaves the set as after the first mark but counts two entries. */
  lemma MarkTwice(r: Record, m: Mark)
    ensures MarkRecord(MarkRecord(r, m), m).ids == MarkRecord(r, m).ids
    ensures MarkRecord(MarkRecord(r, m), m).stats.totalProcessed == r.stats.totalProcessed + 2
  {
  }

  /** How many marks in `h` were successes. */
  function Successes(h: seq<Mark>): nat
    decreases |h|
  {
    if |h| == 0 then 0 else Successes(h[..|h| - 1]) + (if h[|h| - 1].success then 1 else 0)
  }

  /** The chunks reported by the successful marks of `h`. */
  function SuccessChunks(h: seq<Mark>): int
    decreases |h|
  {
    if |h| == 0 then 0
    else SuccessChunks(h[..|h| - 1]) + (if h[|h| - 1].success then h[|h| - 1].chunks else 0)
  }

  function IdsOf(h: seq<Mark>): set<int> {
    set j | 0 <= j < |h| :: h[j].id
  }

  lemma IdsOfSnoc(h: seq<Mark>)
    requires |h| > 0
    ensures IdsOf(h) == IdsOf(h[..|h| - 1]) + {h[|h| - 1].id}
  {
    var h' := h[..|h| - 1];
    forall x | x in IdsOf(h) ensures x in IdsOf(h') + {h[|h| - 1].id} {
      var j :| 0 <= j < |h| && h[j].id == x;
      if j < |h| - 1 { assert h'[j] == h[j]; }
    }
    forall x | x in IdsOf(h') ensures x in IdsOf(h) {
      var j :| 0 <= j < |h'| && h'[j].id == x;
      assert h[j] == h'[j];
    }
  }

  /** From a fresh or cleared checkpoint the id set is the set of ids marked, which
      can be smaller than the number of marks. */
  lemma {:induction false} ReplayIds(h: seq<Mark>)
    ensures Replay(Record({}, ZeroStats), h).ids == IdsOf(h)
    ensures |IdsOf(h)| <= |h|
    decreases |h|
  {
    if |h| > 0 {
      ReplayIds(h[..|h| - 1]);
      IdsOfSnoc(h);
      assert |IdsOf(h[..|h| - 1]) + {h[|h| - 1].id}| <= |IdsOf(h[..|h| - 1])| + 1;
    } else {
      assert IdsOf(h) == {};
    }
  }

  /** From a fresh or cleared checkpoint the counters are a census of the marks made:
      one per call, successes and failures split, chunks summed over successes. */
  lemma {:induction false} ReplayStats(h: seq<Mark>)
    ensures var s := Replay(Record({}, ZeroStats), h).stats;
      && s.totalProcessed == |h|
      && s.successful == Successes(h)
      && s.failed == |h| - Successes(h)
      && s.chunksCreated == SuccessChunks(h)
      && Balanced(s)
    decreases |h|
  {
    if |h| > 0 {
      ReplayStats(h[..|h| - 1]);
    }
  }

  /** From any state, marking adds the marked ids to the set and counts every call,
      as a success or as a failure. */
  lemma {:induction false} ReplayFrom(r: Record, h: seq<Mark>)
    ensures Replay(r, h).ids == r.ids + IdsOf(h)
    ensures Replay(r, h).stats.totalProcessed == r.stats.totalProcessed + |h|
    ensures Replay(r, h).stats.successful == r.stats.successful + Successes(h)
    ensures Replay(r, h).stats.failed == r.stats.failed + (|h| - Successes(h))
    decreases |h|
  {
    if |h| > 0 {
      ReplayFrom(r, h[..|h| - 1]);
      IdsOfSnoc(h);
    } else {
      assert IdsOf(h) == {};
    }
  }

  /** A run that marks entries, saves without fault, and is then restarted on the same
      file resumes with exactly the state it saved. */
  method SaveAndResume(f: FileContent, h: seq<Mark>) returns (saved: Record, resumed: Record)
    ensures saved == Replay(Loaded(f), h)
    ensures resumed == saved
  {
    var cm := new CheckpointManager(f);
    var i := 0;
    while i < |h|
      invariant 0 <= i <= |h|
      invariant cm.Valid()
      invariant cm.Rec() == Replay(Loaded(f), h[..i])
    {
      assert h[..i + 1][..i] == h[..i];
      cm.MarkProcessed(h[i].id, h[i].success, h[i].chunks);
      i := i + 1;
    }
    assert h[..i] == h;
    cm.Save(NoFault);
    saved := cm.Rec();
    var next := new CheckpointManager(cm.file);
    resumed := next.Rec();
  }
}
