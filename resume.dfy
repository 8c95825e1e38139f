/** The resume filter the parallel drivers share: the entries whose id the checkpoint
    has not recorded, in their original order. */
module Resume {
  import opened Wrappers
  import opened ParallelProcessor

  /** The id a driver looks up for an entry: `entry.get('entry_num', 0)`. */
  function StoredId<E>(e: Entry<E>): int {
    e.entryNum.GetOr(0)
  }

  /** `[e for e in entries if not checkpoint.is_processed(id(e))]`. */
  function Unprocessed<E>(entries: seq<Entry<E>>, ids: set<int>): (r: seq<Entry<E>>)
    ensures |r| <= |entries|
    decreases |entries|
  {
    if |entries| == 0 then []
    else
      var last := entries[|entries| - 1];
      Unprocessed(entries[..|entries| - 1], ids) + (if StoredId(last) in ids then [] else [last])
  }

  /** An entry is kept exactly when it is in the list and its id was not recorded. */
  lemma {:induction false} UnprocessedMembers<E>(entries: seq<Entry<E>>, ids: set<int>)
    ensures forall e :: e in Unprocessed(entries, ids) <==> e in entries && StoredId(e) !in ids
    decreases |entries|
  {
    if |entries| > 0 {
      var init := entries[..|entries| - 1];
      UnprocessedMembers(init, ids);
      assert entries == init + [entries[|entries| - 1]];
    }
  }

  /** The filter of two lists one after the other is the filter of each, in order:
      together with the one-entry case this pins the result down, order included. */
  lemma {:induction false} UnprocessedAppend<E>(a: seq<Entry<E>>, b: seq<Entry<E>>, ids: set<int>)
    ensures Unprocessed(a + b, ids) == Unprocessed(a, ids) + Unprocessed(b, ids)
    decreases |b|
  {
    if |b| == 0 {
      assert a + b == a;
    } else {
      var c := b[..|b| - 1];
      assert (a + b)[..|a + b| - 1] == a + c;
      assert (a + b)[|a + b| - 1] == b[|b| - 1];
      UnprocessedAppend(a, c, ids);
    }
  }

  /** One entry is kept exactly when its id is not recorded. */
  lemma UnprocessedOne<E>(e: Entry<E>, ids: set<int>)
    ensures Unprocessed([e], ids) == if StoredId(e) in ids then [] else [e]
  {
    assert [e][..0] == [];
  }

  /** With nothing recorded the filter keeps every entry. */
  lemma {:induction false} NothingRecorded<E>(entries: seq<Entry<E>>)
    ensures Unprocessed(entries, {}) == entries
    decreases |entries|
  {
    if |entries| > 0 {
      NothingRecorded(entries[..|entries| - 1]);
      assert entries == entries[..|entries| - 1] + [entries[|entries| - 1]];
    }
  }

  /** When every entry's id is recorded nothing is left. */
  lemma {:induction false} AllRecorded<E>(entries: seq<Entry<E>>, ids: set<int>)
    requires forall i :: 0 <= i < |entries| ==> StoredId(entries[i]) in ids
    ensures Unprocessed(entries, ids) == []
    decreases |entries|
  {
    if |entries| > 0 {
      AllRecorded(entries[..|entries| - 1], ids);
      assert StoredId(entries[|entries| - 1]) in ids;
    }
  }

  /** Recording more ids never brings an entry back. */
  lemma MoreRecorded<E>(entries: seq<Entry<E>>, ids: set<int>, more: set<int>, e: Entry<E>)
    requires ids <= more && e in Unprocessed(entries, more)
    ensures e in Unprocessed(entries, ids)
  {
    UnprocessedMembers(entries, ids);
    UnprocessedMembers(entries, more);
  }
}
