/** The bookkeeping the drivers' progress callbacks share: the checkpoint mark each
    result makes, the lines the results add to the output, and the running totals at
    which an interval save falls due. */
module Progress {
  import opened Wrappers
  import opened Sequences
  import opened CheckpointStore
  import opened ParallelProcessor

  /** The `mark_processed(result.entry_id, result.success, result.chunks_created)`
      call a callback makes for a result. */
  function MarkOf<C>(r: ProcessingResult<C>): Mark {
    Mark(r.entryId, r.success, r.chunksCreated)
  }

  /** The marks of a list of results, one per result, in order. */
  function Marks<C>(rs: seq<ProcessingResult<C>>): (h: seq<Mark>)
    ensures |h| == |rs| && forall i :: 0 <= i < |rs| ==> h[i] == MarkOf(rs[i])
  {
    seq(|rs|, i requires 0 <= i < |rs| => MarkOf(rs[i]))
  }

  /** What a list of results adds to the output file, `lines(r)` being what one
      result adds. */
  function Outputs<C, L>(rs: seq<ProcessingResult<C>>, lines: ProcessingResult<C> -> seq<L>): seq<L>
    decreases |rs|
  {
    if |rs| == 0 then [] else Outputs(rs[..|rs| - 1], lines) + lines(rs[|rs| - 1])
  }

  /** Handling one more result: its mark and its lines come after those before. */
  lemma Step<C, L>(r0: Record, rs: seq<ProcessingResult<C>>, i: nat,
                   lines: ProcessingResult<C> -> seq<L>)
    requires i < |rs|
    ensures Replay(r0, Marks(rs[..i + 1])) == MarkRecord(Replay(r0, Marks(rs[..i])), MarkOf(rs[i]))
    ensures Outputs(rs[..i + 1], lines) == Outputs(rs[..i], lines) + lines(rs[i])
  {
    var h := Marks(rs[..i + 1]);
    assert h[..i] == Marks(rs[..i]);
    assert rs[..i + 1][..i] == rs[..i];
  }

  /** The id of every result handled is in the set its marks record. */
  lemma MarkedId<C>(rs: seq<ProcessingResult<C>>, j: nat)
    requires j < |rs|
    ensures rs[j].entryId in IdsOf(Marks(rs))
  {
    assert Marks(rs)[j].id == rs[j].entryId;
  }

  /** `t` is a whole number of steps of `d` away from zero, counted by repeated
      subtraction (or addition, below zero). */
  predicate MultipleOf(t: int, d: nat)
    requires d > 0
    decreases if t < 0 then -t else t
  {
    if t == 0 then true
    else if -(d as int) < t < d then false
    else if t > 0 then MultipleOf(t - d, d)
    else MultipleOf(t + d, d)
  }

  /** A save falls due at running total `total`: it is a multiple of the interval. */
  predicate Due(total: int, interval: int)
    requires interval != 0
  {
    MultipleOf(total, if interval < 0 then -interval else interval)
  }

  /** The drivers' test `total % interval == 0` holds exactly when a save is due.
      Python's `%` and Dafny's agree on whether the remainder is zero, whatever the
      signs. */
  lemma DueIffRemainderZero(total: int, interval: int)
    requires interval != 0
    ensures Due(total, interval) <==> total % interval == 0
  {
    var d := if interval < 0 then -interval else interval;
    MultipleOfIff(total, d);
    if interval < 0 {
      ModAbs(total, interval);
    }
  }

  /** The drivers' test itself, `total % interval == 0`. */
  method IsDue(total: int, interval: int) returns (due: bool)
    requires interval != 0
    ensures due == Due(total, interval)
  {
    due := total % interval == 0;
    DueIffRemainderZero(total, interval);
  }

  lemma {:induction false} MultipleOfIff(t: int, d: nat)
    requires d > 0
    ensures MultipleOf(t, d) <==> t % d == 0
    decreases if t < 0 then -t else t
  {
    if t == 0 {
    } else if -(d as int) < t < d {
      if t < 0 {
        assert t % d == t + d;
      }
    } else if t > 0 {
      MultipleOfIff(t - d, d);
      ModShift(t - d, d);
    } else {
      MultipleOfIff(t + d, d);
      ModShift(t, d);
    }
  }

  lemma ModShift(x: int, d: nat)
    requires d > 0
    ensures (x + d) % d == x % d
  {
    var q, r := x / d, x % d;
    assert x == q * d + r && 0 <= r < d;
    assert x + d == (q + 1) * d + r;
    DivUnique(x + d, d, q + 1, r);
  }

  lemma ModAbs(x: int, k: int)
    requires k < 0
    ensures x % k == 0 <==> x % (-k) == 0
  {
    var q, r := x / k, x % k;
    assert x == q * k + r && 0 <= r < -k;
    assert x == (-q) * (-k) + r;
  }

  /** The values of `total_processed` from `base + 1` to `base + n` that are multiples
      of `interval`: where a callback that started from `base` saves. */
  function DueTotals(base: int, n: nat, interval: int): seq<int>
    requires interval != 0
    decreases n
  {
    if n == 0 then []
    else DueTotals(base, n - 1, interval) + (if Due(base + n, interval) then [base + n] else [])
  }

  /** One more callback adds its running total to the saves exactly when it is due. */
  lemma DueStep(base: int, n: nat, interval: int, saved: bool)
    requires interval != 0 && saved == Due(base + n + 1, interval)
    ensures DueTotals(base, n + 1, interval) == DueTotals(base, n, interval) + (if saved then [base + n + 1] else [])
  {
  }

  /** An interval save happens once per multiple of `interval` that the running total
      passes: `n` callbacks from `base` save `(base + n) / interval - base / interval`
      times. */
  lemma {:induction false} DueCount(base: int, n: nat, interval: int)
    requires interval > 0
    ensures |DueTotals(base, n, interval)| == (base + n) / interval - base / interval
    decreases n
  {
    if n > 0 {
      DueCount(base, n - 1, interval);
      NextQuotient(base + n - 1, interval);
      DueIffRemainderZero(base + n, interval);
    }
  }

  lemma NextQuotient(x: int, d: int)
    requires d > 0
    ensures (x + 1) / d == x / d + (if (x + 1) % d == 0 then 1 else 0)
  {
    var q, r := x / d, x % d;
    assert x == q * d + r && 0 <= r < d;
    if r + 1 == d {
      assert x + 1 == (q + 1) * d;
      DivUnique(x + 1, d, q + 1, 0);
    } else {
      assert x + 1 == q * d + (r + 1);
      DivUnique(x + 1, d, q, r + 1);
    }
  }

  /** How a driver run ends: nothing left to submit, every callback run, a keyboard
      interrupt after some of the callbacks, or an exception a callback raised. */
  datatype Outcome = AllDone | Completed | Interrupted | Crashed

  /** What a callback's write loop does with one chunk: skip it, write a line for it,
      or raise (a key or attribute the chunk does not have). */
  datatype Action<L> = Skip | Write(line: L) | Raise

  /** The lines a write loop has written, and whether it stopped on a raise. */
  datatype Scanned<L> = Scanned(lines: seq<L>, raised: bool)

  /** The write loop over `cs`, one `step` per chunk, stopping at the first raise. */
  function Scan<T, L>(cs: seq<T>, step: T -> Action<L>): Scanned<L>
    decreases |cs|
  {
    if |cs| == 0 then Scanned([], false)
    else
      var s := Scan(cs[..|cs| - 1], step);
      if s.raised then s
      else
        match step(cs[|cs| - 1])
        case Skip => s
        case Write(l) => Scanned(s.lines + [l], false)
        case Raise => Scanned(s.lines, true)
  }

  lemma ScanStep<T, L>(cs: seq<T>, k: nat, step: T -> Action<L>)
    requires k < |cs| && !Scan(cs[..k], step).raised
    ensures var s := Scan(cs[..k], step);
      Scan(cs[..k + 1], step) == match step(cs[k])
        case Skip => s
        case Write(l) => Scanned(s.lines + [l], false)
        case Raise => Scanned(s.lines, true)
  {
    assert cs[..k + 1][..k] == cs[..k];
  }

  /** Once the loop has raised, the chunks after do not matter. */
  lemma {:induction false} ScanStops<T, L>(cs: seq<T>, k: nat, step: T -> Action<L>)
    requires k <= |cs| && Scan(cs[..k], step).raised
    ensures Scan(cs, step) == Scan(cs[..k], step)
    decreases |cs| - k
  {
    if k < |cs| {
      assert cs[..k + 1][..k] == cs[..k];
      ScanStops(cs, k + 1, step);
    } else {
      assert cs[..k] == cs;
    }
  }

  /** The loop raises exactly when some chunk raises. */
  lemma {:induction false} ScanRaised<T, L>(cs: seq<T>, step: T -> Action<L>)
    ensures Scan(cs, step).raised <==> exists i :: 0 <= i < |cs| && step(cs[i]).Raise?
    decreases |cs|
  {
    if |cs| > 0 {
      var init := cs[..|cs| - 1];
      ScanRaised(init, step);
      if exists i :: 0 <= i < |init| && step(init[i]).Raise? {
        var i :| 0 <= i < |init| && step(init[i]).Raise?;
        assert cs[i] == init[i];
      }
      if exists i :: 0 <= i < |cs| && step(cs[i]).Raise? {
        var i :| 0 <= i < |cs| && step(cs[i]).Raise?;
        if i < |init| {
          assert init[i] == cs[i];
        }
      }
    }
  }

  /** At most one line per chunk, each the line some chunk's step writes. */
  lemma {:induction false} ScanShape<T, L>(cs: seq<T>, step: T -> Action<L>)
    ensures |Scan(cs, step).lines| <= |cs|
    ensures forall l :: l in Scan(cs, step).lines ==> exists i :: 0 <= i < |cs| && step(cs[i]) == Write(l)
    decreases |cs|
  {
    if |cs| > 0 {
      var init := cs[..|cs| - 1];
      ScanShape(init, step);
      forall l | l in Scan(cs, step).lines
        ensures exists i :: 0 <= i < |cs| && step(cs[i]) == Write(l)
      {
        if l in Scan(init, step).lines {
          var i :| 0 <= i < |init| && step(init[i]) == Write(l);
          assert cs[i] == init[i];
        } else {
          assert step(cs[|cs| - 1]) == Write(l);
        }
      }
    }
  }

  /** One line per chunk exactly when every chunk writes one; the lines are then the
      chunks' lines in order. */
  lemma {:induction false} ScanAll<T, L>(cs: seq<T>, step: T -> Action<L>)
    ensures |Scan(cs, step).lines| == |cs| <==> forall i :: 0 <= i < |cs| ==> step(cs[i]).Write?
    ensures |Scan(cs, step).lines| == |cs| ==>
      !Scan(cs, step).raised && forall i :: 0 <= i < |cs| ==> Scan(cs, step).lines[i] == step(cs[i]).line
    decreases |cs|
  {
    if |cs| > 0 {
      var init := cs[..|cs| - 1];
      ScanAll(init, step);
      ScanShape(init, step);
      if forall i :: 0 <= i < |cs| ==> step(cs[i]).Write? {
        forall i | 0 <= i < |init| ensures step(init[i]).Write? {
          assert init[i] == cs[i];
        }
      }
      if |Scan(cs, step).lines| == |cs| {
        assert |Scan(init, step).lines| == |init| && step(cs[|cs| - 1]).Write?;
        forall i | 0 <= i < |cs|
          ensures step(cs[i]).Write? && Scan(cs, step).lines[i] == step(cs[i]).line
        {
          if i < |init| {
            assert init[i] == cs[i];
          }
        }
      }
    }
  }

  /** A callback's write loop: each chunk is skipped, appended as `step` says, or
      stops the loop with a raise, the lines before staying written. */
  method WriteUntilRaise<T, L>(out: seq<L>, data: seq<T>, step: T -> Action<L>)
    returns (out': seq<L>, raised: bool)
    ensures out' == out + Scan(data, step).lines
    ensures raised == Scan(data, step).raised
  {
    out' := out;
    for k := 0 to |data|
      invariant !Scan(data[..k], step).raised
      invariant out' == out + Scan(data[..k], step).lines
    {
      ScanStep(data, k, step);
      match step(data[k]) {
        case Skip =>
        case Write(l) =>
          out' := out' + [l];
        case Raise =>
          ScanStops(data, k + 1, step);
          return out', true;
      }
    }
    assert data[..|data|] == data;
    raised := false;
  }

  /** The position of the first result whose callback raises, or `|rs|` when none
      does. */
  function FirstCrash<C>(rs: seq<ProcessingResult<C>>, crashes: ProcessingResult<C> -> bool): (k: nat)
    ensures k <= |rs|
    ensures forall i :: 0 <= i < k ==> !crashes(rs[i])
    ensures k < |rs| ==> crashes(rs[k])
    decreases |rs|
  {
    if |rs| == 0 then 0
    else if crashes(rs[0]) then 0
    else
      var k := FirstCrash(rs[1..], crashes);
      assert forall i :: 1 <= i < |rs| ==> rs[i] == rs[1..][i - 1];
      1 + k
  }

  /** Callback `i`, reached before the first crash, is the first crash exactly when
      it crashes. */
  lemma FirstCrashStep<C>(rs: seq<ProcessingResult<C>>, crashes: ProcessingResult<C> -> bool, i: nat)
    requires i < |rs| && i <= FirstCrash(rs, crashes)
    ensures crashes(rs[i]) ==> FirstCrash(rs, crashes) == i
    ensures !crashes(rs[i]) ==> i + 1 <= FirstCrash(rs, crashes)
  {
  }

  /** The results whose callback ran: all of them, or the first `k` when the user
      interrupts after `k` callbacks. */
  function Handled<C>(rs: seq<ProcessingResult<C>>, interrupt: Option<nat>): (h: seq<ProcessingResult<C>>)
    ensures |h| <= |rs| && h == rs[..|h|]
    ensures interrupt.None? ==> h == rs
  {
    match interrupt
    case Some(k) => if k < |rs| then rs[..k] else rs
    case None => rs
  }
}
