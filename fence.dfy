/** The markdown-fence stripper the LLM drivers apply to the model's stripped answer
    before decoding it as JSON: an answer that opens with a fence is replaced by what
    lies between the first two fences, less a leading `json` tag, stripped. */
module Fence {
  import opened Wrappers
  import opened Strings

  const Tick := "```"

  /** `s.split('```')[1]` for an `s` that opens with a fence: the text after the first
      fence up to the next one, or to the end when there is no other. */
  function SecondPiece(s: string): string
    requires StartsWith(s, Tick)
  {
    var t := s[|Tick|..];
    match Find(t, Tick)
    case Some(k) => t[..k]
    case None => t
  }

  /** `t[4:]` when `t.startswith('json')`. */
  function DropJsonTag(t: string): string {
    if StartsWith(t, "json") then t[4..] else t
  }

  /** The fence handling of an answer `s` that has already been stripped. */
  function Unfence(s: string): (r: string)
    ensures !StartsWith(s, Tick) ==> r == s
    ensures StartsWith(s, Tick) ==> IsStripped(r)
  {
    if StartsWith(s, Tick) then Strip(DropJsonTag(SecondPiece(s))) else s
  }

  /** The text before the first occurrence of `p` holds no `p`. */
  lemma NoneBeforeFirst(t: string, p: string, k: nat)
    requires |p| > 0 && k <= |t| && forall j :: 0 <= j < k ==> !OccursAt(t, p, j)
    ensures !Contains(t[..k], p)
  {
    forall i | 0 <= i <= k - |p| ensures !OccursAt(t[..k], p, i) {
      assert t[..k][i..i + |p|] == t[i..i + |p|];
      assert !OccursAt(t, p, i);
    }
  }

  /** A piece of a text that holds no `p` holds no `p`. */
  lemma NoneInSlice(s: string, p: string, a: nat, b: nat)
    requires |p| > 0 && a <= b <= |s| && !Contains(s, p)
    ensures !Contains(s[a..b], p)
  {
    forall i | 0 <= i <= (b - a) - |p| ensures !OccursAt(s[a..b], p, i) {
      var u := s[a..b];
      var v, w := u[i..i + |p|], s[a + i..a + i + |p|];
      forall x | 0 <= x < |p| ensures v[x] == w[x] {
        assert u[i + x] == s[a + i + x];
      }
      assert v == w;
      assert !OccursAt(s, p, a + i);
    }
  }

  lemma SecondPieceNoFence(s: string)
    requires StartsWith(s, Tick)
    ensures !Contains(SecondPiece(s), Tick)
  {
    var t := s[|Tick|..];
    match Find(t, Tick)
    case Some(k) =>
      NoneBeforeFirst(t, Tick, k);
    case None =>
      assert !Contains(t, Tick);
  }

  /** The unfenced text of a fenced answer holds no fence. */
  lemma UnfencedHasNoFence(s: string)
    requires StartsWith(s, Tick)
    ensures !Contains(Unfence(s), Tick)
  {
    var piece := SecondPiece(s);
    SecondPieceNoFence(s);
    var d := DropJsonTag(piece);
    if StartsWith(piece, "json") {
      NoneInSlice(piece, Tick, 4, |piece|);
      assert piece[4..|piece|] == d;
    }
    StripIsPiece(d);
    NoneInSlice(d, Tick, StripStart(d), StripStart(d) + |Strip(d)|);
  }

  /** Unfencing twice is unfencing once: what is left never opens with a fence. */
  lemma UnfenceIdempotent(s: string)
    ensures Unfence(Unfence(s)) == Unfence(s)
  {
    if StartsWith(s, Tick) {
      var r := Unfence(s);
      UnfencedHasNoFence(s);
      if StartsWith(r, Tick) {
        assert OccursAt(r, Tick, 0);
        assert false;
      }
    }
  }

  /** The first fence in `body + "```" + rest` is the one after `body`, when `body`
      holds no fence and does not end with a backtick. */
  lemma FenceAfterBody(body: string, rest: string)
    requires !Contains(body, Tick) && (body == [] || body[|body| - 1] != '`')
    ensures Find(body + Tick + rest, Tick) == Some(|body|)
  {
    var t := body + Tick + rest;
    assert OccursAt(t, Tick, |body|) by {
      assert t[|body|..|body| + 3] == Tick;
    }
    forall j | 0 <= j < |body| ensures !OccursAt(t, Tick, j) {
      if j + 3 <= |body| {
        assert t[j..j + 3] == body[j..j + 3];
        assert !OccursAt(body, Tick, j);
      } else {
        assert t[j..j + 3][|body| - 1 - j] == t[|body| - 1] == body[|body| - 1];
      }
    }
    assert Contains(t, Tick);
  }

  /** Wrapping a text in a `json`-tagged fence, with anything after the closing fence,
      and unfencing gives back the text stripped. */
  lemma UnfenceTagged(body: string, rest: string)
    requires !Contains(body, Tick) && (body == [] || body[|body| - 1] != '`')
    ensures Unfence(Tick + "json" + body + Tick + rest) == Strip(body)
  {
    var s := Tick + "json" + body + Tick + rest;
    var inner := "json" + body;
    TagKeepsNoFence(body);
    assert StartsWith(s, Tick) by {
      assert s[..3] == Tick;
    }
    assert s[|Tick|..] == inner + Tick + rest;
    assert inner == [] || inner[|inner| - 1] != '`' by {
      if |body| == 0 {
        assert inner[|inner| - 1] == 'n';
      } else {
        assert inner[|inner| - 1] == body[|body| - 1];
      }
    }
    FenceAfterBody(inner, rest);
    assert (inner + Tick + rest)[..|inner|] == inner;
    assert StartsWith(inner, "json") && inner[4..] == body;
  }

  lemma TagKeepsNoFence(body: string)
    requires !Contains(body, Tick)
    ensures !Contains("json" + body, Tick)
  {
    var t := "json" + body;
    forall i | 0 <= i <= |t| - 3 ensures !OccursAt(t, Tick, i) {
      if i < 4 {
        assert t[i..i + 3][0] == t[i] == "json"[i];
      } else {
        assert t[i..i + 3] == body[i - 4..i - 1];
        assert !OccursAt(body, Tick, i - 4);
      }
    }
  }

  /** The same without a tag: a text that does not open with `json`, fenced. */
  lemma UnfenceUntagged(body: string, rest: string)
    requires !Contains(body, Tick) && (body == [] || body[|body| - 1] != '`')
    requires !StartsWith(body, "json")
    ensures Unfence(Tick + body + Tick + rest) == Strip(body)
  {
    var s := Tick + body + Tick + rest;
    assert StartsWith(s, Tick) by {
      assert s[..3] == Tick;
    }
    assert s[|Tick|..] == body + Tick + rest;
    FenceAfterBody(body, rest);
    assert (body + Tick + rest)[..|body|] == body;
  }
}
