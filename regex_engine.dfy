/** `modules/regex_engine.py`: every pattern's matches collected in pattern order, then
    deduplicated keeping first occurrences. `re.findall` itself is a parameter. */
module RegexEngine {
  import opened Wrappers
  import opened Sequences

  /** `re.findall(pattern, text)` as a given function of the pattern and the text:
      the list of matches, or `None` when compiling the pattern raises `re.error`. */
  type Matcher = (string, string) -> Option<seq<string>>

  /** What one pattern adds to `all_matches`: nothing when it raises `re.error`. */
  function MatchesOf(findall: Matcher, pattern: string, text: string): seq<string> {
    match findall(pattern, text)
    case Some(ms) => ms
    case None => []
  }

  /** `all_matches` after the loop has run over `patterns`. */
  function AllMatches(findall: Matcher, patterns: seq<string>, text: string): seq<string>
    decreases |patterns|
  {
    if |patterns| == 0 then []
    else
      AllMatches(findall, patterns[..|patterns| - 1], text)
      + MatchesOf(findall, patterns[|patterns| - 1], text)
  }

  /** `extract_patterns(text, patterns)` before the JSON encoding: with `patterns`
      absent the configured `defaults` are used (an empty list is not absent). */
  method ExtractPatterns(text: string, patterns: Option<seq<string>>, defaults: seq<string>,
                         findall: Matcher) returns (unique: seq<string>)
    ensures unique == Dedup(AllMatches(findall, patterns.GetOr(defaults), text))
  {
    var ps := if patterns.None? then defaults else patterns.value;
    var all: seq<string> := [];
    for i := 0 to |ps|
      invariant all == AllMatches(findall, ps[..i], text)
    {
      assert ps[..i + 1][..i] == ps[..i];
      var found := findall(ps[i], text);
      if found.Some? {
        all := all + found.value;
      }
    }
    assert ps[..|ps|] == ps;
    var seen: set<string> := {};
    unique := [];
    for i := 0 to |all|
      invariant unique == Dedup(all[..i])
      invariant seen == Elems(all[..i])
    {
      DedupStep(all, i);
      if all[i] !in seen {
        seen := seen + {all[i]};
        unique := unique + [all[i]];
      }
    }
    assert all[..|all|] == all;
  }

  /** One step of the first-occurrence loop: the `seen` set decides the same thing as
      looking back over the prefix. */
  lemma DedupStep(xs: seq<string>, i: nat)
    requires i < |xs|
    ensures Dedup(xs[..i + 1])
            == Dedup(xs[..i]) + (if xs[i] in Elems(xs[..i]) then [] else [xs[i]])
    ensures Elems(xs[..i + 1]) == Elems(xs[..i]) + {xs[i]}
  {
    assert xs[..i + 1][..i] == xs[..i];
    assert xs[..i + 1] == xs[..i] + [xs[i]];
    InElems(xs[..i], xs[i]);
    ElemsSnoc(xs[..i], xs[i]);
  }

  lemma {:induction false} AllMatchesAppend(findall: Matcher, a: seq<string>, b: seq<string>,
                                            text: string)
    ensures AllMatches(findall, a + b, text)
            == AllMatches(findall, a, text) + AllMatches(findall, b, text)
    decreases |b|
  {
    if |b| == 0 {
      assert a + b == a;
    } else {
      var b' := b[..|b| - 1];
      assert (a + b)[..|a + b| - 1] == a + b';
      AllMatchesAppend(findall, a, b', text);
      AppendAssoc(AllMatches(findall, a, text), AllMatches(findall, b', text),
                  MatchesOf(findall, b[|b| - 1], text));
    }
  }

  /** A string is among the matches collected exactly when some pattern found it. */
  lemma {:induction false} InAllMatches(findall: Matcher, patterns: seq<string>, text: string,
                                        x: string)
    ensures x in AllMatches(findall, patterns, text)
            <==> exists i :: 0 <= i < |patterns| && x in MatchesOf(findall, patterns[i], text)
    decreases |patterns|
  {
    if |patterns| > 0 {
      var init := patterns[..|patterns| - 1];
      InAllMatches(findall, init, text, x);
      if x in AllMatches(findall, patterns, text) {
        if x in AllMatches(findall, init, text) {
          var i :| 0 <= i < |init| && x in MatchesOf(findall, init[i], text);
          assert patterns[i] == init[i];
        }
      } else {
        forall i | 0 <= i < |patterns| ensures x !in MatchesOf(findall, patterns[i], text) {
          if i < |init| { assert patterns[i] == init[i]; }
        }
      }
    }
  }

  /** The result holds no string twice, and holds exactly the strings some pattern
      matched. */
  lemma ExtractedMatches(findall: Matcher, patterns: seq<string>, text: string, x: string)
    ensures NoDup(Dedup(AllMatches(findall, patterns, text)))
    ensures x in Dedup(AllMatches(findall, patterns, text))
            <==> exists i :: 0 <= i < |patterns| && x in MatchesOf(findall, patterns[i], text)
  {
    var all := AllMatches(findall, patterns, text);
    DedupProperties(all);
    InElems(all, x);
    InElems(Dedup(all), x);
    InAllMatches(findall, patterns, text, x);
  }

  /** A pattern that raises `re.error` contributes nothing: the result is the one the
      other patterns give on their own. */
  lemma InvalidPatternSkipped(findall: Matcher, a: seq<string>, p: string, b: seq<string>,
                              text: string)
    requires findall(p, text).None?
    ensures AllMatches(findall, a + [p] + b, text) == AllMatches(findall, a + b, text)
  {
    assert AllMatches(findall, [p], text) == [] by {
      assert [p][..0] == [];
    }
    AllMatchesAppend(findall, a, [p], text);
    var left := AllMatches(findall, a + [p], text);
    assert left == AllMatches(findall, a, text);
    AllMatchesAppend(findall, a + [p], b, text);
    AllMatchesAppend(findall, a, b, text);
  }

  /** Deduplicating a longer list only adds at the end. */
  lemma {:induction false} DedupPrefix<X>(a: seq<X>, b: seq<X>)
    ensures Dedup(a) <= Dedup(a + b)
    decreases |b|
  {
    if |b| == 0 {
      assert a + b == a;
    } else {
      var b' := b[..|b| - 1];
      assert (a + b)[..|a + b| - 1] == a + b';
      DedupPrefix(a, b');
    }
  }

  /** First-occurrence order follows pattern order: the distinct matches of the first
      patterns come first, unchanged by the patterns after them. */
  lemma EarlierPatternsFirst(findall: Matcher, a: seq<string>, b: seq<string>, text: string)
    ensures Dedup(AllMatches(findall, a, text)) <= Dedup(AllMatches(findall, a + b, text))
  {
    AllMatchesAppend(findall, a, b, text);
    DedupPrefix(AllMatches(findall, a, text), AllMatches(findall, b, text));
  }
}
