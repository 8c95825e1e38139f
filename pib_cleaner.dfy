/** `clean_pib_bilingual.py`: the per-field text cleaner and the line loop of
    `process_jsonl_file`. Reading the input and writing the output file are the
    sequences of lines in and entries out; the JSON decoder is the `Line` value. */
module PibCleaner {
  import opened Wrappers
  import opened Strings
  import opened Whitespace

  /** The two characters backslash and `n`, which `clean_text` treats as an escaped
      newline left in the text. */
  const EscapedNewline := "\\n"

  /** The text has no backslash followed by `n`. */
  predicate NoEscapedNewline(s: string) {
    forall i :: 0 <= i < |s| - 1 ==> !(s[i] == '\\' && s[i + 1] == 'n')
  }

  /** `clean_text(text)` on a string: escaped newlines to spaces, whitespace runs to
      one space, then strip; the empty string is returned as it is. */
  function CleanText(text: string): (r: string)
    ensures IsStripped(r)
  {
    if |text| == 0 then ""
    else Strip(SquashSpace(ReplaceAll(text, EscapedNewline, " ")))
  }

  lemma ConsNoEscapedNewline(c: char, t: string)
    requires NoEscapedNewline(t) && (c == '\\' && |t| > 0 ==> t[0] != 'n')
    ensures NoEscapedNewline([c] + t)
  {
    var s := [c] + t;
    forall i | 0 < i < |s| - 1 ensures !(s[i] == '\\' && s[i + 1] == 'n') {
      assert s[i] == t[i - 1] && s[i + 1] == t[i];
    }
  }

  lemma SliceNoEscapedNewline(s: string, a: nat, b: nat, t: string)
    requires a <= b <= |s| && t == s[a..b] && NoEscapedNewline(s)
    ensures NoEscapedNewline(t)
  {
    assert forall i :: 0 <= i < |t| ==> t[i] == s[a + i];
  }

  /** The first character after replacing is a space or the first character before. */
  lemma ReplaceHead(x: string)
    requires |x| > 0
    ensures |ReplaceAll(x, EscapedNewline, " ")| > 0
    ensures var r := ReplaceAll(x, EscapedNewline, " "); r[0] == ' ' || r[0] == x[0]
  {
  }

  /** No escaped newline is left by the replacement, nor made by it. */
  lemma {:induction false} ReplaceLeavesNone(x: string)
    ensures NoEscapedNewline(ReplaceAll(x, EscapedNewline, " "))
    decreases |x|
  {
    if |x| >= 2 {
      if x[..2] == EscapedNewline {
        ReplaceLeavesNone(x[2..]);
        ConsNoEscapedNewline(' ', ReplaceAll(x[2..], EscapedNewline, " "));
      } else {
        ReplaceLeavesNone(x[1..]);
        ReplaceHead(x[1..]);
        assert x[0] == '\\' ==> x[1] != 'n';
        ConsNoEscapedNewline(x[0], ReplaceAll(x[1..], EscapedNewline, " "));
      }
    }
  }

  /** Squashing whitespace makes no escaped newline. */
  lemma {:induction false} SquashKeepsNone(s: string)
    requires NoEscapedNewline(s)
    ensures NoEscapedNewline(SquashSpace(s))
    decreases |s|
  {
    if |s| > 0 {
      if IsSpace(s[0]) {
        var rest := LStrip(s[1..]);
        SliceNoEscapedNewline(s, |s| - |rest|, |s|, rest);
        SquashKeepsNone(rest);
        ConsNoEscapedNewline(' ', SquashSpace(rest));
      } else {
        var tail := s[1..];
        SliceNoEscapedNewline(s, 1, |s|, tail);
        SquashKeepsNone(tail);
        assert s[0] == '\\' && |tail| > 0 ==> tail[0] != 'n';
        ConsNoEscapedNewline(s[0], SquashSpace(tail));
      }
    }
  }

  lemma StripKeepsNone(s: string)
    requires NoEscapedNewline(s)
    ensures NoEscapedNewline(Strip(s))
  {
    StripIsPiece(s);
    SliceNoEscapedNewline(s, StripStart(s), StripStart(s) + |Strip(s)|, Strip(s));
  }

  /** The cleaned text holds no escaped newline, its only whitespace is single spaces,
      and it has no whitespace at either end. */
  lemma CleanedShape(text: string)
    ensures var r := CleanText(text);
      NoEscapedNewline(r) && SingleSpaced(r) && IsStripped(r)
  {
    if |text| > 0 {
      var a := ReplaceAll(text, EscapedNewline, " ");
      ReplaceLeavesNone(text);
      SquashKeepsNone(a);
      StripKeepsNone(SquashSpace(a));
      SquashSpaceSingle(a);
      StripSingleSpaced(SquashSpace(a));
    }
  }

  lemma NoneContained(s: string)
    requires NoEscapedNewline(s)
    ensures !Contains(s, EscapedNewline)
  {
    forall i | 0 <= i <= |s| - 2 ensures !OccursAt(s, EscapedNewline, i) {
      assert s[i..i + 2][0] == s[i] && s[i..i + 2][1] == s[i + 1];
    }
  }

  /** Cleaning twice gives what cleaning once gives. */
  lemma CleanIdempotent(text: string)
    ensures CleanText(CleanText(text)) == CleanText(text)
  {
    var r := CleanText(text);
    if |r| > 0 {
      CleanedShape(text);
      NoneContained(r);
      ReplaceAbsent(r, EscapedNewline, " ");
      SquashSpaceNoop(r);
      StripOfStripped(r);
    }
  }

  /** A value `data.get(key, '')` can give: the key missing, a string, or some other
      JSON value (`null`, a number, a list, an object), which matters only by whether
      Python counts it as true. */
  datatype Field = Missing | Str(s: string) | NonString(truthy: bool)

  /** One input line after `json.loads`: `NotObject` is a line the decoder rejects, or
      a JSON value without `.get`. */
  datatype Line = NotObject | Object(english: Field, hindi: Field)

  /** `clean_text(data.get(key, ''))`, or `None` where it raises: a false value gives
      the empty string, a true one that is not a string has no `replace`. */
  function CleanField(f: Field): Option<string> {
    match f
    case Missing => Some("")
    case Str(s) => Some(CleanText(s))
    case NonString(truthy) => if truthy then None else Some("")
  }

  /** The entry a line produces, if any. */
  function CleanLine(l: Line): Option<(string, string)> {
    match l
    case NotObject => None
    case Object(e, h) =>
      if CleanField(e).Some? && CleanField(h).Some? then
        Some((CleanField(e).value, CleanField(h).value))
      else None
  }

  /** The entries written for `lines`, in order. */
  function Cleaned(lines: seq<Line>): seq<(string, string)>
    decreases |lines|
  {
    if |lines| == 0 then []
    else
      var init := Cleaned(lines[..|lines| - 1]);
      match CleanLine(lines[|lines| - 1])
      case Some(entry) => init + [entry]
      case None => init
  }

  /** The line loop of `process_jsonl_file`: a line that fails to decode or to clean
      is skipped and the loop goes on. */
  method ProcessJsonlFile(lines: seq<Line>)
    returns (written: seq<(string, string)>, processedCount: nat, totalEntries: nat)
    ensures written == Cleaned(lines)
    ensures processedCount == |written|
    ensures totalEntries == |lines|
  {
    written := [];
    processedCount := 0;
    totalEntries := 0;
    for n := 0 to |lines|
      invariant written == Cleaned(lines[..n])
      invariant processedCount == |written| && totalEntries == n
    {
      assert lines[..n + 1][..n] == lines[..n];
      totalEntries := totalEntries + 1;
      var entry := CleanLine(lines[n]);
      if entry.Some? {
        written := written + [entry.value];
        processedCount := processedCount + 1;
      }
    }
    assert lines[..|lines|] == lines;
  }

  /** At most one entry per line, and exactly one per line when every line decodes to
      an object whose two values clean. */
  lemma {:induction false} CleanedCount(lines: seq<Line>)
    ensures |Cleaned(lines)| <= |lines|
    ensures (forall i :: 0 <= i < |lines| ==> CleanLine(lines[i]).Some?) ==> |Cleaned(lines)| == |lines|
    decreases |lines|
  {
    if |lines| > 0 {
      var init := lines[..|lines| - 1];
      CleanedCount(init);
      if forall i :: 0 <= i < |lines| ==> CleanLine(lines[i]).Some? {
        assert forall i :: 0 <= i < |init| ==> init[i] == lines[i];
      }
    }
  }

  /** What `CleanedShape` promises of one cleaned text. */
  predicate IsCleanText(s: string) {
    NoEscapedNewline(s) && SingleSpaced(s) && IsStripped(s)
  }

  lemma CleanFieldShape(f: Field)
    requires CleanField(f).Some?
    ensures IsCleanText(CleanField(f).value)
  {
    if f.Str? {
      CleanedShape(f.s);
    }
  }

  /** Every entry written is a pair of cleaned texts. */
  lemma {:induction false} CleanedEntries(lines: seq<Line>)
    ensures forall i :: 0 <= i < |Cleaned(lines)| ==>
      IsCleanText(Cleaned(lines)[i].0) && IsCleanText(Cleaned(lines)[i].1)
    decreases |lines|
  {
    if |lines| > 0 {
      CleanedEntries(lines[..|lines| - 1]);
      var l := lines[|lines| - 1];
      if CleanLine(l).Some? {
        CleanFieldShape(l.english);
        CleanFieldShape(l.hindi);
      }
    }
  }
}
