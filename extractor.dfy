/** `normalize_whitespace` of `modules/extractor.py`. The PDF reading around it is
    not part of this model. */
module Extractor {
  import opened Strings
  import opened Whitespace

  /** `normalize_whitespace(text)`: squeeze spaces, then newline runs, then strip. */
  function NormalizeWhitespace(text: string): (r: string)
    ensures IsStripped(r) && |r| <= |text|
  {
    Strip(SqueezeNewlines(SqueezeSpaces(text)))
  }

  /** The result has no two spaces in a row, no three newlines in a row, and no
      whitespace at either end. */
  lemma NormalizedShape(text: string)
    ensures var r := NormalizeWhitespace(text);
      NoDoubleSpace(r) && NoTripleNewline(r) && IsStripped(r)
  {
    var once := SqueezeSpaces(text);
    SqueezeSpacesNoDouble(text);
    SqueezeNewlinesKeepsSpacing(once);
    SqueezeNewlinesNoTriple(once);
    StripNoDoubleSpace(SqueezeNewlines(once));
    StripNoTripleNewline(SqueezeNewlines(once));
  }

  /** Normalising twice gives what normalising once gives. */
  lemma NormalizeIdempotent(text: string)
    ensures NormalizeWhitespace(NormalizeWhitespace(text)) == NormalizeWhitespace(text)
  {
    var r := NormalizeWhitespace(text);
    NormalizedShape(text);
    SqueezeSpacesNoop(r);
    SqueezeNewlinesNoop(r);
    StripOfStripped(r);
  }
}
