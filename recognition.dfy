/**
 * How one recogniser outcome becomes the text fragment of a worker step in
 * `SpeechStream._recognition_worker`: the final hypothesis of an accepted
 * frame, else the partial hypothesis when partial results are enabled,
 * stripped of surrounding whitespace; blank hypotheses and recogniser
 * exceptions give no fragment.
 */
module Recognition {
  import opened Wrappers

  /**
   * What the recogniser reported for one frame. `Accepted(text)`: the frame
   * closed an utterance and the final result's "text" field (empty when the
   * field is missing) is `text`. `Pending(partial)`: it did not, and the
   * partial result's "partial" field would be `partial`. `Raised`: a call
   * into the recogniser or the decoding of its result raised an exception.
   */
  datatype RecognizerOutcome = Accepted(text: string) | Pending(partial: string) | Raised

  /** Python's `str.isspace` for one character. */
  predicate IsSpace(c: char)
  {
    var n := c as int;
    (9 <= n <= 13) || (28 <= n <= 32) || n == 0x85 || n == 0xA0 || n == 0x1680
    || (0x2000 <= n <= 0x200A) || n == 0x2028 || n == 0x2029 || n == 0x202F
    || n == 0x205F || n == 0x3000
  }

  /** The characters of `s` from index `lo` up to, not including, `hi` are whitespace. */
  predicate SpaceBetween(s: string, lo: int, hi: int)
  {
    forall k :: 0 <= lo <= k < hi <= |s| ==> IsSpace(s[k])
  }

  /** Every character of `s` is whitespace (so Python's `strip` empties it). */
  predicate IsBlank(s: string)
  {
    SpaceBetween(s, 0, |s|)
  }

  /** `s` neither starts nor ends with whitespace. */
  predicate Trimmed(s: string)
  {
    s == [] || (!IsSpace(s[0]) && !IsSpace(s[|s| - 1]))
  }

  /** `s` without its leading whitespace. */
  function StripLeading(s: string): (r: string)
    ensures |r| <= |s| && r == s[|s| - |r|..]
    ensures SpaceBetween(s, 0, |s| - |r|)
    ensures r == [] || !IsSpace(r[0])
  {
    if s != [] && IsSpace(s[0]) then StripLeading(s[1..]) else s
  }

  /** `s` without its trailing whitespace. */
  function StripTrailing(s: string): (r: string)
    ensures |r| <= |s| && r == s[..|r|]
    ensures SpaceBetween(s, |r|, |s|)
    ensures r == [] || !IsSpace(r[|r| - 1])
  {
    if s != [] && IsSpace(s[|s| - 1]) then StripTrailing(s[..|s| - 1]) else s
  }

  /** Python's `str.strip()` with no argument. */
  function Strip(s: string): (r: string)
    ensures |r| <= |s|
  {
    StripTrailing(StripLeading(s))
  }

  /**
   * `r` is what is left of `s` once whitespace is cut off both ends: the
   * `i` characters before it and all characters after it are whitespace.
   */
  predicate CutFrom(s: string, i: int, r: string)
  {
    && 0 <= i && i + |r| <= |s| && r == s[i..i + |r|]
    && SpaceBetween(s, 0, i) && SpaceBetween(s, i + |r|, |s|)
  }

  /**
   * `Strip` removes exactly the whitespace around the text: the result is
   * a contiguous part of `s` that neither starts nor ends with whitespace,
   * everything cut off is whitespace, and it is empty exactly when `s` is
   * blank.
   */
  lemma StripCharacterised(s: string)
    ensures CutFrom(s, |s| - |StripLeading(s)|, Strip(s))
    ensures Trimmed(Strip(s))
    ensures Strip(s) == [] <==> IsBlank(s)
  {
    StripCutsWhitespace(s);
    StripEnds(s);
    StripEmptyIffBlank(s);
  }

  lemma StripCutsWhitespace(s: string)
    ensures CutFrom(s, |s| - |StripLeading(s)|, Strip(s))
  {
    CutTail(s, StripLeading(s), Strip(s), |s| - |StripLeading(s)|);
  }

  /** Cutting a whitespace tail off a suffix of `s` that follows whitespace cuts it off `s`. */
  lemma CutTail(s: string, l: string, r: string, i: nat)
    requires i + |l| == |s| && l == s[i..] && SpaceBetween(s, 0, i)
    requires |r| <= |l| && r == l[..|r|]
    requires SpaceBetween(l, |r|, |l|)
    ensures CutFrom(s, i, r)
  {
    forall k | i + |r| <= k < |s|
      ensures IsSpace(s[k])
    {
      assert s[k] == l[k - i];
    }
  }

  lemma StripEnds(s: string)
    ensures Trimmed(Strip(s))
  {
    var l := StripLeading(s);
    var r := StripTrailing(l);
    if r != [] {
      assert r[0] == l[0];
    }
  }

  lemma StripEmptyIffBlank(s: string)
    ensures Strip(s) == [] <==> IsBlank(s)
  {
    var l := StripLeading(s);
    var r := StripTrailing(l);
    var i := |s| - |l|;
    if r != [] {
      StripEnds(s);
      StripCutsWhitespace(s);
      assert s[i] == r[0];
    }
  }

  /** A string that neither starts nor ends with whitespace is its own strip. */
  lemma StripOfTrimmed(s: string)
    requires Trimmed(s)
    ensures Strip(s) == s
  {
  }

  /** Stripping twice is stripping once. */
  lemma StripIdempotent(s: string)
    ensures Strip(Strip(s)) == Strip(s)
  {
    StripEnds(s);
    StripOfTrimmed(Strip(s));
  }

  /** The hypothesis the worker consults for an outcome, if any. */
  function Hypothesis(outcome: RecognizerOutcome, usePartial: bool): (h: Option<string>)
    ensures h.Some? <==> outcome.Accepted? || (outcome.Pending? && usePartial)
  {
    match outcome
    case Accepted(text) => Some(text)
    case Pending(partial) => if usePartial then Some(partial) else None
    case Raised => None
  }

  /**
   * The text update of one worker step: the stripped hypothesis, or `None`
   * when there is no hypothesis, it is blank, or the recogniser raised.
   */
  function Fragment(outcome: RecognizerOutcome, usePartial: bool): (f: Option<string>)
    ensures f.Some? <==> (outcome.Accepted? && !IsBlank(outcome.text))
                         || (outcome.Pending? && usePartial && !IsBlank(outcome.partial))
    ensures f.Some? ==> f.value != [] && f.value == Strip(Hypothesis(outcome, usePartial).value)
    ensures outcome.Raised? || (outcome.Pending? && !usePartial) ==> f == None
  {
    match Hypothesis(outcome, usePartial)
    case None => None
    case Some(h) =>
      StripCharacterised(h);
      var t := Strip(h);
      if t != [] then Some(t) else None
  }

  /** A fragment is already stripped: it has no surrounding whitespace. */
  lemma FragmentIsStripped(outcome: RecognizerOutcome, usePartial: bool)
    requires Fragment(outcome, usePartial).Some?
    ensures var t := Fragment(outcome, usePartial).value;
      t != [] && Trimmed(t) && Strip(t) == t
  {
    var h := Hypothesis(outcome, usePartial).value;
    StripEnds(h);
    StripIdempotent(h);
  }
}
