/**
 * An abstract text range: a half-open span [pos, end) of a shared, read-only
 * character buffer. Tokens and doc comment lines are both expressed as ranges.
 * Only the parts a Token relies on are modelled: the bounds invariant and the
 * text the range covers.
 */
module TextRanges {

  /** Raw offsets into a buffer, not yet known to be in bounds. */
  datatype Slice = Slice(buffer: string, pos: nat, end: nat)

  /** A slice whose offsets lie within its buffer: 0 <= pos <= end <= |buffer|. */
  type TextRange = s: Slice | s.pos <= s.end <= |s.buffer| witness Slice("", 0, 0)

  /** The number of characters the range covers. */
  function Length(r: TextRange): nat {
    r.end - r.pos
  }

  /** True when the range covers no characters. */
  predicate IsEmpty(r: TextRange) {
    r.pos == r.end
  }

  /** The characters the range covers, in buffer order. */
  function Text(r: TextRange): (s: string)
    ensures |s| == Length(r)
  {
    r.buffer[r.pos..r.end]
  }

  /** `inner` lies inside `outer`, over the same buffer. */
  predicate Within(inner: TextRange, outer: TextRange) {
    inner.buffer == outer.buffer && outer.pos <= inner.pos && inner.end <= outer.end
  }

  /**
   * The text of a range inside another is the matching slice of the outer
   * range's text, taken at offsets relative to the outer range's start.
   */
  lemma WithinText(inner: TextRange, outer: TextRange)
    requires Within(inner, outer)
    ensures Text(inner) == Text(outer)[inner.pos - outer.pos..inner.end - outer.pos]
  {
    var a, b := inner.pos - outer.pos, inner.end - outer.pos;
    forall i | 0 <= i < Length(inner)
      ensures Text(inner)[i] == Text(outer)[a..b][i]
    {
      assert Text(inner)[i] == inner.buffer[inner.pos + i];
      assert Text(outer)[a + i] == outer.buffer[outer.pos + a + i];
    }
  }

  /** A range is empty exactly when its text is the empty string. */
  lemma EmptyIffNoText(r: TextRange)
    ensures IsEmpty(r) <==> Text(r) == ""
  {
  }
}
