/**
 * Source positions (lib/syntax/span.rs): a `Span` is a piece of the
 * program text together with where it starts. Slicing a span moves its
 * offset forward and counts the newlines it skipped; the nom input
 * traits (`take`, `take_split`, `split_at_position*`) are built on
 * slicing.
 *
 * The source works on `&str` and counts offsets in bytes; this model
 * counts characters, which agree for ASCII text.
 */
module Span {
  import opened Wrappers
  import opened Errors

  datatype Span = Span(input: string, offset: nat, line: nat, column: nat)

  /** `Span::new`. */
  function New(input: string, offset: nat, line: nat, column: nat): (s: Span)
    ensures s.input == input && s.offset == offset && s.line == line && s.column == column
  {
    Span(input, offset, line, column)
  }

  /** `bytecount::count(_, b'\n')`. */
  function CountNewlines(s: string): (n: nat)
    ensures n <= |s|
    ensures n == 0 <==> (forall i :: 0 <= i < |s| ==> s[i] != '\n')
  {
    if s == [] then 0
    else CountNewlines(s[..|s| - 1]) + (if s[|s| - 1] == '\n' then 1 else 0)
  }

  lemma {:induction false} CountNewlinesAppend(a: string, b: string)
    ensures CountNewlines(a + b) == CountNewlines(a) + CountNewlines(b)
    decreases |b|
  {
    if b == [] {
      assert a + b == a;
    } else {
      var b' := b[..|b| - 1];
      assert (a + b)[..|a + b| - 1] == a + b';
      assert (a + b)[|a + b| - 1] == b[|b| - 1];
      CountNewlinesAppend(a, b');
    }
  }

  /**
   * The common tail of every `gen_slice_impl` instance: the new input
   * starts `k` units into the old one.
   */
  function Moved(s: Span, next: string, k: nat): Span
    requires k <= |s.input|
  {
    if k == 0 then Span(next, s.offset, s.line, s.column)
    else Span(next, s.offset + k, s.line + CountNewlines(s.input[..k]), 0)
  }

  /** `slice(start..end)`. Out-of-range bounds panic in the source. */
  function SliceRange(s: Span, start: nat, end: nat): (r: Span)
    requires start <= end <= |s.input|
    ensures r.input == s.input[start..end]
    ensures start == 0 ==> r.offset == s.offset && r.line == s.line && r.column == s.column
    ensures start > 0 ==>
      r.offset == s.offset + start && r.column == 0 &&
      r.line == s.line + CountNewlines(s.input[..start])
  {
    Moved(s, s.input[start..end], start)
  }

  /** `slice(..end)`: the start does not move. */
  function SliceTo(s: Span, end: nat): (r: Span)
    requires end <= |s.input|
    ensures r.input == s.input[..end]
    ensures r.offset == s.offset && r.line == s.line && r.column == s.column
  {
    Moved(s, s.input[..end], 0)
  }

  /** `slice(start..)`; `start == 0` returns a clone of the span. */
  function SliceFrom(s: Span, start: nat): (r: Span)
    requires start <= |s.input|
    ensures r.input == s.input[start..]
    ensures start == 0 ==> r == s
    ensures start > 0 ==>
      r.offset == s.offset + start && r.column == 0 &&
      r.line == s.line + CountNewlines(s.input[..start])
  {
    if start == 0 then s else Moved(s, s.input[start..], start)
  }

  /** `slice(..)` always returns a clone. */
  function SliceFull(s: Span): (r: Span)
    ensures r == s
  {
    s
  }

  /** Slicing twice from the front is slicing once by the sum. */
  lemma SliceFromTwice(s: Span, a: nat, b: nat)
    requires a + b <= |s.input|
    ensures SliceFrom(SliceFrom(s, a), b) == SliceFrom(s, a + b)
  {
    if a > 0 && b > 0 {
      assert s.input[..a + b] == s.input[..a] + s.input[a..][..b];
      CountNewlinesAppend(s.input[..a], s.input[a..][..b]);
      assert s.input[a..][b..] == s.input[a + b..];
    }
  }

  /** `Offset::offset`: the distance between two spans' start offsets (usize, so `a` may not lie after `b`). */
  function Offset(a: Span, b: Span): (d: nat)
    requires a.offset <= b.offset
    ensures a.offset + d == b.offset
  {
    b.offset - a.offset
  }

  /** `offset` measures exactly how far a slice moved its start. */
  lemma OffsetOfSlice(s: Span, k: nat)
    requires k <= |s.input|
    ensures s.offset <= SliceFrom(s, k).offset
    ensures Offset(s, SliceFrom(s, k)) == k
  {
  }

  /** `InputTake::take`. */
  function Take(s: Span, n: nat): (r: Span)
    requires n <= |s.input|
    ensures r == SliceTo(s, n)
  {
    SliceTo(s, n)
  }

  /** `InputTake::take_split`: the remainder comes first, then the taken prefix. */
  function TakeSplit(s: Span, n: nat): (r: (Span, Span))
    requires n <= |s.input|
    ensures r == (SliceFrom(s, n), SliceTo(s, n))
  {
    (SliceFrom(s, n), SliceTo(s, n))
  }

  /** Splitting loses no text: the taken prefix followed by the remainder is the input. */
  lemma TakeSplitPartitions(s: Span, n: nat)
    requires n <= |s.input|
    ensures TakeSplit(s, n).1.input + TakeSplit(s, n).0.input == s.input
    ensures |TakeSplit(s, n).1.input| == n
  {
    assert s.input[..n] + s.input[n..] == s.input;
  }

  /**
   * The outcome of a nom parser on a span. `Error` is recoverable (an
   * `alt` tries its next branch); its payload is `None` when the error
   * value is produced by nom itself through `ParseError::from_error_kind`
   * or `append`, whose implementation for `LangError` is not part of this
   * model. `Failure` ends the whole parse. `Unmodelled` marks a result
   * that depends on floating point.
   */
  datatype IResult<O> =
    | Done(rest: Span, out: O)
    | Incomplete
    | Error(raised: Option<LangError>)
    | Failure(cause: LangError)
    | Unmodelled

  /** `str::position`: the first index where `p` holds. */
  function Position(s: string, p: char -> bool): (r: Option<nat>)
    ensures r.Some? ==> r.value < |s| && p(s[r.value]) && forall j :: 0 <= j < r.value ==> !p(s[j])
    ensures r.None? ==> forall j :: 0 <= j < |s| ==> !p(s[j])
  {
    if s == [] then None
    else if p(s[0]) then Some(0)
    else match Position(s[1..], p)
      case None => None
      case Some(i) => Some(i + 1)
  }

  /** `split_at_position`: split before the first unit satisfying `p`; `Incomplete` if none does. */
  function SplitAtPosition(s: Span, p: char -> bool): (r: IResult<Span>)
    ensures r.Done? || r.Incomplete?
    ensures r.Done? ==> r.out.input + r.rest.input == s.input && r.out.offset == s.offset
    ensures r.Done? ==> r.rest == SliceFrom(s, |r.out.input|) && r.out == SliceTo(s, |r.out.input|)
    ensures r.Incomplete? <==> forall j :: 0 <= j < |s.input| ==> !p(s.input[j])
    ensures r.Done? ==> forall j :: 0 <= j < |r.out.input| ==> !p(r.out.input[j])
    ensures r.Done? ==> |r.rest.input| > 0 && p(r.rest.input[0])
  {
    match Position(s.input, p)
    case Some(n) =>
      TakeSplitPartitions(s, n);
      var (rest, taken) := TakeSplit(s, n);
      Done(rest, taken)
    case None => Incomplete
  }

  /** `split_at_position1`: as above, but an empty prefix is an error. */
  function SplitAtPosition1(s: Span, p: char -> bool): (r: IResult<Span>)
    ensures r.Done? || r.Incomplete? || r == Error(None)
    ensures r == Error(None) <==> |s.input| > 0 && p(s.input[0])
    ensures r.Done? ==> r.out.input + r.rest.input == s.input && |r.out.input| > 0
    ensures r.Done? ==> r.rest == SliceFrom(s, |r.out.input|) && r.out == SliceTo(s, |r.out.input|)
    ensures r.Done? ==> forall j :: 0 <= j < |r.out.input| ==> !p(r.out.input[j])
    ensures r.Done? ==> |r.rest.input| > 0 && p(r.rest.input[0])
    ensures r.Incomplete? <==> forall j :: 0 <= j < |s.input| ==> !p(s.input[j])
  {
    match Position(s.input, p)
    case Some(0) => Error(None)
    case Some(n) =>
      TakeSplitPartitions(s, n);
      var (rest, taken) := TakeSplit(s, n);
      Done(rest, taken)
    case None => Incomplete
  }

  /** `split_at_position_complete`: when `p` never holds, the whole input is taken. */
  function SplitAtPositionComplete(s: Span, p: char -> bool): (r: IResult<Span>)
    ensures r.Done?
    ensures r.out.input + r.rest.input == s.input
    ensures r.rest == SliceFrom(s, |r.out.input|) && r.out == SliceTo(s, |r.out.input|)
    ensures forall j :: 0 <= j < |r.out.input| ==> !p(r.out.input[j])
    ensures r.rest.input != [] ==> p(r.rest.input[0])
  {
    var r := SplitAtPosition(s, p);
    if r.Incomplete? then
      TakeSplitPartitions(s, |s.input|);
      var (rest, taken) := TakeSplit(s, |s.input|);
      Done(rest, taken)
    else
      r
  }

  /**
   * `split_at_position1_complete`: an error when `p` holds at the first
   * unit or the input is empty; the whole input when `p` never holds.
   */
  function SplitAtPosition1Complete(s: Span, p: char -> bool): (r: IResult<Span>)
    ensures r.Done? || r == Error(None)
    ensures r == Error(None) <==> s.input == [] || p(s.input[0])
    ensures r.Done? ==> r.out.input + r.rest.input == s.input && |r.out.input| > 0
    ensures r.Done? ==> r.rest == SliceFrom(s, |r.out.input|) && r.out == SliceTo(s, |r.out.input|)
    ensures r.Done? ==> forall j :: 0 <= j < |r.out.input| ==> !p(r.out.input[j])
    ensures r.Done? && r.rest.input != [] ==> p(r.rest.input[0])
    ensures (forall j :: 0 <= j < |s.input| ==> !p(s.input[j])) && s.input != [] ==>
      r.Done? && r.out.input == s.input && r.rest.input == []
  {
    match Position(s.input, p)
    case Some(0) => Error(None)
    case Some(n) =>
      TakeSplitPartitions(s, n);
      var (rest, taken) := TakeSplit(s, n);
      Done(rest, taken)
    case None =>
      if |s.input| == 0 then Error(None)
      else
        TakeSplitPartitions(s, |s.input|);
        var (rest, taken) := TakeSplit(s, |s.input|);
        Done(rest, taken)
  }
}
