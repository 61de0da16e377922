/**
 * LED strip addressing (controller.py): a controller owning numbered strips,
 * each strip a fixed-length in-place buffer of colours, and segments that
 * address a half-open physical range of one strip.
 *
 * Index arithmetic follows Python's list semantics exactly: a negative index
 * counts from the end of the list, an index outside [-n, n) raises
 * IndexError, and a slice clamps its bounds.
 */
module LedStrips {
  import opened Wrappers

  /** An RGB colour, the triple the source stores per pixel. */
  datatype Color = RGB(red: int, green: int, blue: int)

  /** The colour a fresh strip holds in every pixel, (0, 0, 0). */
  const OFF: Color := RGB(0, 0, 0)

  /**
   * A colour-generation function. The strip calls it with the physical pixel
   * index and the size of the whole strip (keywords `pixel` and `strip_size`).
   */
  type ColorFn = (int, int) -> Color

  // ---------------------------------------------------------------------
  // Python list indexing and slicing
  // ---------------------------------------------------------------------

  /** The list position that Python's `xs[i]` addresses in a list of length n, or None where it raises IndexError. */
  function PyIndex(i: int, n: nat): (r: Option<nat>)
    ensures r.Some? <==> -(n as int) <= i < n
    ensures r.Some? ==> r.value < n && (r.value == i || r.value == i + n)
  {
    if 0 <= i < n then Some(i)
    else if i < 0 && 0 <= i + n then Some(i + n)
    else None
  }

  /** Where Python's slice `xs[a:b]` puts a bound a (or b) for a list of length n. */
  function PySliceBound(i: int, n: nat): (r: nat)
    ensures r <= n
    ensures 0 <= i <= n ==> r == i
    ensures i < 0 <= i + n ==> r == i + n
    ensures i + n < 0 ==> r == 0
    ensures n < i ==> r == n
  {
    if i < 0 then (if i + n < 0 then 0 else i + n)
    else if i > n then n
    else i
  }

  /** Python's slice `s[a:b]`. */
  function PySlice<T>(s: seq<T>, a: int, b: int): (r: seq<T>)
    ensures 0 <= a <= b <= |s| ==> r == s[a..b]
    ensures a <= b ==> |r| <= b - a
  {
    var lo, hi := PySliceBound(a, |s|), PySliceBound(b, |s|);
    if lo < hi then s[lo..hi] else []
  }

  // ---------------------------------------------------------------------
  // What apply_func does to a buffer
  // ---------------------------------------------------------------------

  /** True when `for i in range(start, end): pixels[i] = ...` raises IndexError on a list of length n. */
  predicate Raises(start: int, end: int, n: nat)
  {
    start < end && (start + n < 0 || n < end)
  }

  /**
   * The index at which apply_func's loop stops: `end` when every index of
   * range(start, end) is accepted, otherwise the first index Python rejects.
   */
  function StopAt(start: int, end: int, n: nat): (r: int)
    ensures start <= r
    ensures forall i :: start <= i < r ==> i < end && PyIndex(i, n).Some?
    ensures r < end ==> PyIndex(r, n).None?
    ensures r < end <==> Raises(start, end, n)
  {
    if end <= start then start
    else if start + n < 0 || n <= start then start
    else if end <= n then end
    else n
  }

  /**
   * The buffer after `p[i] = f(i, |p|)` for every i with start <= i < stop,
   * in increasing order, all of them accepted by Python. Position k is
   * written by i == k and, earlier, by the negative index i == k - |p|; the
   * later write wins.
   */
  function Written(p: seq<Color>, f: ColorFn, start: int, stop: int): (r: seq<Color>)
    ensures |r| == |p|
  {
    seq(|p|, k requires 0 <= k < |p| =>
      if start <= k < stop then f(k, |p|)
      else if start <= k - |p| < stop then f(k - |p|, |p|)
      else p[k])
  }

  /** The buffer after apply_func(f, start, end), including the writes made before an IndexError. */
  function Applied(p: seq<Color>, f: ColorFn, start: int, end: int): (r: seq<Color>)
    ensures |r| == |p|
    ensures forall k :: 0 <= k < |p| && start <= k < StopAt(start, end, |p|) ==> r[k] == f(k, |p|)
  {
    Written(p, f, start, StopAt(start, end, |p|))
  }

  /** One more accepted index extends the written range by one assignment. */
  lemma WrittenStep(p: seq<Color>, f: ColorFn, start: int, i: int)
    requires start <= i && 0 <= i + |p| && i < |p|
    requires start == i || 0 <= start + |p|
    ensures Written(p, f, start, i + 1) == Written(p, f, start, i)[PyIndex(i, |p|).value := f(i, |p|)]
  {
    var n := |p|;
    var a, b := Written(p, f, start, i + 1), Written(p, f, start, i)[PyIndex(i, n).value := f(i, n)];
    forall k | 0 <= k < n
      ensures a[k] == b[k]
    {
      if k != PyIndex(i, n).value {
        assert k != i && k - n != i;
      }
    }
  }

  /** On an in-bounds range, apply_func writes f(k, size) at exactly the pixels k of [start, end). */
  lemma AppliedInBounds(p: seq<Color>, f: ColorFn, start: int, end: int)
    requires 0 <= start <= end <= |p|
    ensures !Raises(start, end, |p|)
    ensures |Applied(p, f, start, end)| == |p|
    ensures forall k :: 0 <= k < |p| ==>
      Applied(p, f, start, end)[k] == if start <= k < end then f(k, |p|) else p[k]
  {
  }

  /**
   * Whatever the arguments, apply_func leaves the buffer length alone and
   * changes no pixel that neither k nor k - size names in [start, end).
   */
  lemma AppliedFrame(p: seq<Color>, f: ColorFn, start: int, end: int, k: int)
    requires 0 <= k < |p|
    requires !(start <= k < end) && !(start <= k - |p| < end)
    ensures |Applied(p, f, start, end)| == |p|
    ensures Applied(p, f, start, end)[k] == p[k]
  {
  }

  /** Running apply_func a second time with the same function changes nothing more. */
  lemma AppliedIdempotent(p: seq<Color>, f: ColorFn, start: int, end: int)
    ensures Applied(Applied(p, f, start, end), f, start, end) == Applied(p, f, start, end)
  {
  }

  /** True for the arguments that get_segment accepts: its bounds check on the raw arguments. */
  predicate SegmentAccepted(start: int, end: int, size: nat)
  {
    !(start < 0 || end > size)
  }

  /** An accepted pair in increasing order lies inside the strip. */
  lemma AcceptedOrderedInBounds(start: int, end: int, size: nat)
    requires start <= end
    ensures SegmentAccepted(start, end, size) <==> 0 <= start <= end <= size
  {
  }

  /**
   * The bounds are checked before the swap, so a reversed pair that reaches
   * past the strip is accepted; only such a pair makes the resulting segment's
   * use_func raise.
   */
  lemma AcceptedSegmentRaises(start: int, end: int, size: nat)
    requires SegmentAccepted(start, end, size)
    ensures Raises(if end < start then end else start, if end < start then start else end, size)
        <==> end < start && (end + size < 0 || size < start)
  {
  }

  /** The reversed pair (30, 10) on a 20-pixel strip passes the check and yields the range [10, 30). */
  lemma ReversedPairAccepted()
    ensures SegmentAccepted(30, 10, 20)
    ensures Raises(10, 30, 20)
  {
  }

  // ---------------------------------------------------------------------
  // Strips, segments and the controller
  // ---------------------------------------------------------------------

  /** One LED strip: `size` pixels held in place, and an optional colour function. */
  class LightStrip {
    const size: nat
    const pixels: array<Color>
    var func: Option<ColorFn>

    predicate Valid()
    {
      pixels.Length == size
    }

    /** A strip of `size` pixels, all OFF, with no function. */
    constructor (size: nat)
      ensures this.size == size && Valid() && fresh(pixels)
      ensures pixels[..] == seq(size, _ => OFF)
      ensures func == None
    {
      this.size := size;
      pixels := new Color[size](_ => OFF);
      func := None;
    }

    /**
     * get_segment: IndexError when start < 0 or end > size, checked on the
     * arguments as given; otherwise a new Segment over [start, end), swapped
     * and flipped when end < start.
     */
    method GetSegment(start: int, end: int) returns (r: Result<Segment>)
      ensures r.Ok? <==> SegmentAccepted(start, end, size)
      ensures r.Err? ==> r.error == IndexError
      ensures r.Ok? ==> fresh(r.value) && r.value.strip == this && r.value.func == None && r.value.Valid()
      ensures r.Ok? ==> r.value.flip == (end < start)
      ensures r.Ok? && start <= end ==> r.value.start == start && r.value.end == end
      ensures r.Ok? && end < start ==> r.value.start == end && r.value.end == start
    {
      if start < 0 || end > size {
        return Err(IndexError);
      }
      var seg := new Segment(this, start, end);
      return Ok(seg);
    }

    method SetFunc(f: ColorFn)
      modifies this`func
      ensures func == Some(f)
    {
      func := Some(f);
    }

    /** use_func: with no function the strip is left alone; otherwise every pixel i becomes func(i, size). */
    method UseFunc()
      requires Valid()
      modifies pixels
      ensures func.None? ==> pixels[..] == old(pixels[..])
      ensures func.Some? ==> var f := func.value; pixels[..] == seq(size, i => f(i, size))
    {
      if func.Some? {
        var _ := ApplyFunc(func.value, 0, size);
        AppliedInBounds(old(pixels[..]), func.value, 0, size);
      }
    }

    /**
     * apply_func: `for i in range(start, end): pixels[i] = f(i, size)`.
     * Fails with IndexError exactly when some index of the range is outside
     * [-size, size); the writes made before that index remain.
     */
    method ApplyFunc(f: ColorFn, start: int, end: int) returns (r: Outcome)
      requires Valid()
      modifies pixels
      ensures r == Pass <==> !Raises(start, end, size)
      ensures r.Fail? ==> r.error == IndexError
      ensures pixels[..] == Applied(old(pixels[..]), f, start, end)
    {
      ghost var before := pixels[..];
      var i := start;
      while i < end
        invariant start <= i && (i <= end || start == i)
        invariant start == i || (0 <= start + size && i <= size)
        invariant pixels[..] == Written(before, f, start, i)
      {
        var k := PyIndex(i, pixels.Length);
        if k.None? {
          return Fail(IndexError);
        }
        WrittenStep(before, f, start, i);
        pixels[k.value] := f(i, size);
        i := i + 1;
      }
      return Pass;
    }

    /** get_pixels: the whole buffer, one colour per pixel. */
    function GetPixels(): (r: seq<Color>)
      requires Valid()
      reads pixels
      ensures |r| == size
      ensures forall i :: 0 <= i < size ==> r[i] == pixels[i]
    {
      pixels[..]
    }

    /** write is a stub in the source. */
    method Write()
    {
    }
  }

  /**
   * A segment of one strip: the half-open physical range [start, end), a flip
   * flag set when it was requested with the endpoints reversed, and an
   * optional colour function.
   */
  class Segment {
    const strip: LightStrip
    const start: int
    const end: int
    const flip: bool
    var func: Option<ColorFn>

    /** The one fact the constructor guarantees about every segment. */
    predicate Valid()
    {
      start <= end
    }

    /** A reversed pair is stored swapped, with flip set; otherwise as given. */
    constructor (strip: LightStrip, start: int, end: int)
      ensures this.strip == strip && func == None && Valid()
      ensures end < start ==> this.start == end && this.end == start && flip
      ensures start <= end ==> this.start == start && this.end == end && !flip
    {
      this.strip := strip;
      if end < start {
        this.start, this.end := end, start;
        this.flip := true;
      } else {
        this.start, this.end := start, end;
        this.flip := false;
      }
      func := None;
    }

    /** set_func stores the flipped function exactly when the segment is flipped; `functions.flip` is `flipOf`. */
    method SetFunc(f: ColorFn, flipOf: ColorFn -> ColorFn)
      modifies this`func
      ensures func == Some(if flip then flipOf(f) else f)
    {
      if flip {
        func := Some(flipOf(f));
      } else {
        func := Some(f);
      }
    }

    /** The colour this segment leaves at physical pixel p when it held `before`. */
    function Rendered(p: int, before: Color): Color
      reads this, strip
    {
      match func
      case Some(f) => f(p, strip.size)
      case None => before
    }

    /**
     * use_func: apply_func(func, start, end) on the strip when a function is
     * set. Inside the strip this writes exactly [start, end), passing the
     * physical index and the whole strip's size, and reads back through
     * get_pixels as written.
     */
    method UseFunc() returns (r: Outcome)
      requires strip.Valid()
      modifies strip.pixels
      ensures func.None? ==> r == Pass && strip.pixels[..] == old(strip.pixels[..])
      ensures func.Some? ==> (r == Pass <==> !Raises(start, end, strip.size))
      ensures r.Fail? ==> r.error == IndexError
      ensures func.Some? ==> strip.pixels[..] == Applied(old(strip.pixels[..]), func.value, start, end)
      ensures 0 <= start <= end <= strip.size ==> r == Pass && forall p :: 0 <= p < strip.size ==>
        strip.pixels[p] == if start <= p < end then Rendered(p, old(strip.pixels[p])) else old(strip.pixels[p])
      ensures 0 <= start <= end <= strip.size && func.Some? ==>
        var f := func.value; GetPixels() == seq(end - start, j => f(start + j, strip.size))
    {
      r := Pass;
      if func.Some? {
        r := strip.ApplyFunc(func.value, start, end);
        if 0 <= start <= end <= strip.size {
          AppliedInBounds(old(strip.pixels[..]), func.value, start, end);
        }
      }
    }

    /** get_pixels: the strip's pixels[start:end] in physical order, by Python slicing. */
    function GetPixels(): (r: seq<Color>)
      requires strip.Valid()
      reads strip.pixels
      ensures 0 <= start <= end <= strip.size ==> r == strip.pixels[start..end] && |r| == end - start
      ensures Valid() ==> |r| <= Size()
    {
      PySlice(strip.pixels[..], start, end)
    }

    /** size: the number of pixels the segment spans, never negative. */
    function Size(): (r: int)
      requires Valid()
      ensures r >= 0 && start + r == end
    {
      end - start
    }
  }

  /** The controller: strips numbered 0 .. n-1, one per entry of the sizes it was built with. */
  class Controller {
    const sizes: seq<nat>
    var strips: map<int, LightStrip>

    /** Strip i exists iff i < |sizes|, has sizes[i] pixels, and no two strips share a buffer. */
    ghost predicate Valid()
      reads this
    {
      && (forall i :: i in strips <==> 0 <= i < |sizes|)
      && (forall i :: i in strips ==> strips[i].size == sizes[i] && strips[i].Valid())
      && (forall i, j :: i in strips && j in strips && i != j ==> strips[i].pixels != strips[j].pixels)
    }

    /** One fresh, dark strip per entry of stripSizes, keyed by its position. */
    constructor (stripSizes: seq<nat>)
      ensures sizes == stripSizes && Valid()
      ensures forall i :: i in strips ==>
        fresh(strips[i]) && fresh(strips[i].pixels) && strips[i].func == None &&
        strips[i].pixels[..] == seq(stripSizes[i], _ => OFF)
    {
      sizes := stripSizes;
      strips := map[];
      new;
      for i := 0 to |stripSizes|
        invariant forall k :: k in strips <==> 0 <= k < i
        invariant forall k :: k in strips ==>
          fresh(strips[k]) && fresh(strips[k].pixels) && strips[k].func == None &&
          strips[k].size == sizes[k] && strips[k].Valid() &&
          strips[k].pixels[..] == seq(sizes[k], _ => OFF)
        invariant forall j, k :: j in strips && k in strips && j != k ==> strips[j].pixels != strips[k].pixels
      {
        var s := new LightStrip(stripSizes[i]);
        strips := strips[i := s];
      }
    }

    /** get_strip: KeyError unless 0 <= i < |sizes|; otherwise strip i, of sizes[i] pixels. */
    function GetStrip(i: int): (r: Result<LightStrip>)
      requires Valid()
      reads this
      ensures r.Ok? <==> 0 <= i < |sizes|
      ensures r.Err? ==> r.error == KeyError
      ensures r.Ok? ==> r.value == strips[i] && r.value.size == sizes[i] && r.value.Valid()
    {
      if i in strips then Ok(strips[i]) else Err(KeyError)
    }

    /** write: every strip's write, in key order; each of those is a stub. */
    method Write()
      requires Valid()
    {
      for i := 0 to |sizes|
      {
        strips[i].Write();
      }
    }
  }
}
