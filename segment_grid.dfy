/**
 * The segment registry (grid.py): a fixed layout of SEG_COUNT segments over
 * eight strips, a bounds-checked lookup, and the per-frame pass that lets
 * every segment write its function's colours into its strip.
 */
module SegmentGrid {
  import opened Wrappers
  import opened LedStrips

  const SEG_COUNT: nat := 29

  /** Where a registered segment lies: a strip number and a half-open pixel range. */
  datatype Placement = Placement(strip: nat, start: int, end: int)

  /** The list the constructor builds by appending: strips 0 and 1, then 27 blocks of 20 pixels on strip 2. */
  const APPENDED: seq<Placement> :=
    [Placement(0, 0, 20), Placement(1, 0, 20)] + seq(27, i => Placement(2, i * 20, (i + 1) * 20))

  /** The registry after the constructor overwrites slots 12, 15, 18, 21 and 24 with strips 3 to 7. */
  const LAYOUT: seq<Placement> :=
    APPENDED[12 := Placement(3, 0, 20)][15 := Placement(4, 0, 20)][18 := Placement(5, 0, 20)]
            [21 := Placement(6, 0, 20)][24 := Placement(7, 0, 20)]

  /** The slots whose strip-2 segment is replaced by the first 20 pixels of another strip. */
  predicate Overwritten(k: int)
  {
    k == 12 || k == 15 || k == 18 || k == 21 || k == 24
  }

  /** Segments 0 and 1 are strips 0 and 1; slot 12 + 3j is strip 3 + j; every other slot k is [(k-2)*20, (k-1)*20) of strip 2. */
  lemma LayoutShape(k: int)
    requires 0 <= k < SEG_COUNT
    ensures |LAYOUT| == SEG_COUNT
    ensures k <= 1 ==> LAYOUT[k] == Placement(k, 0, 20)
    ensures Overwritten(k) ==> LAYOUT[k] == Placement(3 + (k - 12) / 3, 0, 20)
    ensures 2 <= k && !Overwritten(k) ==> LAYOUT[k] == Placement(2, (k - 2) * 20, (k - 1) * 20)
  {
  }

  /** Every registered segment spans 20 pixels from a non-negative start, on one of strips 0 to 7. */
  lemma LayoutSegmentsOf20(k: int)
    requires 0 <= k < SEG_COUNT
    ensures 0 <= LAYOUT[k].start && LAYOUT[k].end - LAYOUT[k].start == 20
    ensures LAYOUT[k].strip < 8
  {
    LayoutShape(k);
  }

  /** No two registered segments share a pixel of the same strip. */
  lemma LayoutDisjoint(j: int, k: int)
    requires 0 <= j < k < SEG_COUNT
    requires LAYOUT[j].strip == LAYOUT[k].strip
    ensures LAYOUT[j].end <= LAYOUT[k].start || LAYOUT[k].end <= LAYOUT[j].start
  {
    LayoutShape(j);
    LayoutShape(k);
  }

  /** The sizes for which the appending loop succeeds: strips 0 and 1 hold 20 pixels, strip 2 holds 540. */
  predicate HeadFits(sizes: seq<nat>)
  {
    |sizes| >= 3 && sizes[0] >= 20 && sizes[1] >= 20 && sizes[2] >= 540
  }

  /**
   * The sizes for which the constructor succeeds: strips 0 to 7 exist, strip 2
   * holds the 27 blocks (540 pixels), and the others hold at least 20.
   */
  predicate GridFits(sizes: seq<nat>)
  {
    |sizes| >= 8 && sizes[2] >= 540 && forall i :: 0 <= i < 8 && i != 2 ==> sizes[i] >= 20
  }

  /**
   * The exception the constructor raises when GridFits fails: the checks run
   * in the constructor's order (strips 0 and 1, the blocks of strip 2, then
   * strips 3 to 7), and a missing strip is a KeyError while a strip too short
   * for its segment is an IndexError. The final value is never raised.
   */
  function BuildError(sizes: seq<nat>): Error
  {
    if |sizes| < 1 then KeyError else if sizes[0] < 20 then IndexError
    else if |sizes| < 2 then KeyError else if sizes[1] < 20 then IndexError
    else if |sizes| < 3 then KeyError else if sizes[2] < 540 then IndexError
    else if |sizes| < 4 then KeyError else if sizes[3] < 20 then IndexError
    else if |sizes| < 5 then KeyError else if sizes[4] < 20 then IndexError
    else if |sizes| < 6 then KeyError else if sizes[5] < 20 then IndexError
    else if |sizes| < 7 then KeyError else if sizes[6] < 20 then IndexError
    else if |sizes| < 8 then KeyError else IndexError
  }

  /** GridFits is exactly: every placement the constructor asks for names an existing strip and ends inside it. */
  lemma GridFitsIffPlacementsFit(sizes: seq<nat>)
    ensures GridFits(sizes) <==>
      forall k :: 0 <= k < SEG_COUNT ==> LAYOUT[k].strip < |sizes| && LAYOUT[k].end <= sizes[LAYOUT[k].strip]
  {
    if forall k :: 0 <= k < SEG_COUNT ==> LAYOUT[k].strip < |sizes| && LAYOUT[k].end <= sizes[LAYOUT[k].strip] {
      assert LAYOUT[24].strip == 7 && LAYOUT[28].strip == 2 && LAYOUT[28].end == 540;
      forall i | 0 <= i < 8 && i != 2
        ensures sizes[i] >= 20
      {
        var k := if i <= 1 then i else 12 + 3 * (i - 3);
        LayoutShape(k);
      }
    }
    if GridFits(sizes) {
      forall k | 0 <= k < SEG_COUNT
        ensures LAYOUT[k].strip < |sizes| && LAYOUT[k].end <= sizes[LAYOUT[k].strip]
      {
        LayoutShape(k);
      }
    }
  }

  /** The controller built by main.py, with sizes (20, 20, 1000), has no strip 3, so building the grid on it raises KeyError. */
  lemma MainControllerCannotHostGrid()
    ensures !GridFits([20, 20, 1000])
    ensures HeadFits([20, 20, 1000]) && BuildError([20, 20, 1000]) == KeyError
  {
  }

  /** The registry of all segments of the game. */
  class Grid {
    const controller: Controller
    var segments: seq<Segment>

    /** An empty registry, filled by Build. */
    constructor (controller: Controller)
      ensures this.controller == controller && segments == []
    {
      this.controller := controller;
      segments := [];
    }

    /**
     * The registry invariant: SEG_COUNT segments, each inside its strip, and
     * any two of them either on different buffers or on disjoint ranges, over
     * a well-formed controller.
     */
    ghost predicate Valid()
      reads this, controller
    {
      && controller.Valid()
      && |segments| == SEG_COUNT
      && (forall k :: 0 <= k < |segments| ==> InStrip(segments[k]))
      && (forall j, k :: 0 <= j < k < |segments| ==> Apart(segments[j], segments[k]))
    }

    /** The pixel buffers the registry's segments write into. */
    ghost function Footprint(): set<array<Color>>
      reads this
    {
      set k | 0 <= k < |segments| :: segments[k].strip.pixels
    }

    /** True when one of the first n segments spans pixel p of strip s. */
    ghost predicate CoveredBelow(n: int, s: LightStrip, p: int)
      reads this
    {
      exists k :: 0 <= k < n && k < |segments| && Covers(segments[k], s, p)
    }

    /**
     * Grid(controller): the list of two strip-0/1 segments, 27 appended
     * strip-2 blocks and five overwrites, stopping at the first KeyError or
     * IndexError. It succeeds exactly when GridFits, and the registry then is
     * LAYOUT: 29 unflipped 20-pixel segments without a function, no two of
     * them sharing a pixel.
     */
    static method Build(controller: Controller) returns (r: Result<Grid>)
      requires controller.Valid()
      ensures r.Ok? <==> GridFits(controller.sizes)
      ensures r.Err? ==> r.error == BuildError(controller.sizes)
      ensures r.Ok? ==> fresh(r.value) && r.value.controller == controller && r.value.Valid()
      ensures r.Ok? ==> forall k :: 0 <= k < SEG_COUNT ==>
        PlacedAt(r.value.segments[k], controller, LAYOUT[k]) && r.value.segments[k].func == None && r.value.segments[k].Size() == 20
    {
      var g := new Grid(controller);
      var appended :- AppendBlocks(controller);
      g.segments := appended;
      var _ :- g.Overwrite();
      GridFitsIffPlacementsFit(controller.sizes);
      return Ok(g);
    }

    /** The list before the overwrites: strips 0 and 1, then 27 blocks of 20 pixels on strip 2. */
    static method AppendBlocks(controller: Controller) returns (r: Result<seq<Segment>>)
      requires controller.Valid()
      ensures r.Ok? <==> HeadFits(controller.sizes)
      ensures r.Err? ==> r.error == BuildError(controller.sizes)
      ensures r.Ok? ==> |r.value| == |APPENDED| && forall k :: 0 <= k < |r.value| ==>
        PlacedAt(r.value[k], controller, APPENDED[k]) && r.value[k].func == None
    {
      var strip0 :- controller.GetStrip(0);
      var seg0 :- strip0.GetSegment(0, 20);
      var strip1 :- controller.GetStrip(1);
      var seg1 :- strip1.GetSegment(0, 20);
      var segments := [seg0, seg1];
      for i := 0 to 27
        invariant |controller.sizes| > 1 && controller.sizes[0] >= 20 && controller.sizes[1] >= 20
        invariant i > 0 ==> |controller.sizes| > 2 && controller.sizes[2] >= i * 20
        invariant |segments| == 2 + i
        invariant forall k :: 0 <= k < |segments| ==> PlacedAt(segments[k], controller, APPENDED[k]) && segments[k].func == None
      {
        var strip2 :- controller.GetStrip(2);
        var seg :- strip2.GetSegment(i * 20, (i + 1) * 20);
        segments := segments + [seg];
      }
      return Ok(segments);
    }

    /** The five overwrites of slots 12, 15, 18, 21 and 24 with the first 20 pixels of strips 3 to 7. */
    method Overwrite() returns (r: Result<()>)
      requires controller.Valid() && HeadFits(controller.sizes) && |segments| == |APPENDED|
      requires forall k :: 0 <= k < |segments| ==> PlacedAt(segments[k], controller, APPENDED[k]) && segments[k].func == None
      modifies this
      ensures r.Ok? <==> GridFits(controller.sizes)
      ensures r.Err? ==> r.error == BuildError(controller.sizes)
      ensures r.Ok? ==> Valid() && forall k :: 0 <= k < SEG_COUNT ==>
        PlacedAt(segments[k], controller, LAYOUT[k]) && segments[k].func == None && segments[k].Size() == 20
    {
      ghost var plan := APPENDED;
      var _ :- Replace(12, 3, plan);
      plan := plan[12 := Placement(3, 0, 20)];
      var _ :- Replace(15, 4, plan);
      plan := plan[15 := Placement(4, 0, 20)];
      var _ :- Replace(18, 5, plan);
      plan := plan[18 := Placement(5, 0, 20)];
      var _ :- Replace(21, 6, plan);
      plan := plan[21 := Placement(6, 0, 20)];
      var _ :- Replace(24, 7, plan);
      plan := plan[24 := Placement(7, 0, 20)];
      assert plan == LAYOUT;
      LayoutIsValid(plan);
      return Ok(());
    }

    /** `self.segments[slot] = controller.get_strip(stripNo).get_segment(0, 20)`, one of the five overwrites. */
    method Replace(slot: nat, stripNo: nat, ghost plan: seq<Placement>) returns (r: Result<()>)
      requires controller.Valid() && slot < |segments| == |plan|
      requires forall k :: 0 <= k < |segments| ==> PlacedAt(segments[k], controller, plan[k]) && segments[k].func == None
      modifies this
      ensures r.Ok? <==> stripNo < |controller.sizes| && controller.sizes[stripNo] >= 20
      ensures r.Err? ==> r.error == if stripNo < |controller.sizes| then IndexError else KeyError
      ensures r.Ok? ==> |segments| == |plan| && forall k :: 0 <= k < |segments| ==>
        PlacedAt(segments[k], controller, plan[slot := Placement(stripNo, 0, 20)][k]) && segments[k].func == None
    {
      var strip :- controller.GetStrip(stripNo);
      var seg :- strip.GetSegment(0, 20);
      segments := segments[slot := seg];
      return Ok(());
    }

    /** A registry laid out as LAYOUT on a valid controller satisfies the registry invariant. */
    lemma LayoutIsValid(plan: seq<Placement>)
      requires plan == LAYOUT
      requires controller.Valid() && GridFits(controller.sizes) && |segments| == SEG_COUNT
      requires forall k :: 0 <= k < SEG_COUNT ==> PlacedAt(segments[k], controller, plan[k])
      ensures Valid()
      ensures forall k :: 0 <= k < SEG_COUNT ==> segments[k].Size() == 20
    {
      GridFitsIffPlacementsFit(controller.sizes);
      forall k | 0 <= k < SEG_COUNT
        ensures InStrip(segments[k]) && segments[k].Size() == 20
      {
        LayoutSegmentsOf20(k);
      }
      forall j, k | 0 <= j < k < SEG_COUNT
        ensures Apart(segments[j], segments[k])
      {
        if LAYOUT[j].strip == LAYOUT[k].strip {
          LayoutDisjoint(j, k);
        }
      }
    }

    /** get_seg: IndexError unless 0 <= k < SEG_COUNT; otherwise segment k. */
    function GetSeg(k: int): (r: Result<Segment>)
      requires Valid()
      reads this, controller
      ensures r.Ok? <==> 0 <= k < SEG_COUNT
      ensures r.Err? ==> r.error == IndexError
      ensures r.Ok? ==> r.value == segments[k] && InStrip(r.value)
    {
      if k >= SEG_COUNT || k < 0 then Err(IndexError) else Ok(segments[k])
    }

    /**
     * use_rule: every segment, in list order, applies its function to its own
     * range (the source calls `use_rule` on each segment; the segment
     * operation that exists is use_func), then the controller writes. Each
     * segment's range ends up rendered by its function and every pixel
     * outside all ranges keeps its colour.
     */
    method UseRule()
      requires Valid()
      modifies Footprint()
      ensures forall k, p :: 0 <= k < |segments| && segments[k].start <= p < segments[k].end ==>
        segments[k].strip.pixels[p] == segments[k].Rendered(p, old(segments[k].strip.pixels[p]))
      ensures forall k, p ::
        (0 <= k < |segments| && 0 <= p < segments[k].strip.size && !CoveredBelow(|segments|, segments[k].strip, p)) ==>
        segments[k].strip.pixels[p] == old(segments[k].strip.pixels[p])
    {
      var i := 0;
      while i < |segments|
        invariant 0 <= i <= |segments|
        invariant forall k, p :: 0 <= k < i && segments[k].start <= p < segments[k].end ==>
          segments[k].strip.pixels[p] == segments[k].Rendered(p, old(segments[k].strip.pixels[p]))
        invariant forall k, p :: i <= k < |segments| && segments[k].start <= p < segments[k].end ==>
          segments[k].strip.pixels[p] == old(segments[k].strip.pixels[p])
        invariant forall k, p ::
          (0 <= k < |segments| && 0 <= p < segments[k].strip.size && !CoveredBelow(i, segments[k].strip, p)) ==>
          segments[k].strip.pixels[p] == old(segments[k].strip.pixels[p])
      {
        UseSegment(i);
        i := i + 1;
      }
      controller.Write();
    }

    /** One step of use_rule: segment i renders its own range, and no other pixel changes. */
    method UseSegment(i: nat)
      requires Valid() && i < |segments|
      modifies segments[i].strip.pixels
      ensures forall p :: segments[i].start <= p < segments[i].end ==>
        segments[i].strip.pixels[p] == segments[i].Rendered(p, old(segments[i].strip.pixels[p]))
      ensures forall k, p :: 0 <= k < |segments| && k != i && segments[k].start <= p < segments[k].end ==>
        segments[k].strip.pixels[p] == old(segments[k].strip.pixels[p])
      ensures forall k, p :: 0 <= k < |segments| && 0 <= p < segments[k].strip.size && !Covers(segments[i], segments[k].strip, p) ==>
        segments[k].strip.pixels[p] == old(segments[k].strip.pixels[p])
    {
      var seg := segments[i];
      var _ := seg.UseFunc();
      forall k, p | 0 <= k < |segments| && 0 <= p < segments[k].strip.size && !Covers(seg, segments[k].strip, p)
        ensures segments[k].strip.pixels[p] == old(segments[k].strip.pixels[p])
      {
        if k < i {
          assert Apart(segments[k], seg);
        } else if k > i {
          assert Apart(seg, segments[k]);
        }
      }
      forall k, p | 0 <= k < |segments| && k != i && segments[k].start <= p < segments[k].end
        ensures !Covers(seg, segments[k].strip, p)
      {
        if k < i {
          assert Apart(segments[k], seg);
        } else {
          assert Apart(seg, segments[k]);
        }
      }
    }
  }

  /** Segment seg sits where placement p says, on strip p.strip of controller c, unflipped. */
  ghost predicate PlacedAt(seg: Segment, c: Controller, p: Placement)
    reads c
  {
    && p.strip in c.strips
    && seg.strip == c.strips[p.strip]
    && seg.start == p.start && seg.end == p.end
    && !seg.flip
  }

  /** A segment inside its strip, which is itself well formed. */
  ghost predicate InStrip(s: Segment)
  {
    s.strip.Valid() && 0 <= s.start <= s.end <= s.strip.size
  }

  /** Two segments that cannot write the same pixel: different buffers, or disjoint ranges of one strip. */
  ghost predicate Apart(a: Segment, b: Segment)
  {
    if a.strip == b.strip then a.end <= b.start || b.end <= a.start
    else a.strip.pixels != b.strip.pixels
  }

  /** Segment seg spans pixel p of strip s. */
  ghost predicate Covers(seg: Segment, s: LightStrip, p: int)
  {
    seg.strip == s && seg.start <= p < seg.end
  }
}
