/**
 * The full-page capture driver: the scroll plan, the capture loop, the removal of a
 * duplicated final tile, the stitch layout and the hand-off to storage.
 * Heights are the integer CSS pixel heights the page reports.
 */
module Capture {
  import opened Common

  // ---------------------------------------------------------------------------
  // The scroll plan
  // ---------------------------------------------------------------------------

  /** The number of viewport-high steps: the ceiling of totalHeight / viewportHeight. */
  function StepCount(totalHeight: nat, viewportHeight: nat): (steps: nat)
    requires viewportHeight > 0
    ensures steps * viewportHeight >= totalHeight
    ensures steps == 0 || (steps - 1) * viewportHeight < totalHeight
  {
    var q := (totalHeight + viewportHeight - 1) / viewportHeight;
    var r := (totalHeight + viewportHeight - 1) % viewportHeight;
    assert q * viewportHeight + r == totalHeight + viewportHeight - 1;
    assert (q - 1) * viewportHeight == q * viewportHeight - viewportHeight;
    q
  }

  /** The vertical scroll position of step i: the last step is pinned to the bottom. */
  function ScrollOffset(i: nat, steps: nat, totalHeight: int, viewportHeight: int): int
  {
    if i == steps - 1 then totalHeight - viewportHeight else i * viewportHeight
  }

  /** A page at least one viewport high is scrolled only to positions inside the page. */
  lemma OffsetWithinPage(i: nat, totalHeight: nat, viewportHeight: nat)
    requires viewportHeight > 0 && totalHeight >= viewportHeight
    requires i < StepCount(totalHeight, viewportHeight)
    ensures 0 <= ScrollOffset(i, StepCount(totalHeight, viewportHeight), totalHeight, viewportHeight)
                <= totalHeight - viewportHeight
  {
    var n := StepCount(totalHeight, viewportHeight);
    if i < n - 1 {
      assert i * viewportHeight <= (n - 2) * viewportHeight by {
        MulMonotone(i, n - 2, viewportHeight);
      }
      assert (n - 2) * viewportHeight == (n - 1) * viewportHeight - viewportHeight;
    }
  }

  /**
   * Consecutive offsets strictly increase and are at most one viewport apart, so
   * consecutive tiles overlap or abut and leave no vertical gap.
   */
  lemma OffsetsAdvanceWithoutGap(i: nat, totalHeight: nat, viewportHeight: nat)
    requires viewportHeight > 0 && totalHeight >= viewportHeight
    requires i + 1 < StepCount(totalHeight, viewportHeight)
    ensures var n := StepCount(totalHeight, viewportHeight);
            ScrollOffset(i, n, totalHeight, viewportHeight) < ScrollOffset(i + 1, n, totalHeight, viewportHeight)
            <= ScrollOffset(i, n, totalHeight, viewportHeight) + viewportHeight
  {
    var n := StepCount(totalHeight, viewportHeight);
    assert (i + 1) * viewportHeight == i * viewportHeight + viewportHeight;
    if i + 1 == n - 1 {
      assert (n - 1) * viewportHeight == n * viewportHeight - viewportHeight;
    }
  }

  /**
   * The offset the loop computes is the step's own offset pinned so as not to pass the
   * bottom of the page: min(i * viewportHeight, totalHeight - viewportHeight).
   */
  lemma OffsetIsPinnedMinimum(i: nat, totalHeight: nat, viewportHeight: nat)
    requires viewportHeight > 0
    requires i < StepCount(totalHeight, viewportHeight)
    ensures ScrollOffset(i, StepCount(totalHeight, viewportHeight), totalHeight, viewportHeight)
            == MinInt(i * viewportHeight, totalHeight - viewportHeight)
  {
    var n := StepCount(totalHeight, viewportHeight);
    var v := viewportHeight;
    assert (n - 1) * v == n * v - v;
    if i < n - 1 {
      MulMonotone(i, n - 2, v);
      assert (n - 2) * v == (n - 1) * v - v;
    }
  }

  /** Every pixel row of the page lies inside the viewport of some step. */
  lemma StepsCoverPage(y: nat, totalHeight: nat, viewportHeight: nat)
    requires viewportHeight > 0 && y < totalHeight
    ensures var n := StepCount(totalHeight, viewportHeight);
            exists i :: 0 <= i < n &&
              ScrollOffset(i, n, totalHeight, viewportHeight) <= y < ScrollOffset(i, n, totalHeight, viewportHeight) + viewportHeight
  {
    var n := StepCount(totalHeight, viewportHeight);
    var v := viewportHeight;
    assert n * v >= totalHeight > 0;
    assert n != 0;
    var q, r := y / v, y % v;
    assert y == q * v + r && 0 <= r < v;
    var i := if q < n - 1 then q else n - 1;
    if q < n - 1 {
      assert ScrollOffset(i, n, totalHeight, v) == q * v;
    } else {
      MulMonotone(n - 1, q, v);
      assert (n - 1) * v == n * v - v;
      assert ScrollOffset(i, n, totalHeight, v) == totalHeight - v;
    }
    assert ScrollOffset(i, n, totalHeight, v) <= y < ScrollOffset(i, n, totalHeight, v) + v;
  }

  /** The scroll plan of a 2500 px page seen through a 1000 px viewport. */
  lemma ExamplePlan()
    ensures StepCount(2500, 1000) == 3
    ensures ScrollOffset(0, 3, 2500, 1000) == 0
    ensures ScrollOffset(1, 3, 2500, 1000) == 1000
    ensures ScrollOffset(2, 3, 2500, 1000) == 1500
  {
  }

  // ---------------------------------------------------------------------------
  // Progress
  // ---------------------------------------------------------------------------

  /** The percentage reported after step i of steps (the decimal is truncated). */
  function Progress(i: nat, steps: nat): int
    requires i < steps
  {
    (i + 1) * 100 / steps
  }

  /** Progress is a percentage, it is 100 after the last step and never goes down. */
  lemma ProgressIsPercentage(i: nat, j: nat, steps: nat)
    requires i <= j < steps
    ensures 0 <= Progress(i, steps) <= Progress(j, steps) <= 100
    ensures Progress(steps - 1, steps) == 100
  {
    DivMonotone((i + 1) * 100, (j + 1) * 100, steps);
    DivMonotone((j + 1) * 100, steps * 100, steps);
    DivOfMultiple(100, steps);
  }

  /** Multiplying by a natural number keeps order (stated as an implication, usable without a case split). */
  lemma MulMonotone(a: int, b: int, c: nat)
    ensures a <= b ==> a * c <= b * c
  {
    assert b * c - a * c == (b - a) * c;
  }

  lemma DivOfMultiple(c: nat, n: nat)
    requires n > 0
    ensures n * c / n == c
  {
    var q, r := n * c / n, n * c % n;
    assert n * c == q * n + r && 0 <= r < n;
    MulMonotone(q + 1, c, n);
    MulMonotone(c + 1, q, n);
    assert (q + 1) * n == q * n + n;
    assert (c + 1) * n == c * n + n;
  }

  lemma DivMonotone(a: nat, b: nat, n: nat)
    requires a <= b && n > 0
    ensures a / n <= b / n
  {
    var qa, qb := a / n, b / n;
    assert qa * n <= a;
    assert b < qb * n + n;
    MulMonotone(qb + 1, qa, n);
    assert (qb + 1) * n == qb * n + n;
  }

  // ---------------------------------------------------------------------------
  // Capture loop and duplicate removal
  // ---------------------------------------------------------------------------

  /** A capture answer is kept when it is a non-empty data URL (the truthiness test of the loop). */
  predicate Kept(answer: Option<string>)
  {
    answer.Some? && answer.value != ""
  }

  /** The tiles the loop keeps: the kept answers, in step order. */
  function Accepted(answers: seq<Option<string>>): (tiles: seq<string>)
    ensures |tiles| <= |answers|
    ensures |tiles| == |answers| <==> forall i :: 0 <= i < |answers| ==> Kept(answers[i])
    ensures forall t :: t in tiles ==> t != "" && Some(t) in answers
  {
    if answers == [] then []
    else
      var rest := Accepted(answers[..|answers| - 1]);
      var last := answers[|answers| - 1];
      assert forall i :: 0 <= i < |answers| - 1 ==> answers[..|answers| - 1][i] == answers[i];
      if Kept(last) then rest + [last.value] else rest
  }

  /**
   * The kept tiles are in step order and keep their multiplicity: one answer contributes
   * its own data URL or nothing, and the tiles of consecutive runs of answers follow one
   * another.
   */
  lemma {:induction false} AcceptedInStepOrder(a: seq<Option<string>>, b: seq<Option<string>>)
    ensures Accepted(a + b) == Accepted(a) + Accepted(b)
    ensures |b| == 1 ==> Accepted(b) == if Kept(b[0]) then [b[0].value] else []
    decreases |b|
  {
    if b == [] {
      assert a + b == a;
    } else {
      var b' := b[..|b| - 1];
      assert (a + b)[..|a + b| - 1] == a + b';
      assert (a + b)[|a + b| - 1] == b[|b| - 1];
      AcceptedInStepOrder(a, b');
      if |b| == 1 {
        assert b' == [];
      }
    }
  }

  /** Dropping the final tile when it is byte-identical to the one before it. */
  function DropDuplicateFinal(tiles: seq<string>): (r: seq<string>)
    ensures r <= tiles
    ensures |r| >= |tiles| - 1
    ensures |r| < |tiles| <==> |tiles| >= 2 && tiles[|tiles| - 1] == tiles[|tiles| - 2]
    ensures forall t :: t in tiles ==> t in r
  {
    if |tiles| >= 2 && tiles[|tiles| - 1] == tiles[|tiles| - 2] then
      assert tiles[|tiles| - 1] == tiles[..|tiles| - 1][|tiles| - 2];
      tiles[..|tiles| - 1]
    else tiles
  }

  /**
   * The capture loop: scroll to each step's offset, keep each non-empty capture
   * answer, report progress, then drop a duplicated final tile.
   * answers[i] is what the background relay answered at step i (None for a failure).
   */
  method CaptureTiles(totalHeight: nat, viewportHeight: nat, answers: seq<Option<string>>)
    returns (scrolls: seq<int>, progress: seq<int>, tiles: seq<string>)
    requires viewportHeight > 0
    requires |answers| == StepCount(totalHeight, viewportHeight)
    ensures |scrolls| == |answers| && |progress| == |answers|
    ensures forall i :: 0 <= i < |answers| ==>
              scrolls[i] == ScrollOffset(i, |answers|, totalHeight, viewportHeight) &&
              progress[i] == Progress(i, |answers|)
    ensures tiles == DropDuplicateFinal(Accepted(answers))
    ensures |tiles| <= |answers|
  {
    var totalSteps := StepCount(totalHeight, viewportHeight);
    var screenshots: seq<string> := [];
    scrolls, progress := [], [];
    for i := 0 to totalSteps
      invariant |scrolls| == i && |progress| == i
      invariant forall k :: 0 <= k < i ==>
                  scrolls[k] == ScrollOffset(k, totalSteps, totalHeight, viewportHeight) &&
                  progress[k] == Progress(k, totalSteps)
      invariant screenshots == Accepted(answers[..i])
    {
      var scrollY := if i == totalSteps - 1 then totalHeight - viewportHeight else i * viewportHeight;
      scrolls := scrolls + [scrollY];
      var dataUrl := answers[i];
      assert answers[..i + 1][..i] == answers[..i];
      if dataUrl.Some? && dataUrl.value != "" {
        screenshots := screenshots + [dataUrl.value];
      }
      progress := progress + [(i + 1) * 100 / totalSteps];
    }
    assert answers[..totalSteps] == answers;
    if |screenshots| >= 2 && screenshots[|screenshots| - 1] == screenshots[|screenshots| - 2] {
      screenshots := screenshots[..|screenshots| - 1];
    }
    tiles := screenshots;
  }

  // ---------------------------------------------------------------------------
  // Stitching
  // ---------------------------------------------------------------------------

  /** The natural size of a decoded tile. */
  datatype Size = Size(width: nat, height: nat)

  /** One drawImage call: tile number `tile` drawn at vertical offset y. */
  datatype Draw = Draw(tile: nat, y: nat)

  function SumHeights(sizes: seq<Size>): nat
  {
    if sizes == [] then 0 else SumHeights(sizes[..|sizes| - 1]) + sizes[|sizes| - 1].height
  }

  /** The running height total of the tiles that have loaded so far. */
  function LoadedHeight(images: seq<Option<Size>>): nat
  {
    if images == [] then 0
    else LoadedHeight(images[..|images| - 1]) + (match images[|images| - 1] case Some(s) => s.height case None => 0)
  }

  lemma {:induction false} LoadedHeightAdd(images: seq<Option<Size>>, index: nat, s: Size)
    requires index < |images| && images[index] == None
    ensures LoadedHeight(images[index := Some(s)]) == LoadedHeight(images) + s.height
    decreases |images|
  {
    var n := |images|;
    var updated := images[index := Some(s)];
    if index == n - 1 {
      assert updated[..n - 1] == images[..n - 1];
    } else {
      assert updated[..n - 1] == images[..n - 1][index := Some(s)];
      LoadedHeightAdd(images[..n - 1], index, s);
    }
  }

  lemma {:induction false} LoadedHeightNone(images: seq<Option<Size>>)
    requires forall j :: 0 <= j < |images| ==> images[j] == None
    ensures LoadedHeight(images) == 0
    decreases |images|
  {
    if images != [] {
      LoadedHeightNone(images[..|images| - 1]);
    }
  }

  lemma {:induction false} LoadedHeightAll(images: seq<Option<Size>>, sizes: seq<Size>)
    requires |images| == |sizes|
    requires forall j :: 0 <= j < |images| ==> images[j] == Some(sizes[j])
    ensures LoadedHeight(images) == SumHeights(sizes)
    decreases |images|
  {
    if images != [] {
      LoadedHeightAll(images[..|images| - 1], sizes[..|sizes| - 1]);
    }
  }

  /** loadOrder lists every tile index below n exactly once: the order the onload events fire. */
  predicate IsLoadOrder(loadOrder: seq<nat>, n: nat)
  {
    && |loadOrder| == n
    && (forall j :: 0 <= j < n ==> j in loadOrder)
    && (forall a :: 0 <= a < n ==> loadOrder[a] < n)
    && (forall a, b :: 0 <= a < b < n ==> loadOrder[a] != loadOrder[b])
  }

  /** After `loaded` onload events, exactly the tiles loadOrder[..loaded] are stored, each at its own index. */
  ghost predicate LoadedSoFar(images: seq<Option<Size>>, sizes: seq<Size>, loadOrder: seq<nat>, loaded: nat)
    requires loaded <= |loadOrder|
  {
    && |images| == |sizes|
    && forall j :: 0 <= j < |images| ==>
         images[j] == (if j in loadOrder[..loaded] then Some(sizes[j]) else None)
  }

  /** One onload event keeps LoadedSoFar and adds the tile's height to the running total. */
  lemma LoadStep(images: seq<Option<Size>>, sizes: seq<Size>, loadOrder: seq<nat>, loaded: nat)
    requires IsLoadOrder(loadOrder, |sizes|) && loaded < |sizes|
    requires LoadedSoFar(images, sizes, loadOrder, loaded)
    ensures var index := loadOrder[loaded];
            var next := images[index := Some(sizes[index])];
            && LoadedSoFar(next, sizes, loadOrder, loaded + 1)
            && LoadedHeight(next) == LoadedHeight(images) + sizes[index].height
  {
    var index := loadOrder[loaded];
    assert index !in loadOrder[..loaded];
    LoadedHeightAdd(images, index, sizes[index]);
    assert loadOrder[..loaded + 1] == loadOrder[..loaded] + [index];
  }

  /** Once every onload has fired, every tile is stored and the total is the summed height. */
  lemma AllLoaded(images: seq<Option<Size>>, sizes: seq<Size>, loadOrder: seq<nat>)
    requires IsLoadOrder(loadOrder, |sizes|)
    requires LoadedSoFar(images, sizes, loadOrder, |sizes|)
    ensures forall j :: 0 <= j < |images| ==> images[j] == Some(sizes[j])
    ensures LoadedHeight(images) == SumHeights(sizes)
  {
    assert loadOrder[..|sizes|] == loadOrder;
    LoadedHeightAll(images, sizes);
  }

  /**
   * The stitch of fully decodable tiles: each onload stores its tile at its own index and
   * adds its height; when the last one has loaded, the canvas gets the first tile's width
   * and the summed height, and the tiles are drawn top to bottom in capture order,
   * whatever order they loaded in.
   */
  method Stitch(sizes: seq<Size>, loadOrder: seq<nat>) returns (width: nat, height: nat, draws: seq<Draw>)
    requires |sizes| > 0
    requires IsLoadOrder(loadOrder, |sizes|)
    ensures width == sizes[0].width
    ensures height == SumHeights(sizes)
    ensures |draws| == |sizes|
    ensures forall k :: 0 <= k < |sizes| ==> draws[k] == Draw(k, SumHeights(sizes[..k]))
  {
    var n := |sizes|;
    var images := new Option<Size>[n](_ => None);
    var totalHeight := 0;
    var loaded := 0;
    LoadedHeightNone(images[..]);
    while loaded < n
      invariant 0 <= loaded <= n
      invariant LoadedSoFar(images[..], sizes, loadOrder, loaded)
      invariant totalHeight == LoadedHeight(images[..])
    {
      var index := loadOrder[loaded];
      LoadStep(images[..], sizes, loadOrder, loaded);
      images[index] := Some(sizes[index]);
      totalHeight := totalHeight + sizes[index].height;
      loaded := loaded + 1;
    }
    var stored := images[..];
    AllLoaded(stored, sizes, loadOrder);
    width := stored[0].value.width;
    height := totalHeight;
    draws := DrawTiles(stored, sizes);
  }

  /** The draw loop: tile k goes at the summed height of the tiles above it. */
  method DrawTiles(stored: seq<Option<Size>>, sizes: seq<Size>) returns (draws: seq<Draw>)
    requires |stored| == |sizes|
    requires forall j :: 0 <= j < |stored| ==> stored[j] == Some(sizes[j])
    ensures |draws| == |sizes|
    ensures forall k :: 0 <= k < |sizes| ==> draws[k] == Draw(k, SumHeights(sizes[..k]))
  {
    var y := 0;
    draws := [];
    for k := 0 to |stored|
      invariant |draws| == k
      invariant y == SumHeights(sizes[..k])
      invariant forall m :: 0 <= m < k ==> draws[m] == Draw(m, SumHeights(sizes[..m]))
    {
      TilesAbut(sizes, k);
      draws := draws + [Draw(k, y)];
      y := y + stored[k].value.height;
    }
  }

  /** Consecutive tiles abut, and the last one ends at the bottom of the canvas. */
  lemma TilesAbut(sizes: seq<Size>, k: nat)
    requires k < |sizes|
    ensures SumHeights(sizes[..k + 1]) == SumHeights(sizes[..k]) + sizes[k].height
    ensures SumHeights(sizes[..|sizes|]) == SumHeights(sizes)
  {
    assert sizes[..k + 1][..k] == sizes[..k];
    assert sizes[..|sizes|] == sizes;
  }

  // ---------------------------------------------------------------------------
  // Hand-off
  // ---------------------------------------------------------------------------

  /** What the driver does after stitching, in the order it issues it. */
  datatype Effect =
    | AlertStitchFailed
    | StoreStitched(dataUrl: string)
    | SendProgress(percent: int)
    | OpenCropperTab

  /**
   * After the stitch: an empty result alerts and ends the run; otherwise the image is
   * written to storage, then the final progress message is sent, and the cropper tab is
   * requested from the storage write's completion callback, which runs later.
   */
  function Finish(stitched: string): (effects: seq<Effect>)
    ensures AlertStitchFailed in effects <==> stitched == ""
    ensures stitched == "" ==> effects == [AlertStitchFailed]
    ensures StoreStitched(stitched) in effects <==> stitched != ""
    ensures SendProgress(100) in effects <==> stitched != ""
    ensures OpenCropperTab in effects <==> stitched != ""
    ensures forall e :: e in effects && e.StoreStitched? ==> e == StoreStitched(stitched)
    ensures forall j, k ::
              (0 <= j < |effects| && 0 <= k < |effects| && effects[j].StoreStitched? &&
               effects[k] == SendProgress(100)) ==> j < k
    ensures forall j, k ::
              (0 <= j < |effects| && 0 <= k < |effects| && effects[j].StoreStitched? &&
               effects[k] == OpenCropperTab) ==> j < k
  {
    if stitched == "" then [AlertStitchFailed]
    else [StoreStitched(stitched), SendProgress(100), OpenCropperTab]
  }
}
