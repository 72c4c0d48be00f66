/**
 * The overlay selection of `renderMockupToCanvas` in
 * src/util/overlayTransform.js: which overlays take part in an export, which
 * are skipped, the opacity clamp, and the inverse homography each drawn
 * overlay hands to the shader.  The WebGL calls are not modelled; an export is
 * described by the list of draws it issues.
 *
 * As written, a null homography (a quad the solver cannot map onto) is passed
 * to `invertHomography`, which reads `h[0][0]` and throws: the whole export
 * fails.  `DrawsAsWritten` models that; `Draws` is the evidently intended
 * behaviour, which skips such an overlay as it skips a singular inverse.
 */
module MockupExport {
  import opened Wrappers
  import opened Mat3Algebra
  import opened OverlayTransform

  /**
   * The dimensions an image object exposes; 0.0 stands for a missing value,
   * which is falsy like 0.
   */
  datatype ImageDims = ImageDims(naturalWidth: real, naturalHeight: real, width: real, height: real)

  /** One overlay handed to the export: `{image, corners, size, hidden}`. */
  datatype ExportOverlay = ExportOverlay(image: Option<ImageDims>, corners: Quad, size: Option<Size>, hidden: bool)

  /** One overlay draw: the inverse homography and the overlay size given to the shader. */
  datatype Draw = Draw(hinv: Mat3, width: real, height: real)

  /** What an export issues: the opacity uniform (set only when there are overlays) and the draws. */
  datatype Plan = Plan(opacity: Option<real>, draws: seq<Draw>)

  /** `a || b || c || 0` on numbers. */
  function FirstNonZero(a: real, b: real, c: real): (r: real)
    ensures r != 0.0 <==> a != 0.0 || b != 0.0 || c != 0.0
    ensures r != 0.0 ==> r == a || r == b || r == c
    ensures a != 0.0 ==> r == a
  {
    if a != 0.0 then a else if b != 0.0 then b else if c != 0.0 then c else 0.0
  }

  /** `overlay.size?.width || image.naturalWidth || image.width || 0` */
  function OverlayWidth(o: ExportOverlay, img: ImageDims): real {
    FirstNonZero(if o.size.Some? then o.size.value.width else 0.0, img.naturalWidth, img.width)
  }

  /** `overlay.size?.height || image.naturalHeight || image.height || 0` */
  function OverlayHeight(o: ExportOverlay, img: ImageDims): real {
    FirstNonZero(if o.size.Some? then o.size.value.height else 0.0, img.naturalHeight, img.height)
  }

  /**
   * `overlayList`: the `overlays` argument when it is non-empty, else the
   * legacy single overlay when both `overlayImage` and `corners` are given,
   * else nothing.  A missing `overlays` is the empty sequence.
   */
  function OverlayList(overlays: seq<Option<ExportOverlay>>, overlayImage: Option<ImageDims>,
                       corners: Option<Quad>, overlaySize: Option<Size>): (list: seq<Option<ExportOverlay>>)
    ensures |overlays| > 0 ==> list == overlays
    ensures |overlays| == 0 && overlayImage.Some? && corners.Some? ==>
      list == [Some(ExportOverlay(overlayImage, corners.value, overlaySize, false))]
    ensures |overlays| == 0 && (overlayImage.None? || corners.None?) ==> list == []
  {
    if |overlays| > 0 then overlays
    else if overlayImage.Some? && corners.Some? then [Some(ExportOverlay(overlayImage, corners.value, overlaySize, false))]
    else []
  }

  /** `safeOpacity`: a number clamped into [0, 1]; anything that is not a number gives 1. */
  function SafeOpacity(overlayOpacity: Option<real>): (r: real)
    ensures 0.0 <= r <= 1.0
    ensures overlayOpacity.None? ==> r == 1.0
    ensures overlayOpacity.Some? && 0.0 <= overlayOpacity.value <= 1.0 ==> r == overlayOpacity.value
  {
    match overlayOpacity
    case None => 1.0
    case Some(v) => Clamp01(v)
  }

  /**
   * The overlays that reach the homography: non-null, not hidden, with an
   * image and a non-zero width and height.
   */
  function Visible(entry: Option<ExportOverlay>): (r: bool)
    ensures r <==> entry.Some? && !entry.value.hidden && entry.value.image.Some? &&
                   (var o := entry.value; var img := o.image.value;
                    ((o.size.Some? && o.size.value.width != 0.0) || img.naturalWidth != 0.0 || img.width != 0.0) &&
                    ((o.size.Some? && o.size.value.height != 0.0) || img.naturalHeight != 0.0 || img.height != 0.0))
  {
    entry.Some? && !entry.value.hidden && entry.value.image.Some? &&
    OverlayWidth(entry.value, entry.value.image.value) != 0.0 &&
    OverlayHeight(entry.value, entry.value.image.value) != 0.0
  }

  function HomographyOf(entry: Option<ExportOverlay>, outputSize: Size): Option<Mat3>
    requires Visible(entry)
  {
    var o := entry.value;
    var img := o.image.value;
    ComputeHomography(Size(OverlayWidth(o, img), OverlayHeight(o, img)), o.corners, outputSize)
  }

  /**
   * One iteration of the `forEach`, as written: None is the TypeError thrown
   * when the homography is null; Some(None) is a skipped overlay.
   */
  function DrawAsWritten(entry: Option<ExportOverlay>, outputSize: Size): (r: Option<Option<Draw>>)
    ensures r.None? ==> Visible(entry)
    ensures r.Some? ==> r.value == DrawOf(entry, outputSize)
  {
    if !Visible(entry) then Some(None)
    else
      var o := entry.value;
      var img := o.image.value;
      match HomographyOf(entry, outputSize)
      case None => None
      case Some(h) =>
        match InvertHomography(h)
        case None => Some(None)
        case Some(hinv) => Some(Some(Draw(hinv, OverlayWidth(o, img), OverlayHeight(o, img))))
  }

  /** The draws of the whole `forEach`, as written; None when an iteration throws. */
  function DrawsAsWritten(list: seq<Option<ExportOverlay>>, outputSize: Size): Option<seq<Draw>> {
    if |list| == 0 then Some([])
    else
      match DrawAsWritten(list[0], outputSize)
      case None => None
      case Some(first) =>
        match DrawsAsWritten(list[1..], outputSize)
        case None => None
        case Some(rest) => Some((if first.Some? then [first.value] else []) + rest)
  }

  /** One iteration with a null homography skipped like a singular inverse. */
  function DrawOf(entry: Option<ExportOverlay>, outputSize: Size): (r: Option<Draw>)
    ensures r.Some? ==> Visible(entry) && r.value.width != 0.0 && r.value.height != 0.0
  {
    if !Visible(entry) then None
    else
      var o := entry.value;
      var img := o.image.value;
      match HomographyOf(entry, outputSize)
      case None => None
      case Some(h) =>
        match InvertHomography(h)
        case None => None
        case Some(hinv) => Some(Draw(hinv, OverlayWidth(o, img), OverlayHeight(o, img)))
  }

  /** The draws of the whole `forEach`, in list order, with null homographies skipped. */
  function Draws(list: seq<Option<ExportOverlay>>, outputSize: Size): (r: seq<Draw>)
    ensures forall d :: d in r ==> d.width != 0.0 && d.height != 0.0
  {
    if |list| == 0 then []
    else (if DrawOf(list[0], outputSize).Some? then [DrawOf(list[0], outputSize).value] else []) + Draws(list[1..], outputSize)
  }

  /** `renderMockupToCanvas` as written, reduced to its overlay plan; None when it throws. */
  function RenderAsWritten(overlays: seq<Option<ExportOverlay>>, overlayImage: Option<ImageDims>, corners: Option<Quad>,
                           overlaySize: Option<Size>, overlayOpacity: Option<real>, outputSize: Size): (r: Option<Plan>)
    ensures |OverlayList(overlays, overlayImage, corners, overlaySize)| == 0 ==> r == Some(Plan(None, []))
    ensures r.None? ==> |OverlayList(overlays, overlayImage, corners, overlaySize)| > 0
    ensures r.Some? && r.value.opacity.Some? ==> 0.0 <= r.value.opacity.value <= 1.0
  {
    var list := OverlayList(overlays, overlayImage, corners, overlaySize);
    if |list| == 0 then Some(Plan(None, []))
    else
      match DrawsAsWritten(list, outputSize)
      case None => None
      case Some(draws) => Some(Plan(Some(SafeOpacity(overlayOpacity)), draws))
  }

  /** `renderMockupToCanvas` with null homographies skipped, reduced to its overlay plan. */
  function Render(overlays: seq<Option<ExportOverlay>>, overlayImage: Option<ImageDims>, corners: Option<Quad>,
                  overlaySize: Option<Size>, overlayOpacity: Option<real>, outputSize: Size): (p: Plan)
    ensures p.opacity.Some? ==> 0.0 <= p.opacity.value <= 1.0
    ensures p.opacity.None? ==> p.draws == []
  {
    var list := OverlayList(overlays, overlayImage, corners, overlaySize);
    if |list| == 0 then Plan(None, [])
    else Plan(Some(SafeOpacity(overlayOpacity)), Draws(list, outputSize))
  }

  // ---------------------------------------------------------------------------
  // What is drawn
  // ---------------------------------------------------------------------------

  /**
   * An overlay is drawn exactly when it is visible and its homography and
   * that homography's inverse are both non-null; the draw carries the inverse,
   * which undoes the homography on both sides.
   */
  lemma DrawOfIsInverseOfHomography(entry: Option<ExportOverlay>, outputSize: Size)
    ensures DrawOf(entry, outputSize).Some? <==>
      Visible(entry) && HomographyOf(entry, outputSize).Some? &&
      InvertHomography(HomographyOf(entry, outputSize).value).Some?
    ensures DrawOf(entry, outputSize).Some? ==>
      var h := HomographyOf(entry, outputSize).value;
      var d := DrawOf(entry, outputSize).value;
      d.width != 0.0 && d.height != 0.0 && Mul(h, d.hinv) == Identity && Mul(d.hinv, h) == Identity
  {
    if DrawOf(entry, outputSize).Some? {
      InverseIsTwoSided(HomographyOf(entry, outputSize).value);
    }
  }

  lemma {:induction false} DrawsOfConcat(a: seq<Option<ExportOverlay>>, b: seq<Option<ExportOverlay>>, outputSize: Size)
    ensures Draws(a + b, outputSize) == Draws(a, outputSize) + Draws(b, outputSize)
  {
    if |a| > 0 {
      var head := if DrawOf(a[0], outputSize).Some? then [DrawOf(a[0], outputSize).value] else [];
      assert (a + b)[0] == a[0];
      assert (a + b)[1..] == a[1..] + b;
      assert Draws(a + b, outputSize) == head + Draws(a[1..] + b, outputSize);
      DrawsOfConcat(a[1..], b, outputSize);
      var t, u := Draws(a[1..], outputSize), Draws(b, outputSize);
      assert Draws(a + b, outputSize) == head + (t + u);
      assert Draws(a, outputSize) == head + t;
      assert head + (t + u) == (head + t) + u;
    } else {
      assert a + b == b;
    }
  }

  /** Every draw comes from some overlay of the list, and every drawable overlay is drawn. */
  lemma {:induction false} DrawsAreTheDrawableOverlays(list: seq<Option<ExportOverlay>>, outputSize: Size, d: Draw)
    ensures d in Draws(list, outputSize) <==> exists k :: 0 <= k < |list| && DrawOf(list[k], outputSize) == Some(d)
  {
    if |list| > 0 {
      DrawsAreTheDrawableOverlays(list[1..], outputSize, d);
      if d in Draws(list[1..], outputSize) {
        var k :| 0 <= k < |list[1..]| && DrawOf(list[1..][k], outputSize) == Some(d);
        assert DrawOf(list[k + 1], outputSize) == Some(d);
      }
      if exists k :: 0 <= k < |list| && DrawOf(list[k], outputSize) == Some(d) {
        var k :| 0 <= k < |list| && DrawOf(list[k], outputSize) == Some(d);
        if k > 0 {
          assert DrawOf(list[1..][k - 1], outputSize) == Some(d);
        }
      }
    }
  }

  /** There are never more draws than overlays. */
  lemma {:induction false} AtMostOneDrawPerOverlay(list: seq<Option<ExportOverlay>>, outputSize: Size)
    ensures |Draws(list, outputSize)| <= |list|
  {
    if |list| > 0 {
      AtMostOneDrawPerOverlay(list[1..], outputSize);
    }
  }

  // ---------------------------------------------------------------------------
  // The null-homography crash
  // ---------------------------------------------------------------------------

  /** Where the code as written does not throw, it draws exactly what the corrected version draws. */
  lemma {:induction false} AsWrittenAgreesWhenItSucceeds(list: seq<Option<ExportOverlay>>, outputSize: Size)
    requires DrawsAsWritten(list, outputSize).Some?
    ensures DrawsAsWritten(list, outputSize).value == Draws(list, outputSize)
  {
    if |list| > 0 {
      AsWrittenAgreesWhenItSucceeds(list[1..], outputSize);
    }
  }

  /** The code as written throws exactly when some visible overlay has a null homography. */
  lemma {:induction false} AsWrittenThrowsOnNullHomography(list: seq<Option<ExportOverlay>>, outputSize: Size)
    ensures DrawsAsWritten(list, outputSize).None? <==>
      exists k :: 0 <= k < |list| && Visible(list[k]) && HomographyOf(list[k], outputSize).None?
  {
    if |list| > 0 {
      assert DrawsAsWritten(list, outputSize).None? <==>
        DrawAsWritten(list[0], outputSize).None? || DrawsAsWritten(list[1..], outputSize).None?;
      IterationThrows(list[0], outputSize);
      AsWrittenThrowsOnNullHomography(list[1..], outputSize);
      NullHomographySplit(list, outputSize);
    }
  }

  /** One iteration throws exactly when its overlay is visible with a null homography. */
  lemma IterationThrows(entry: Option<ExportOverlay>, outputSize: Size)
    ensures DrawAsWritten(entry, outputSize).None? <==> Visible(entry) && HomographyOf(entry, outputSize).None?
  {
  }

  /** Some overlay is visible with a null homography iff the first one is or one of the rest is. */
  lemma NullHomographySplit(list: seq<Option<ExportOverlay>>, outputSize: Size)
    requires |list| > 0
    ensures (exists k :: 0 <= k < |list| && Visible(list[k]) && HomographyOf(list[k], outputSize).None?) <==>
      (Visible(list[0]) && HomographyOf(list[0], outputSize).None?) ||
      (exists k :: 0 <= k < |list[1..]| && Visible(list[1..][k]) && HomographyOf(list[1..][k], outputSize).None?)
  {
    var rest := list[1..];
    if exists k :: 0 <= k < |rest| && Visible(rest[k]) && HomographyOf(rest[k], outputSize).None? {
      var k :| 0 <= k < |rest| && Visible(rest[k]) && HomographyOf(rest[k], outputSize).None?;
      assert rest[k] == list[k + 1];
    }
    if exists k :: 0 <= k < |list| && Visible(list[k]) && HomographyOf(list[k], outputSize).None? {
      var k :| 0 <= k < |list| && Visible(list[k]) && HomographyOf(list[k], outputSize).None?;
      if k > 0 {
        assert rest[k - 1] == list[k];
      }
    }
  }

  /** A visible overlay whose four corners coincide. */
  predicate CollapsedVisible(o: ExportOverlay) {
    Visible(Some(o)) && o.corners.tl == o.corners.tr == o.corners.br == o.corners.bl
  }

  /** A collapsed overlay has no homography, so nothing of it is drawn. */
  lemma CollapsedOverlayHasNoHomography(o: ExportOverlay, outputSize: Size)
    requires CollapsedVisible(o)
    ensures HomographyOf(Some(o), outputSize).None?
    ensures DrawOf(Some(o), outputSize).None?
  {
    CollapsedQuadGivesNull(Size(OverlayWidth(o, o.image.value), OverlayHeight(o, o.image.value)), o.corners.tl, outputSize);
    assert o.corners == Quad(o.corners.tl, o.corners.tl, o.corners.tl, o.corners.tl);
  }

  /**
   * As written, one visible overlay dragged into a single point makes the
   * whole export throw, whatever the other overlays are.
   */
  lemma CollapsedOverlayBreaksExportAsWritten(before: seq<Option<ExportOverlay>>, o: ExportOverlay,
                                              after: seq<Option<ExportOverlay>>, opacity: Option<real>, outputSize: Size)
    requires CollapsedVisible(o)
    ensures RenderAsWritten(before + [Some(o)] + after, None, None, None, opacity, outputSize) == None
  {
    var list := before + [Some(o)] + after;
    CollapsedOverlayHasNoHomography(o, outputSize);
    assert list[|before|] == Some(o);
    AsWrittenThrowsOnNullHomography(list, outputSize);
  }

  /** With null homographies skipped, a collapsed overlay is left out and the others are drawn. */
  lemma CollapsedOverlayIsSkipped(before: seq<Option<ExportOverlay>>, o: ExportOverlay,
                                  after: seq<Option<ExportOverlay>>, opacity: Option<real>, outputSize: Size)
    requires CollapsedVisible(o)
    ensures Render(before + [Some(o)] + after, None, None, None, opacity, outputSize)
            == Plan(Some(SafeOpacity(opacity)), Draws(before, outputSize) + Draws(after, outputSize))
  {
    var list := before + [Some(o)] + after;
    assert OverlayList(list, None, None, None) == list;
    CollapsedOverlayHasNoHomography(o, outputSize);
    SkippedOverlayLeavesTheOthers(before, Some(o), after, outputSize);
  }

  lemma SkippedOverlayLeavesTheOthers(before: seq<Option<ExportOverlay>>, entry: Option<ExportOverlay>,
                                      after: seq<Option<ExportOverlay>>, outputSize: Size)
    requires DrawOf(entry, outputSize).None?
    ensures Draws(before + [entry] + after, outputSize) == Draws(before, outputSize) + Draws(after, outputSize)
  {
    assert Draws([entry], outputSize) == [] by {
      assert [entry][1..] == [];
    }
    DrawsOfConcat(before, [entry], outputSize);
    DrawsOfConcat(before + [entry], after, outputSize);
  }
}
