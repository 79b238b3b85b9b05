/**
 * `create_layout_image`: pads the caller's list of panel images in place to
 * four blank 1024x1024 images, then pastes the panels, each resized, onto a
 * white canvas according to one of four fixed layouts. Pixels are not
 * modelled: an image is its size, and a composite is its canvas size and
 * the rectangle each source image is resized to and pasted at.
 */
module Layout {
  import opened PyStr

  const PanelSize := 1024
  const GridSize := 2048
  const StripPanelHeight := 768
  const StripGap := 20
  /** `panel_height * 4 + 60`: four strip panels and three gaps. */
  const StripHeight := StripPanelHeight * 4 + 60

  /** A PIL image, reduced to its size; every image is its own object. */
  class Image {
    const width: nat
    const height: nat

    /** `Image.new('RGB', (1024, 1024), color='white')`. */
    constructor Blank()
      ensures width == PanelSize && height == PanelSize
    {
      width := PanelSize;
      height := PanelSize;
    }
  }

  /** The caller's Python list of panel images, which the layout extends. */
  class ImageList {
    var items: seq<Image>

    constructor (items: seq<Image>)
      ensures this.items == items
    {
      this.items := items;
    }
  }

  /** Image `source` resized to `width` x `height` and pasted at (`x`, `y`). */
  datatype Placement = Placement(source: nat, x: int, y: int, width: int, height: int)

  datatype Composite = Composite(width: int, height: int, placements: seq<Placement>)

  predicate Inside(p: Placement, px: int, py: int) {
    p.x <= px < p.x + p.width && p.y <= py < p.y + p.height
  }

  predicate InCanvas(c: Composite, px: int, py: int) {
    0 <= px < c.width && 0 <= py < c.height
  }

  predicate Overlap(p: Placement, q: Placement) {
    p.x < q.x + q.width && q.x < p.x + p.width && p.y < q.y + q.height && q.y < p.y + p.height
  }

  /** Every pasted rectangle is non-empty and lies on the canvas. */
  ghost predicate WithinCanvas(c: Composite) {
    forall i :: 0 <= i < |c.placements| ==>
      var p := c.placements[i];
      0 < p.width && 0 < p.height && 0 <= p.x && p.x + p.width <= c.width && 0 <= p.y && p.y + p.height <= c.height
  }

  /** No two pasted rectangles share a pixel. */
  ghost predicate Disjoint(c: Composite) {
    forall i, j :: 0 <= i < j < |c.placements| ==> !Overlap(c.placements[i], c.placements[j])
  }

  ghost predicate CoveredAt(c: Composite, px: int, py: int) {
    exists i :: 0 <= i < |c.placements| && Inside(c.placements[i], px, py)
  }

  /** Every canvas pixel lies in some pasted rectangle. */
  ghost predicate Covers(c: Composite) {
    forall px, py :: InCanvas(c, px, py) ==> CoveredAt(c, px, py)
  }

  /** The pasted rectangles tile the canvas exactly: no white is left. */
  ghost predicate ExactTiling(c: Composite) {
    WithinCanvas(c) && Disjoint(c) && Covers(c)
  }

  /** Image `i` is pasted as the `i`-th placement, for the first `n` images. */
  predicate SourcesInOrder(c: Composite, n: nat) {
    |c.placements| == n && forall i :: 0 <= i < n ==> c.placements[i].source == i
  }

  const GridPositions: seq<(int, int)> := [(0, 0), (PanelSize, 0), (0, PanelSize), (PanelSize, PanelSize)]

  /** Layout A (and any unknown layout): a 2x2 grid of 1024x1024 panels. */
  function Grid(): Composite {
    Composite(GridSize, GridSize,
      seq(4, i requires 0 <= i < 4 => Placement(i, GridPositions[i].0, GridPositions[i].1, PanelSize, PanelSize)))
  }

  /** Layout B: four 1024x768 panels stacked with 20-pixel gaps. */
  function Strip(): Composite {
    Composite(PanelSize, StripHeight,
      seq(4, i requires 0 <= i < 4 => Placement(i, 0, i * (StripPanelHeight + StripGap), PanelSize, StripPanelHeight)))
  }

  /** Layout C: one wide panel on top, two square panels below. */
  function TopAndTwo(): Composite {
    Composite(GridSize, GridSize,
      [Placement(0, 0, 0, GridSize, PanelSize),
       Placement(1, 0, PanelSize, PanelSize, PanelSize),
       Placement(2, PanelSize, PanelSize, PanelSize, PanelSize)])
  }

  /** Layout D: one tall panel on the left, two square panels on the right. */
  function TallAndTwo(): Composite {
    Composite(GridSize, GridSize,
      [Placement(0, 0, 0, PanelSize, GridSize),
       Placement(1, PanelSize, 0, PanelSize, PanelSize),
       Placement(2, PanelSize, PanelSize, PanelSize, PanelSize)])
  }

  lemma GridTiles()
    ensures ExactTiling(Grid()) && SourcesInOrder(Grid(), 4)
    ensures forall i :: 0 <= i < 4 ==> Grid().placements[i].width == Grid().placements[i].height == PanelSize
  {
    var c := Grid();
    forall px, py | InCanvas(c, px, py) ensures CoveredAt(c, px, py) {
      var i := (if py < PanelSize then 0 else 2) + (if px < PanelSize then 0 else 1);
      assert Inside(c.placements[i], px, py);
    }
  }

  /** Panel `i` of the strip starts at `i * 788`; the panels do not overlap,
      the last one ends exactly at the bottom of the canvas, and a pixel is
      covered exactly when it is not in one of the 20-pixel gaps. */
  lemma StripStacks()
    ensures WithinCanvas(Strip()) && Disjoint(Strip()) && SourcesInOrder(Strip(), 4)
    ensures forall i :: 0 <= i < 4 ==> Strip().placements[i] == Placement(i, 0, i * 788, PanelSize, StripPanelHeight)
    ensures Strip().height == 3132 && Strip().placements[3].y + Strip().placements[3].height == Strip().height
    ensures forall px, py :: InCanvas(Strip(), px, py) ==> (CoveredAt(Strip(), px, py) <==> py % 788 < StripPanelHeight)
  {
    var c := Strip();
    forall px, py | InCanvas(c, px, py) ensures CoveredAt(c, px, py) <==> py % 788 < StripPanelHeight {
      var k := py / 788;
      assert 0 <= k < 4;
      if py % 788 < StripPanelHeight {
        assert Inside(c.placements[k], px, py);
      }
      if CoveredAt(c, px, py) {
        var i :| 0 <= i < 4 && Inside(c.placements[i], px, py);
        assert c.placements[i].y == i * 788;
        assert py - i * 788 < StripPanelHeight;
        assert py / 788 == i;
      }
    }
  }

  lemma TopAndTwoTiles()
    ensures ExactTiling(TopAndTwo()) && SourcesInOrder(TopAndTwo(), 3)
  {
    var c := TopAndTwo();
    forall px, py | InCanvas(c, px, py) ensures CoveredAt(c, px, py) {
      var i := if py < PanelSize then 0 else if px < PanelSize then 1 else 2;
      assert Inside(c.placements[i], px, py);
    }
  }

  lemma TallAndTwoTiles()
    ensures ExactTiling(TallAndTwo()) && SourcesInOrder(TallAndTwo(), 3)
  {
    var c := TallAndTwo();
    forall px, py | InCanvas(c, px, py) ensures CoveredAt(c, px, py) {
      var i := if px < PanelSize then 0 else if py < PanelSize then 1 else 2;
      assert Inside(c.placements[i], px, py);
    }
  }

  /** The composite `create_layout_image` builds for a layout name. */
  function Arrange(layoutType: string): (c: Composite)
    ensures WithinCanvas(c) && Disjoint(c)
    // B is the vertical strip; every other layout leaves no white on a
    // 2048x2048 canvas
    ensures layoutType == "B" ==> c.width == PanelSize && c.height == 3132 && SourcesInOrder(c, 4)
    ensures layoutType == "B" ==>
      forall i :: 0 <= i < 4 ==> c.placements[i] == Placement(i, 0, i * 788, PanelSize, StripPanelHeight)
    ensures layoutType != "B" ==> ExactTiling(c) && c.width == GridSize && c.height == GridSize
    // C and D show only the first three images; A and unknown names show four
    ensures layoutType == "C" || layoutType == "D" ==> SourcesInOrder(c, 3)
    // each named layout gets its own arrangement
    ensures layoutType == "A" ==> c == Grid()
    ensures layoutType == "B" ==> c == Strip()
    ensures layoutType == "C" ==> c == TopAndTwo()
    ensures layoutType == "D" ==> c == TallAndTwo()
    // an unknown name gets the same grid as A
    ensures layoutType !in {"B", "C", "D"} ==> SourcesInOrder(c, 4) && c == Grid()
  {
    GridTiles();
    StripStacks();
    TopAndTwoTiles();
    TallAndTwoTiles();
    if layoutType == "A" then Grid()
    else if layoutType == "B" then Strip()
    else if layoutType == "C" then TopAndTwo()
    else if layoutType == "D" then TallAndTwo()
    else Grid()
  }

  /** `create_layout_image(images, layout_type)`: the caller's list is padded
      in place, then the panels are placed as Arrange says. */
  method CreateLayoutImage(images: ImageList, layoutType: string) returns (c: Composite)
    modifies images
    // padding: existing entries keep their place, blanks are appended up to four
    ensures |images.items| == Max(4, |old(images.items)|)
    ensures images.items[..|old(images.items)|] == old(images.items)
    ensures forall k :: |old(images.items)| <= k < |images.items| ==>
      fresh(images.items[k]) && images.items[k].width == PanelSize && images.items[k].height == PanelSize
    ensures |old(images.items)| >= 4 ==> images.items == old(images.items)
    // placement
    ensures c == Arrange(layoutType)
    ensures forall i :: 0 <= i < |c.placements| ==> c.placements[i].source < |images.items|
  {
    while |images.items| < 4
      invariant |old(images.items)| <= |images.items| <= Max(4, |old(images.items)|)
      invariant images.items[..|old(images.items)|] == old(images.items)
      invariant forall k :: |old(images.items)| <= k < |images.items| ==>
        fresh(images.items[k]) && images.items[k].width == PanelSize && images.items[k].height == PanelSize
    {
      var blank := new Image.Blank();
      images.items := images.items + [blank];
    }
    if |old(images.items)| >= 4 {
      assert images.items == images.items[..|old(images.items)|];
    }
    var n := |images.items[..4]|;
    if layoutType == "A" {
      c := PasteGrid();
    } else if layoutType == "B" {
      var placements: seq<Placement> := [];
      for i := 0 to n
        invariant placements == Strip().placements[..i]
      {
        var yOffset := i * (StripPanelHeight + StripGap);
        placements := placements + [Placement(i, 0, yOffset, PanelSize, StripPanelHeight)];
      }
      assert placements == Strip().placements;
      c := Composite(PanelSize, StripHeight, placements);
    } else if layoutType == "C" {
      c := Composite(GridSize, GridSize,
        [Placement(0, 0, 0, GridSize, PanelSize),
         Placement(1, 0, PanelSize, PanelSize, PanelSize),
         Placement(2, PanelSize, PanelSize, PanelSize, PanelSize)]);
    } else if layoutType == "D" {
      c := Composite(GridSize, GridSize,
        [Placement(0, 0, 0, PanelSize, GridSize),
         Placement(1, PanelSize, 0, PanelSize, PanelSize),
         Placement(2, PanelSize, PanelSize, PanelSize, PanelSize)]);
    } else {
      c := PasteGrid();
    }
  }

  /** The 2x2 grid pasting loop over `images[:4]`, which `create_layout_image`
      writes out twice: for layout A and for an unknown layout. */
  method PasteGrid() returns (c: Composite)
    ensures c == Grid()
  {
    var placements: seq<Placement> := [];
    for i := 0 to |GridPositions|
      invariant placements == Grid().placements[..i]
    {
      placements := placements + [Placement(i, GridPositions[i].0, GridPositions[i].1, PanelSize, PanelSize)];
    }
    assert placements == Grid().placements;
    c := Composite(GridSize, GridSize, placements);
  }
}
