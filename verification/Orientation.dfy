/**
  The orientation logic of Image::load (src/image.cpp): the flips and rotations it applies
  undo the stored orientation defined in section 4.6.4 of Exif 2.3, pixel for pixel.
 */
module Orientation {
  import opened Common
  import opened Scaling

  /** A pixel buffer, row by row from the top. */
  datatype Pixbuf<T> = Pixbuf(width: nat, height: nat, rows: seq<seq<T>>)

  ghost predicate Valid<T>(p: Pixbuf<T>) {
    && |p.rows| == p.height
    && forall y :: 0 <= y < p.height ==> |p.rows[y]| == p.width
  }

  function Pixel<T>(p: Pixbuf<T>, x: int, y: int): T
    requires Valid(p) && 0 <= x < p.width && 0 <= y < p.height
  {
    p.rows[y][x]
  }

  /** The pixel buffer of the given size whose pixel at column x and row y is at(x, y). */
  function Tabulate<T>(width: nat, height: nat, at: (int, int) --> T): (p: Pixbuf<T>)
    requires forall x, y :: 0 <= x < width && 0 <= y < height ==> at.requires(x, y)
    ensures Valid(p) && p.width == width && p.height == height
    ensures forall x, y :: 0 <= x < width && 0 <= y < height ==> Pixel(p, x, y) == at(x, y)
  {
    Pixbuf(width, height,
           seq(height, y requires 0 <= y < height =>
             seq(width, x requires 0 <= x < width => at(x, y))))
  }

  lemma SamePixels<T>(p: Pixbuf<T>, q: Pixbuf<T>)
    requires Valid(p) && Valid(q) && p.width == q.width && p.height == q.height
    requires forall x, y :: 0 <= x < p.width && 0 <= y < p.height ==> Pixel(p, x, y) == Pixel(q, x, y)
    ensures p == q
  {
    forall y | 0 <= y < p.height
      ensures p.rows[y] == q.rows[y]
    {
      forall x | 0 <= x < p.width
        ensures p.rows[y][x] == q.rows[y][x]
      {
        assert Pixel(p, x, y) == Pixel(q, x, y);
      }
    }
    assert p.rows == q.rows;
  }

  // ---- The operations of gdk-pixbuf ----

  function FlipHorizontally<T>(p: Pixbuf<T>): Pixbuf<T>
    requires Valid(p)
  {
    Tabulate(p.width, p.height, (x, y) requires 0 <= x < p.width && 0 <= y < p.height => Pixel(p, p.width - 1 - x, y))
  }

  function FlipVertically<T>(p: Pixbuf<T>): Pixbuf<T>
    requires Valid(p)
  {
    Tabulate(p.width, p.height, (x, y) requires 0 <= x < p.width && 0 <= y < p.height => Pixel(p, x, p.height - 1 - y))
  }

  function RotateUpsideDown<T>(p: Pixbuf<T>): Pixbuf<T>
    requires Valid(p)
  {
    Tabulate(p.width, p.height,
             (x, y) requires 0 <= x < p.width && 0 <= y < p.height => Pixel(p, p.width - 1 - x, p.height - 1 - y))
  }

  function RotateClockwise<T>(p: Pixbuf<T>): Pixbuf<T>
    requires Valid(p)
  {
    Tabulate(p.height, p.width,
             (x, y) requires 0 <= x < p.height && 0 <= y < p.width => Pixel(p, y, p.height - 1 - x))
  }

  function RotateCounterclockwise<T>(p: Pixbuf<T>): Pixbuf<T>
    requires Valid(p)
  {
    Tabulate(p.height, p.width,
             (x, y) requires 0 <= x < p.height && 0 <= y < p.width => Pixel(p, p.width - 1 - y, x))
  }

  // ---- The standard's definition ----

  datatype Side = Top | Bottom | Left | Right

  /** Where the 0th row and the 0th column of the stored image are in the scene, by tag value. */
  function RowSide(orientation: int): Side {
    match orientation
    case 3 => Bottom
    case 4 => Bottom
    case 5 => Left
    case 6 => Right
    case 7 => Right
    case 8 => Left
    case _ => Top
  }

  function ColumnSide(orientation: int): Side {
    match orientation
    case 2 => Right
    case 3 => Right
    case 5 => Top
    case 6 => Top
    case 7 => Bottom
    case 8 => Bottom
    case _ => Left
  }

  /** How far a pixel of the scene is from one of its sides. */
  function From<T>(side: Side, scene: Pixbuf<T>, x: int, y: int): int {
    match side
    case Top => y
    case Bottom => scene.height - 1 - y
    case Left => x
    case Right => scene.width - 1 - x
  }

  predicate SwapsSides(orientation: int) {
    5 <= orientation <= 8
  }

  /** `stored` is `scene` written down with the given orientation tag. */
  ghost predicate Stores<T>(stored: Pixbuf<T>, orientation: int, scene: Pixbuf<T>)
    requires Valid(stored) && Valid(scene)
  {
    && (if SwapsSides(orientation) then stored.width == scene.height && stored.height == scene.width
        else stored.width == scene.width && stored.height == scene.height)
    && forall x, y :: 0 <= x < scene.width && 0 <= y < scene.height ==>
         Pixel(scene, x, y) ==
         Pixel(stored, From(ColumnSide(orientation), scene, x, y), From(RowSide(orientation), scene, x, y))
  }

  // ---- What the code does ----

  /** The correction at the end of Image::load; values that are not in the standard are ignored. */
  method CorrectOrientation<T>(loaded: Pixbuf<T>, orientation: int) returns (pixbuf: Pixbuf<T>)
    requires Valid(loaded)
    ensures pixbuf == Corrected(loaded, orientation)
  {
    pixbuf := loaded;
    match orientation {
      case 2 =>
        pixbuf := FlipHorizontally(pixbuf);
      case 3 =>
        pixbuf := RotateUpsideDown(pixbuf);
      case 4 =>
        pixbuf := FlipVertically(pixbuf);
      case 5 =>
        pixbuf := RotateClockwise(pixbuf);
        pixbuf := FlipHorizontally(pixbuf);
      case 6 =>
        pixbuf := RotateClockwise(pixbuf);
      case 7 =>
        pixbuf := RotateCounterclockwise(pixbuf);
        pixbuf := FlipHorizontally(pixbuf);
      case 8 =>
        pixbuf := RotateCounterclockwise(pixbuf);
      case _ =>
    }
  }

  function Corrected<T>(p: Pixbuf<T>, orientation: int): (r: Pixbuf<T>)
    requires Valid(p)
    ensures Valid(r)
  {
    match orientation
    case 2 => FlipHorizontally(p)
    case 3 => RotateUpsideDown(p)
    case 4 => FlipVertically(p)
    case 5 => FlipHorizontally(RotateClockwise(p))
    case 6 => RotateClockwise(p)
    case 7 => FlipHorizontally(RotateCounterclockwise(p))
    case 8 => RotateCounterclockwise(p)
    case _ => p
  }

  /** What the correction yields is a scene that the loaded image stores with its tag. */
  lemma CorrectedIsStored<T>(p: Pixbuf<T>, orientation: int)
    requires Valid(p)
    ensures Stores(p, orientation, Corrected(p, orientation))
  {
    hide Tabulate;
    hide Pixel;
    var r := Corrected(p, orientation);
    match orientation {
      case 5 =>
        var turned := RotateClockwise(p);
        forall x, y | 0 <= x < r.width && 0 <= y < r.height
          ensures Pixel(r, x, y) == Pixel(p, y, x)
        {
          assert Pixel(r, x, y) == Pixel(turned, r.width - 1 - x, y);
        }
      case 7 =>
        var turned := RotateCounterclockwise(p);
        forall x, y | 0 <= x < r.width && 0 <= y < r.height
          ensures Pixel(r, x, y) == Pixel(p, r.height - 1 - y, r.width - 1 - x)
        {
          assert Pixel(r, x, y) == Pixel(turned, r.width - 1 - x, y);
        }
      case _ =>
    }
  }

  /** A stored image and its tag determine the scene. */
  lemma SceneIsUnique<T>(p: Pixbuf<T>, orientation: int, a: Pixbuf<T>, b: Pixbuf<T>)
    requires Valid(p) && Valid(a) && Valid(b)
    requires Stores(p, orientation, a) && Stores(p, orientation, b)
    ensures a == b
  {
    forall x, y | 0 <= x < a.width && 0 <= y < a.height
      ensures Pixel(a, x, y) == Pixel(b, x, y)
    {
    }
    SamePixels(a, b);
  }

  /** For every orientation and every scene, the correction of the stored image is exactly the scene. */
  lemma CorrectionUndoesStorage<T>(stored: Pixbuf<T>, orientation: int, scene: Pixbuf<T>)
    requires Valid(stored) && Valid(scene)
    ensures Corrected(stored, orientation) == scene <==> Stores(stored, orientation, scene)
  {
    CorrectedIsStored(stored, orientation);
    if Stores(stored, orientation, scene) {
      SceneIsUnique(stored, orientation, Corrected(stored, orientation), scene);
    }
  }

  /** The tag whose correction undoes the correction for this one. */
  function Inverse(orientation: int): int {
    match orientation
    case 6 => 8
    case 8 => 6
    case _ => orientation
  }

  /** Every scene can be stored with every tag, so no correction loses or repeats a pixel. */
  lemma EverySceneIsStored<T>(scene: Pixbuf<T>, orientation: int)
    requires Valid(scene)
    ensures Stores(Corrected(scene, Inverse(orientation)), orientation, scene)
    ensures Corrected(Corrected(scene, Inverse(orientation)), orientation) == scene
  {
    hide Tabulate;
    hide Pixel;
    var stored := Corrected(scene, Inverse(orientation));
    CorrectedSize(scene, Inverse(orientation));
    CorrectedIsStored(scene, Inverse(orientation));
    forall x, y | 0 <= x < scene.width && 0 <= y < scene.height
      ensures Pixel(scene, x, y) ==
              Pixel(stored, From(ColumnSide(orientation), scene, x, y), From(RowSide(orientation), scene, x, y))
    {
      var sx, sy := From(ColumnSide(orientation), scene, x, y), From(RowSide(orientation), scene, x, y);
      assert Pixel(stored, sx, sy) ==
             Pixel(scene, From(ColumnSide(Inverse(orientation)), stored, sx, sy),
                   From(RowSide(Inverse(orientation)), stored, sx, sy));
    }
    CorrectionUndoesStorage(stored, orientation, scene);
  }

  // ---- Sizes ----

  /** The requested box, turned for the orientations that turn the image. */
  function UnrotatedRequest(requested: Size, orientation: int): Size {
    if SwapsSides(orientation) then Transpose(requested) else requested
  }

  function Oriented(s: Size, orientation: int): Size {
    if SwapsSides(orientation) then Transpose(s) else s
  }

  lemma CorrectedSize<T>(p: Pixbuf<T>, orientation: int)
    requires Valid(p)
    ensures var r := Corrected(p, orientation);
            Size(r.width, r.height) == Oriented(Size(p.width, p.height), orientation)
  {
  }

  /**
    Decoding to the turned box and then turning the image gives one that fits the box that was
    asked for, and is no larger than the corrected original.
   */
  lemma OrientedFits(stored: Size, requested: Size, orientation: int)
    requires IsImage(stored) && IsValid(requested)
    ensures match Decode(stored, UnrotatedRequest(requested, orientation))
            case None => true
            case Some(d) =>
              var shown, original := Oriented(d, orientation), Oriented(stored, orientation);
              && IsImage(shown) && Fits(shown, Fill(requested, original)) && Fits(shown, original)
  {
    var turned := UnrotatedRequest(requested, orientation);
    DecodeIsScale(stored, turned);
    ScalePromises(stored, turned);
  }

  /** The embedded thumbnail is decoded to the turned box too, and its correction fits the box asked for. */
  lemma OrientedThumbnailFits(thumbnail: Size, requested: Size, orientation: int)
    requires IsImage(thumbnail) && IsValid(requested)
    ensures match DecodeThumbnail(thumbnail, UnrotatedRequest(requested, orientation))
            case None => true
            case Some(d) =>
              var shown, stored := Oriented(d, orientation), Oriented(thumbnail, orientation);
              && IsImage(shown) && Fits(shown, Fill(requested, stored))
              && (Fits(shown, stored) || Fits(stored, shown))
  {
    ThumbnailFits(thumbnail, UnrotatedRequest(requested, orientation));
    hide DecodeThumbnail;
  }
}
