/** The crop contract between the upload service, which validates a requested square, and the
    worker, which cuts it. Coordinates are exact reals; a coordinate that is NaN or infinite is
    a value of its own, so that the validation branch that refuses it is part of the model. */
module Crop {
  datatype Coordinate = Finite(v: real) | NotFinite

  datatype Request = Request(x: Coordinate, y: Coordinate, size: Coordinate)

  datatype Square = Square(x: real, y: real, size: real)

  datatype CropError = InvalidFormat | InvalidInput

  datatype Normalized = Accepted(crop: Square) | Refused(error: CropError)

  function AsRequest(s: Square): Request {
    Request(Finite(s.x), Finite(s.y), Finite(s.size))
  }

  predicate Fits(s: Square, width: int, height: int) {
    && s.x >= 0.0 && s.y >= 0.0 && s.size > 0.0
    && s.size <= width as real && s.size <= height as real
    && s.x + s.size <= width as real && s.y + s.size <= height as real
  }

  function NormalizeCrop(r: Request, width: int, height: int): Normalized {
    if width <= 0 || height <= 0 then Refused(InvalidFormat)
    else if r == Request(Finite(0.0), Finite(0.0), Finite(0.0)) then
      var size := if height < width then height as real else width as real;
      Accepted(Square((width as real - size) / 2.0, (height as real - size) / 2.0, size))
    else if r.x.NotFinite? || r.y.NotFinite? || r.size.NotFinite? then Refused(InvalidInput)
    else
      var s := Square(r.x.v, r.y.v, r.size.v);
      if Fits(s, width, height) then Accepted(s) else Refused(InvalidInput)
  }

  /** No crop is asked for; the whole image is meant, as far as it is square. */
  predicate NoneAsked(r: Request) {
    r.x == Finite(0.0) && r.y == Finite(0.0) && r.size == Finite(0.0)
  }

  /** The request is a square of positive side with its four edges inside the image. */
  predicate AsksInside(r: Request, width: int, height: int) {
    && r.x.Finite? && r.y.Finite? && r.size.Finite?
    && r.size.v > 0.0
    && 0.0 <= r.x.v && r.x.v + r.size.v <= width as real
    && 0.0 <= r.y.v && r.y.v + r.size.v <= height as real
  }

  /** Can the request be met on an image of this size? */
  predicate Acceptable(r: Request, width: int, height: int) {
    width > 0 && height > 0 && (NoneAsked(r) || AsksInside(r, width, height))
  }

  /** The square is the one asked for; when none was, it is the largest one in the middle. */
  predicate Meets(s: Square, r: Request, width: int, height: int) {
    if NoneAsked(r) then
      && s.size <= width as real && s.size <= height as real && (s.size == width as real || s.size == height as real)
      && 2.0 * s.x + s.size == width as real && 2.0 * s.y + s.size == height as real
    else r == AsRequest(s)
  }

  /** Validation accepts what can be met, keeps the square that was asked for, and blames the format
      exactly when the image has no area. */
  lemma NormalizeMeaning(r: Request, width: int, height: int)
    ensures NormalizeCrop(r, width, height).Accepted? <==> Acceptable(r, width, height)
    ensures NormalizeCrop(r, width, height).Accepted? ==> Meets(NormalizeCrop(r, width, height).crop, r, width, height)
    ensures NormalizeCrop(r, width, height) == Refused(InvalidFormat) <==> width <= 0 || height <= 0
  {
  }

  /** Rounding to the nearest integer, halves away from zero. */
  function Round(r: real): int {
    if r >= 0.0 then (r + 0.5).Floor else -((-r + 0.5).Floor)
  }

  lemma RoundIsNearest(r: real)
    ensures -0.5 <= r - Round(r) as real <= 0.5
    ensures r - Round(r) as real == 0.5 ==> r < 0.0
    ensures r - Round(r) as real == -0.5 ==> r > 0.0
  {
  }

  /** An image is known here by its bounds: the top-left corner and the two side lengths. */
  datatype Bounds = Bounds(minX: int, minY: int, dx: int, dy: int)

  /** The bounds of the image the worker goes on with; the untouched input when it cuts nothing. */
  function ApplyCrop(b: Bounds, s: Square): Bounds {
    if s.size <= 0.0 then b
    else
      var size := Round(s.size);
      var x := Round(s.x);
      var y := Round(s.y);
      if size <= 0 || x < 0 || y < 0 || size > b.dx || size > b.dy then b
      else
        var left := if x + size > b.dx then b.dx - size else x;
        var top := if y + size > b.dy then b.dy - size else y;
        Bounds(b.minX + left, b.minY + top, size, size)
  }

  predicate Inside(inner: Bounds, outer: Bounds) {
    && outer.minX <= inner.minX && inner.minX + inner.dx <= outer.minX + outer.dx
    && outer.minY <= inner.minY && inner.minY + inner.dy <= outer.minY + outer.dy
  }

  /** Every accepted crop lies inside the image, and validating it again changes nothing. */
  lemma NormalizeIsIdempotent(r: Request, width: int, height: int)
    requires NormalizeCrop(r, width, height).Accepted?
    ensures Fits(NormalizeCrop(r, width, height).crop, width, height)
    ensures var s := NormalizeCrop(r, width, height).crop;
            NormalizeCrop(AsRequest(s), width, height) == Accepted(s) && Meets(s, r, width, height)
  {
  }

  /** One edge of the cut starts at the rounded coordinate, or one pixel before it when the square
      would stick out, which then ends at the image's edge. */
  predicate StartsAt(start: int, rounded: int, end: int, edge: int) {
    start == rounded || (start == rounded - 1 && end == edge)
  }

  predicate CutAsRequested(b: Bounds, s: Square, cut: Bounds) {
    var side := Round(s.size);
    && side >= 1 && cut.dx == side && cut.dy == side
    && Inside(cut, b)
    && StartsAt(cut.minX, b.minX + Round(s.x), cut.minX + side, b.minX + b.dx)
    && StartsAt(cut.minY, b.minY + Round(s.y), cut.minY + side, b.minY + b.dy)
  }

  /** For every crop the service accepts for an image, the worker cuts a square of the rounded
      side inside the image, with its origin at most one pixel before the rounded request, if and
      only if the side is at least half a pixel; a thinner accepted crop is ignored and the whole
      image is used. */
  lemma AcceptedCropIsCut(r: Request, b: Bounds)
    requires NormalizeCrop(r, b.dx, b.dy).Accepted?
    ensures var s := NormalizeCrop(r, b.dx, b.dy).crop;
            && (s.size >= 0.5 <==> CutAsRequested(b, s, ApplyCrop(b, s)))
            && (s.size < 0.5 ==> ApplyCrop(b, s) == b)
  {
  }

  /** Where a side of this length starts: where it was asked to, or as far before that as it must to end
      at the edge. */
  function Moved(start: int, side: int, length: int): (left: int)
    requires 0 <= start && 1 <= side <= length
    ensures 0 <= left <= start && left + side <= length
    ensures left == start || left + side == length
  {
    if start + side <= length then start else length - side
  }

  /** Whatever crop a row carries, the worker cuts a square of the rounded side inside the image or
      leaves the image as it is, the latter exactly for a side that rounds to nothing or exceeds the
      image, or for a negative origin. */
  lemma AnyCropIsSafe(b: Bounds, s: Square)
    requires b.dx > 0 && b.dy > 0
    ensures var cut, side := ApplyCrop(b, s), Round(s.size);
            if side >= 1 && side <= b.dx && side <= b.dy && Round(s.x) >= 0 && Round(s.y) >= 0
            then cut.dx == side && cut.dy == side && Inside(cut, b)
                 && cut.minX - b.minX == Moved(Round(s.x), side, b.dx) && cut.minY - b.minY == Moved(Round(s.y), side, b.dy)
            else cut == b
  {
  }

  /** The accepted crops that the worker does not honour really exist. */
  lemma ThinCropIsIgnored()
    ensures var s := Square(0.0, 0.0, 0.25);
            && NormalizeCrop(AsRequest(s), 100, 100) == Accepted(s)
            && ApplyCrop(Bounds(0, 0, 100, 100), s) == Bounds(0, 0, 100, 100)
  {
  }

  /** A crop given in whole pixels is cut exactly where it was asked for. */
  lemma WholePixelCropIsExact(b: Bounds, x: int, y: int, size: int)
    requires NormalizeCrop(AsRequest(Square(x as real, y as real, size as real)), b.dx, b.dy).Accepted?
    requires size != 0
    ensures ApplyCrop(b, Square(x as real, y as real, size as real)) == Bounds(b.minX + x, b.minY + y, size, size)
  {
  }
}
