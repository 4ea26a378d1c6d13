/**
  * The pixel map of the exporter: a normalised camera coordinate (x to the right,
  * y upwards, 0..1 across the camera frame) becomes an integer pixel with its
  * origin at the top-left corner, by a float multiply and Python's `int()`.
  */
module Pixels {

  datatype Pixel = Pixel(x: int, y: int)

  /** Python's `int()` of a number: truncation toward zero. */
  function Trunc(r: real): (n: int)
    ensures 0.0 <= r ==> n as real <= r < n as real + 1.0
    ensures r < 0.0 ==> n as real - 1.0 < r <= n as real
  {
    if r >= 0.0 then r.Floor else -((-r).Floor)
  }

  /** The column of a horizontal coordinate: `int(nx * res_x)`. */
  function Column(nx: real, resX: int): int {
    Trunc(nx * resX as real)
  }

  /** The row of a vertical coordinate, flipped so that row 0 is the top: `int((1.0 - ny) * res_y)`. */
  function RowOf(ny: real, resY: int): int {
    Trunc((1.0 - ny) * resY as real)
  }

  /** The pixel of a normalised camera coordinate, with no clamping. */
  function ToPixel(nx: real, ny: real, resX: int, resY: int): Pixel {
    Pixel(Column(nx, resX), RowOf(ny, resY))
  }

  /** Truncation of a scaled coordinate in [0, 1) is a whole number in [0, res). */
  lemma ScaledInRange(n: real, res: int)
    requires 0.0 <= n < 1.0 && res >= 1
    ensures 0 <= Trunc(n * res as real) < res
  {
    var r := res as real;
    assert n * r < 1.0 * r;
  }

  /** A coordinate inside the camera frame lands inside the image. */
  lemma InFrameIsInImage(nx: real, ny: real, resX: int, resY: int)
    requires 0.0 <= nx < 1.0 && 0.0 < ny <= 1.0
    requires resX >= 1 && resY >= 1
    ensures 0 <= ToPixel(nx, ny, resX, resY).x < resX
    ensures 0 <= ToPixel(nx, ny, resX, resY).y < resY
  {
    ScaledInRange(nx, resX);
    ScaledInRange(1.0 - ny, resY);
  }

  /**
    * The corners of the camera frame: its top-left corner (0, 1) is pixel (0, 0),
    * and its bottom-right corner (1, 0) is (res_x, res_y), one past the last
    * column and row.
    */
  lemma FrameCorners(resX: int, resY: int)
    ensures ToPixel(0.0, 1.0, resX, resY) == Pixel(0, 0)
    ensures ToPixel(1.0, 0.0, resX, resY) == Pixel(resX, resY)
  {
  }

  /** A scaled coordinate at or beyond 1 truncates to at least the resolution. */
  lemma ScaledAbove(n: real, res: int)
    requires n >= 1.0 && res >= 1
    ensures Trunc(n * res as real) >= res
  {
    var r := res as real;
    assert (n - 1.0) * r >= 0.0;
  }

  /** A scaled coordinate at or below -1 truncates to at most minus the resolution. */
  lemma ScaledBelow(n: real, res: int)
    requires n <= -1.0 && res >= 1
    ensures Trunc(n * res as real) <= -res
  {
    var r := res as real;
    assert (n + 1.0) * r <= 0.0;
  }

  /**
    * Exactly which columns land inside the image: the scaled coordinate must lie
    * strictly between -1 and res_x, because truncation folds (-1, 0) onto column 0.
    * Every other coordinate gives a column outside the image, unclamped.
    */
  lemma ColumnInImage(nx: real, resX: int)
    requires resX >= 1
    ensures 0 <= Column(nx, resX) < resX <==> -1.0 < nx * resX as real < resX as real
  {
    TruncInRange(nx * resX as real, resX);
  }

  /** Exactly which rows land inside the image: the flipped, scaled coordinate lies strictly between -1 and res_y. */
  lemma RowInImage(ny: real, resY: int)
    requires resY >= 1
    ensures 0 <= RowOf(ny, resY) < resY <==> -1.0 < (1.0 - ny) * resY as real < resY as real
  {
    TruncInRange((1.0 - ny) * resY as real, resY);
  }

  /** Truncation lands in [0, res) exactly for arguments strictly between -1 and res. */
  lemma TruncInRange(r: real, res: int)
    requires res >= 1
    ensures 0 <= Trunc(r) < res <==> -1.0 < r < res as real
  {
  }

  /** Coordinates a full frame or more off the frame are not clamped into the image. */
  lemma NoClamping(nx: real, ny: real, resX: int, resY: int)
    requires resX >= 1 && resY >= 1
    ensures nx >= 1.0 ==> ToPixel(nx, ny, resX, resY).x >= resX
    ensures nx <= -1.0 ==> ToPixel(nx, ny, resX, resY).x <= -resX
    ensures ny <= 0.0 ==> ToPixel(nx, ny, resX, resY).y >= resY
    ensures ny >= 2.0 ==> ToPixel(nx, ny, resX, resY).y <= -resY
  {
    if nx >= 1.0 { ScaledAbove(nx, resX); }
    if nx <= -1.0 { ScaledBelow(nx, resX); }
    if ny <= 0.0 { ScaledAbove(1.0 - ny, resY); }
    if ny >= 2.0 { ScaledBelow(1.0 - ny, resY); }
  }

  /** Between -1 and 0, truncation gives 0 where flooring gives -1. */
  lemma TruncOfSmallNegative(r: real)
    requires -1.0 < r < 0.0
    ensures Trunc(r) == 0 && r.Floor == -1
  {
  }

  /** A column less than one pixel left of the frame truncates to 0, not -1. */
  lemma ColumnTowardZero(nx: real, resX: int)
    requires -1.0 < nx * resX as real < 0.0
    ensures Column(nx, resX) == 0 && (nx * resX as real).Floor == -1
  {
    TruncOfSmallNegative(nx * resX as real);
  }

  /** A row less than one pixel above the frame truncates to 0, not -1. */
  lemma RowTowardZero(ny: real, resY: int)
    requires -1.0 < (1.0 - ny) * resY as real < 0.0
    ensures RowOf(ny, resY) == 0 && ((1.0 - ny) * resY as real).Floor == -1
  {
    TruncOfSmallNegative((1.0 - ny) * resY as real);
  }

  /**
    * Truncation, not flooring: a point less than one pixel left of the frame
    * lands on column 0, where flooring would give column -1; likewise a point
    * less than one pixel above the frame lands on row 0.
    */
  lemma TowardZeroFoldsOntoEdge(nx: real, ny: real, resX: int, resY: int)
    requires -1.0 < nx * resX as real < 0.0
    requires -1.0 < (1.0 - ny) * resY as real < 0.0
    ensures ToPixel(nx, ny, resX, resY) == Pixel(0, 0)
    ensures (nx * resX as real).Floor == -1 && ((1.0 - ny) * resY as real).Floor == -1
  {
    ColumnTowardZero(nx, resX);
    RowTowardZero(ny, resY);
  }

  /** The centre of a 1024 x 1024 frame is pixel (512, 512). */
  lemma CentreOfSquareFrame()
    ensures ToPixel(0.5, 0.5, 1024, 1024) == Pixel(512, 512)
  {
  }
}
