/**
 * The parts of the `image` crate that the capture code hands its results to:
 * pixel types, an owned row-major pixel buffer, `DynamicImage` and
 * `ImageError`.  `Tabulate` stands for `view(0, 0, w, h).to_image()`, which
 * visits every coordinate of a view and stores `get_pixel(x, y)` at row `y`,
 * column `x`.
 */
module Images {
  import opened Wrappers

  datatype Rgba = Rgba(r: bv8, g: bv8, b: bv8, a: bv8)

  datatype Rgb = Rgb(r: bv8, g: bv8, b: bv8)

  /** An owned pixel buffer in row-major order, top row first. */
  datatype Buffer<P> = Buffer(width: nat, height: nat, pixels: seq<P>)
  {
    ghost predicate Valid() {
      |pixels| == width * height
    }

    /** The pixel in column `x` of row `y`. */
    function At(x: nat, y: nat): P
      requires Valid() && x < width && y < height
    {
      RowMajorIndex(x, y, width, height);
      pixels[y * width + x]
    }
  }

  datatype DynamicImage = ImageRgba8(rgba: Buffer<Rgba>) | ImageRgb8(rgb: Buffer<Rgb>)

  /** `std::io::ErrorKind`, restricted to the kinds the capture code produces. */
  datatype ErrorKind = InvalidInput | InvalidData | Other

  /** `ImageError::IoError(io::Error::new(kind, message))`. */
  datatype ImageError = IoError(kind: ErrorKind, message: string)

  type ImageResult = Result<DynamicImage, ImageError>

  /** Row `y` of a `width`-wide image, column by column. */
  function Row<P>(width: nat, y: nat, pixel: (nat, nat) --> P): (row: seq<P>)
    requires forall x: nat :: x < width ==> pixel.requires(x, y)
    ensures |row| == width
    ensures forall x: nat :: x < width ==> row[x] == pixel(x, y)
  {
    seq(width, x requires 0 <= x < width => pixel(x, y))
  }

  /** The buffer `to_image` builds from a `width` x `height` view whose pixels are `pixel(x, y)`. */
  function Tabulate<P>(width: nat, height: nat, pixel: (nat, nat) --> P): (img: Buffer<P>)
    requires forall x: nat, y: nat :: x < width && y < height ==> pixel.requires(x, y)
    ensures img.Valid() && img.width == width && img.height == height
    ensures forall x: nat, y: nat :: x < width && y < height ==> img.At(x, y) == pixel(x, y)
    decreases height
  {
    if height == 0 then Buffer(width, 0, [])
    else
      var above := Tabulate(width, height - 1, pixel);
      var img := Buffer(width, height, above.pixels + Row(width, height - 1, pixel));
      assert img.Valid() by { assert (height - 1) * width + width == height * width; }
      assert forall x: nat, y: nat :: x < width && y < height ==> img.At(x, y) == pixel(x, y) by {
        forall x: nat, y: nat | x < width && y < height
          ensures img.At(x, y) == pixel(x, y)
        {
          if y < height - 1 {
            RowMajorIndex(x, y, width, height - 1);
            assert img.At(x, y) == above.At(x, y);
          } else {
            assert y * width + x == |above.pixels| + x;
          }
        }
      }
      img
  }

  /** Row-major index arithmetic: column `x` of row `y` lies inside a `width` x `height` buffer. */
  lemma RowMajorIndex(x: nat, y: nat, width: nat, height: nat)
    requires x < width && y < height
    ensures y * width + x < width * height
  {
    assert y * width + x < y * width + width == (y + 1) * width <= height * width;
  }
}
