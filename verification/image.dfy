/** Frames and rectangles as far as the detection stage sees them. The pixel
    data itself belongs to the image library and is not modelled; `pixels`
    stands for it so that distinct frames stay distinct. */
module Image {

  datatype Frame = Frame(pixels: nat, width: nat, height: nat)

  /** A frame with no pixels; the worker skips such frames. */
  predicate IsEmpty(f: Frame) {
    f.width == 0 || f.height == 0
  }

  /** An image-library rectangle: top-left corner and size. */
  datatype Rect = Rect(x: int, y: int, width: int, height: int)

  /** The rectangle lies wholly inside the frame, as a region of interest must. */
  predicate InsideFrame(r: Rect, f: Frame) {
    0 <= r.x && 0 <= r.y && 0 <= r.width && 0 <= r.height
    && r.x + r.width <= f.width && r.y + r.height <= f.height
  }
}
