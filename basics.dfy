/** Value types shared by every part of the embedded-UI element model. */
module Basics {

  /** The conventional optional value (Rust's `Option`). */
  datatype Option<+T> = None | Some(value: T) {
    /** `unwrap_or`: the carried value, or `default` when there is none. */
    function UnwrapOr(default: T): T {
      match this
      case Some(v) => v
      case None => default
    }
  }

  /** A width and a height in whole pixels (smithay `Size<i32, _>`, logical or buffer space). */
  datatype Size = Size(w: int, h: int)

  /** A location in logical coordinates (smithay `Point<f64, Logical>`). */
  datatype Point = Point(x: real, y: real)

  /** A location in physical pixels (smithay `Point<i32, Physical>`). */
  datatype PhysicalPoint = PhysicalPoint(x: int, y: int)

  /** An output's fractional scale factor. The element keys its buffers by
      `OrderedFloat<f64>`, so two scales are the same key exactly when they are
      equal; nothing else about them matters here. */
  type Scale(==)

  /** Converts a logical size to the buffer size used at a scale
      (`size.to_f64().to_buffer(scale, Transform::Normal).to_i32_round()`).
      It is a rounding step whose floating-point details are not modelled, so it
      is passed around as an uninterpreted function. */
  type DeviceSize = (Size, Scale) -> Size

  /** Both dimensions strictly positive: only then is a buffer rasterized. */
  predicate NonDegenerate(s: Size) {
    s.w > 0 && s.h > 0
  }
}
