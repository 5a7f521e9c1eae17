/** An optional value: a lookup or search that may find nothing. */
module Wrappers {
  datatype Option<+T> = None | Some(value: T)
}

/** Viewport geometry shared by the components. */
module Geometry {
  /** The vertical extent of an element's bounding client rectangle, in CSS pixels
      relative to the top of the viewport. */
  datatype Rect = Rect(top: int, bottom: int)
}
