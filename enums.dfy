/** The enumerations the widgets share (guinea/enums.py and the copies of them
    in pygame_widgets/align.py and the text modules), and opaque fills. */
module Enums {

  datatype VAlignment = Top | Bottom | Center

  datatype HAlignment = Left | Right | Center

  /** A window border; no border rectangle is ever built for `Top`. */
  datatype Side = Left | Right | Top | Bottom

  datatype TextAlign = Left | Right | Center

  datatype TextFit = Fit | Crop

  /** An RGBA colour, kept only to be stored and compared. */
  datatype Color = Color(r: int, g: int, b: int, a: int)

  /** A background or foreground fill: a colour, an image or a shader. Only its
      identity matters to the layout code. */
  datatype Fill = SolidFill(color: Color) | ImageFill(image: nat) | ShaderFill(shader: nat)
}
