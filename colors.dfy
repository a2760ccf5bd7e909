/** `color.RGBA`, the pixel value every drawing routine writes. */
module Colors {
  import opened GoInt

  datatype RGBA = RGBA(r: uint8, g: uint8, b: uint8, a: uint8)

  /** `color.RGBA{}`, the zero value of a fresh buffer. */
  const Zero := RGBA(0, 0, 0, 0)

  const OpaqueBlack := RGBA(0, 0, 0, 255)
  const Yellow := RGBA(255, 255, 0, 255)
}
