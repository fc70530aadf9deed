/** The parts of the Android platform and of the player library that the
    PiP decision layer reads: SDK levels, 64-bit arithmetic, rectangles,
    aspect ratios and video sizes, all as plain values. */
module Platform {

  /** `Build.VERSION_CODES.O`: the first level with picture-in-picture parameters. */
  const VERSION_O: int := 26
  /** `Build.VERSION_CODES.S`: the first level with declarative auto-enter. */
  const VERSION_S: int := 31

  const LONG_MIN: int := -0x8000_0000_0000_0000
  const LONG_MAX: int := 0x7FFF_FFFF_FFFF_FFFF
  const LONG_MODULUS: int := 0x1_0000_0000_0000_0000

  /** Kotlin's `Long`. */
  type Long = x: int | LONG_MIN <= x <= LONG_MAX

  /** Two's-complement wrap-around of a 64-bit signed addition or subtraction. */
  function WrapLong(x: int): (r: Long)
    ensures LONG_MIN <= x <= LONG_MAX ==> r == x
    ensures LONG_MIN - LONG_MODULUS <= x < LONG_MIN ==> r == x + LONG_MODULUS
    ensures LONG_MAX < x <= LONG_MAX + LONG_MODULUS ==> r == x - LONG_MODULUS
  {
    (x - LONG_MIN) % LONG_MODULUS + LONG_MIN
  }

  /** An integer-pixel rectangle in window coordinates (`android.graphics.Rect`). */
  datatype Rect = Rect(left: int, top: int, right: int, bottom: int)

  /** `Rect()`: the rectangle a fresh `Rect` holds before anything is stored in it. */
  const EMPTY_RECT: Rect := Rect(0, 0, 0, 0)

  /** An aspect ratio as the pair handed to `Rational(width, height)`. */
  datatype Ratio = Ratio(numerator: int, denominator: int)

  /** The natural size of the content the player reports. */
  datatype VideoSize = VideoSize(width: int, height: int)

  /** `VideoSize.UNKNOWN`: the size reported before the first frame is decoded. */
  const UNKNOWN_VIDEO_SIZE: VideoSize := VideoSize(0, 0)

  /** The two facts about the player that the PiP strategies read when they fire. */
  datatype PlayerSnapshot = PlayerSnapshot(isPlaying: bool, videoSize: VideoSize)

  predicate SizeKnown(size: VideoSize)
  {
    size != UNKNOWN_VIDEO_SIZE
  }
}
