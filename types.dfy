/**
 * The fixed configuration of the animator (types.ts) and the values that
 * flow between its components.
 */
module Types {
  /** Native resolution of the drawing buffer, in buffer pixels. */
  const CANVAS_WIDTH: int := 120
  const CANVAS_HEIGHT: int := 120
  /** Radius of every stamped dot, in buffer pixels. */
  const DOT_RADIUS: int := 2
  /** Number of frames of the animation, fixed for the session. */
  const TOTAL_FRAMES: int := 4
  /** Display pixels per buffer pixel (120 * 3 = 360 display pixels). */
  const SCALE_FACTOR: int := 3
  /** The fill colour of every stamp. */
  const WHITE: string := "#FFFFFF"

  /** One filled circle stamped onto the buffer: centre, radius and colour. */
  datatype Dot = Dot(x: int, y: int, radius: int, fill: string)

  /**
   * A frame. In the program a frame is an encoded image (a PNG data URL);
   * here it is the image that URL encodes: the black background with the
   * given dots painted onto it in order. Every frame of the program is
   * either the blank frame or a lossless snapshot of the drawing buffer,
   * so this describes every frame the program can hold.
   */
  datatype Frame = Frame(dots: seq<Dot>)

  /** The blank frame: background only. */
  const BLANK: Frame := Frame([])
}
