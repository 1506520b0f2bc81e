/**
 * The values the engine hands to the classifier: touches as Unity reports them
 * and the screen size in pixels.
 */
module Engine {
  import opened Geometry

  datatype TouchPhase = Began | Moved | Stationary | Ended | Canceled

  /** One entry of Input.touches: finger id, position, movement and time since the last frame, phase. */
  datatype Touch = Touch(fingerId: int, position: Vec2, deltaPosition: Vec2, deltaTime: real, phase: TouchPhase)

  /** Screen.width and Screen.height; the engine reports a positive size. */
  datatype Screen = Screen(width: int, height: int) {
    predicate Valid() { width > 0 && height > 0 }
  }
}
