/** The SDL value types the libraries compute with. */
module Sdl {

  /** SDL_Rect: a rectangle's top-left corner and size, in pixels. */
  datatype Rect = Rect(x: int, y: int, w: int, h: int)

  /** SDL_Point. */
  datatype Point = Point(x: int, y: int)

  /**
   * An SDL_Texture as the libraries see it: an identity, and the width and
   * height SDL_QueryTexture reports for it.
   */
  datatype Texture = Texture(handle: int, w: int, h: int)
}
