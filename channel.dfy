/** The sensor channels the camera controller can capture. */
module Channels {
  /** Color, infrared and depth: the three frame sources a capture can want. */
  datatype Channel = Color | Infrared | Depth
}
