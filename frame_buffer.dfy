/**
  The pixel buffers (cv::Mat) the per-channel processors allocate, and the
  capacity they pass to the runtime's copy call.
*/
module FrameBuffers {
  import opened Channels

  /** The two cv::Mat element types in use: CV_8UC4 (BGRA bytes) and CV_16U (one 16-bit value). */
  datatype MatType = U8C4 | U16C1

  /** cv::Mat::elemSize: bytes per pixel. */
  function ElemSize(t: MatType): nat
  {
    match t
    case U8C4 => 4
    case U16C1 => 2
  }

  /** cv::Mat::elemSize1: bytes per element of one pixel. */
  function ElemSize1(t: MatType): nat
  {
    match t
    case U8C4 => 1
    case U16C1 => 2
  }

  /** The buffer type each processor allocates: BGRA for color, 16-bit for infrared and depth. */
  function ChannelMatType(ch: Channel): MatType
  {
    if ch == Color then U8C4 else U16C1
  }

  /** A dense rows x cols image of one element type, with no padding. */
  datatype FrameBuffer = FrameBuffer(rows: nat, cols: nat, kind: MatType)
  {
    /** cv::Mat::total. */
    function Total(): nat { rows * cols }

    /** Length of the data block in bytes. */
    function ByteLength(): nat { Total() * ElemSize(kind) }
  }

  /** The buffer a processor allocates for a frame of the given dimensions (cv::Mat img(height, width, type)). */
  function ChannelBuffer(ch: Channel, width: nat, height: nat): (b: FrameBuffer)
    ensures b.rows == height && b.cols == width
    ensures b.ByteLength() == width * height * (if ch == Color then 4 else 2)
  {
    FrameBuffer(height, width, ChannelMatType(ch))
  }

  const UintLimit: nat := 0x1_0000_0000

  /**
    The capacity argument of the copy call: total() * elemSize() / elemSize1()
    of the channel's buffer, cast to a 32-bit UINT. For color it counts bytes
    (four per pixel), for infrared and depth 16-bit elements (one per pixel).
  */
  function CopyCapacity(ch: Channel, width: nat, height: nat): (n: nat)
    ensures n < UintLimit
    ensures ch == Color ==> n == (width * height * 4) % UintLimit
    ensures ch != Color ==> n == (width * height) % UintLimit
  {
    var img := ChannelBuffer(ch, width, height);
    (img.Total() * ElemSize(img.kind) / ElemSize1(img.kind)) % UintLimit
  }

  /**
    When the 32-bit cast does not truncate, the capacity counts exactly the
    buffer: capacity elements of elemSize1 bytes fill its data block.
  */
  lemma CapacityFillsBuffer(ch: Channel, width: nat, height: nat)
    requires ChannelBuffer(ch, width, height).ByteLength() < UintLimit
    ensures CopyCapacity(ch, width, height) * ElemSize1(ChannelMatType(ch))
            == ChannelBuffer(ch, width, height).ByteLength()
  {
    var p := width * height;
    if ch != Color {
      assert p * 2 < UintLimit;
      assert p < UintLimit;
    }
  }
}
