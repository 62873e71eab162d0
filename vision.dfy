/**
 * The values exchanged with the object-detection model and the video device.
 * The model itself is opaque: it is a class vocabulary and an inference function.
 */
module Vision {

  /** A decoded raster image, as the capture device or the image file delivers it. */
  datatype Frame = Frame(pixels: seq<bv8>)

  /** One detection box of a result: the class index (`int(box.cls)`) and its confidence. */
  datatype Box = Box(cls: nat, conf: real)

  /** What one call of the model yields for an image: its boxes and the annotated rendering (`plot()`). */
  datatype Detection = Detection(boxes: seq<Box>, plotted: Frame)

  /**
   * A loaded detection model: its class vocabulary (`model.names`) and its inference
   * function, applied to an image with a confidence threshold.
   */
  datatype Model = Model(names: map<nat, string>, infer: (Frame, real) -> Detection)

  /** What a video capture is opened on: a camera device index or a video file path. */
  datatype Source = Camera(index: nat) | VideoFile(path: string)
}
