# Rice-pest detector: frame statistics and the detection loop

This project models the core of the rice-pest detection window in `app.py`, a PyQt
front end over a YOLO object-detection model, and proves properties of it in Dafny.

The model covers three parts of that file:

- Per-frame statistics (`VideoWorker.extract_stats`), in module `Stats`. The method
  walks the detection boxes of one result. It maps each class index to its name
  through the model's vocabulary and counts boxes per name. It also adds up the
  confidences. Then it returns the record `total_objects` / `class_distribution` /
  `avg_confidence` / `fps`. `ExtractStats` is proved to compute the reference
  function `StatsOf`. The lemmas show what that record means:
  - the total is the number of boxes;
  - the keys are exactly the names that occur, each counted at least once;
  - classes that share a name are merged;
  - the order of the boxes does not matter;
  - the mean confidence is 0 for no boxes and lies within the confidences' bounds otherwise.
- The frame loop (`VideoWorker.run` / `stop`), in modules `Capture` and `Streaming`.
  It runs on one thread. The capture is a class over the sequence of read results
  a device or file delivers. `Run` is proved to publish `Process(ReadPrefix(feed))`:
  - `ReadPrefix` is the frames before the first failed read;
  - `Process` builds one (annotated frame, statistics) pair per frame, in read order.

  A failed read clears `running`, and the capture is then released exactly once.
- The window's dispatch (`YOLODetector.start_detection` / `stop_detection` and the
  small handlers that set its state), in module `App`.

Module `Vision` holds the values exchanged with the model and the device: frames,
boxes, a detection result, and the model as a class vocabulary plus an opaque
inference function. Module `Wrappers` holds `Option` and `Result`.

Behaviour worth noting, which the model keeps as the code has it:

- `start_detection` has no check for a running worker. Called while one exists, it
  creates a new worker and overwrites `self.worker` without stopping the old one.
  Through the window this cannot happen. Starting a worker disables the start
  button, and only `stop_detection`, which drops the worker, enables it again. The
  predicate `App.YOLODetector.StartLocked` states this (a worker exists only while
  start is disabled). Every operation of the window is proved to keep it.
- `fps` is never measured. The worker never assigns `self.fps`, so `getattr`
  always yields 0.
- A failed read ends the stream. There is no skipping of corrupt frames.
- The pesticide table, label map and dosage formula are not part of this file. They
  live in a separate window, 推荐系统.py, which is not part of this model.
- `model.names[cls]` raises a KeyError for a class index missing from the vocabulary.
  The model keeps this as an error (`UnknownClass`). In `run` the exception escapes
  the loop. Nothing is published for that frame, `running` stays set, and the
  capture is never released.
- Before any file was chosen, `self.file_path` does not exist. `start_detection` in
  video mode then raises, after it has already switched the buttons. The model
  keeps this as the outcome `MissingFilePath`.

## Model

| member | source | states |
|---|---|---|
| `Stats.ExtractStats` | app.py:46-61 | The result equals `StatsOf`. It fails exactly when some box's class has no name, and then carries the class of the first such box. On success the total is the number of boxes and `fps` is 0. With no boxes the record is 0 objects, an empty distribution and mean confidence 0. |
| `Stats.SumCounts` | app.py:57 | `sum(counts.values())` is the sum of the map's values, whatever order the keys are visited in. |
| `Stats.DistributionTotal` | app.py:49-57 | The sum of the counts is the number of boxes: each box adds 1 to exactly one count. |
| `Stats.DistributionStep` | app.py:50-52 | Counting one more box raises the count of its class name by 1 (from 0 when new) and leaves every other count unchanged. |
| `Stats.DistributionMeaning` | app.py:50-52 | A name is a key exactly when some box's class carries it. Its count is the number of such boxes and is at least 1. |
| `Stats.CountNamePositive` | app.py:50-52 | A name's count is positive exactly when the name occurs among the boxes' classes. |
| `Stats.CountNamePermutation` | app.py:49-52 | Boxes in any order give the same count for every name. |
| `Stats.DistributionPermutation` | app.py:49-52 | Any permutation of the boxes gives the same `class_distribution`. |
| `Stats.StatsPermutation` | app.py:49-57 | A permutation of the boxes raises exactly when the original does. Otherwise it gives the same total and the same distribution. |
| `Stats.MeanWithin` | app.py:53-55 | For a nonempty frame whose confidences all lie in [lo, hi], the mean confidence lies in [lo, hi]. |
| `Stats.FirstUnnamed` | app.py:49-51 | The index where the loop raises: the first box whose class has no name, with all earlier boxes named. |
| `Stats.FirstUnnamedAt` | app.py:49-51 | A box without a name that follows only named boxes is where the loop raises. |
| `Stats.ThreeBoxFrame` | app.py:46-61 | A frame with two boxes of one class and one of another gives 3 objects, counts 2 and 1 under their names, the mean confidence and `fps` 0. |
| `Stats.SharedNameMerged` | app.py:50-52 | Two class indices with the same name give one entry holding both boxes. |
| `Capture.VideoCapture.constructor` | app.py:28 | A new capture is open exactly when its device or file opened, has all its reads pending, and has not been read or released. |
| `Capture.VideoCapture.Read` | app.py:30 | A read on an open capture with a result pending consumes and returns that result. Any other read fails and consumes nothing. The read count goes up by one. |
| `Capture.VideoCapture.Release` | app.py:40 | Releasing closes the capture and is counted. |
| `Streaming.ReadPrefixMeaning` | app.py:29-33 | The frames the loop consumes are the successful reads at the head of the feed, and the read after them, if any, failed. |
| `Streaming.ReadPrefixExtends` | app.py:29-33 | Successful reads at the head of the feed are the head of the consumed frames. |
| `Streaming.ReadPrefixUnique` | app.py:29-33 | Successful reads followed by a failed read, or by the end of the feed, are exactly the consumed frames. |
| `Streaming.ProcessMeaning` | app.py:29-38 | The loop publishes one pair per frame, in read order, each built from that frame by the model and the statistics. It stops at and publishes nothing for the first frame whose statistics raise, and otherwise covers every frame. |
| `Streaming.ProcessRaisedFinal` | app.py:35-38 | Once a frame's statistics have raised, later frames change nothing. |
| `Streaming.ProcessSnoc` | app.py:34-38 | A frame whose statistics succeed appends its pair to what was published so far, and the loop keeps going. |
| `Streaming.ProcessStopsAt` | app.py:29-37 | When the frame read right after some successful reads raises in its statistics, the whole run publishes one pair per earlier frame and ends with that error. |
| `Streaming.VideoWorker.constructor` | app.py:19-25 | A new worker keeps its model, source and threshold. It is running, has no capture and has published nothing. |
| `Streaming.VideoWorker.Run` | app.py:27-40 | The published pairs are `Process` of the frames before the first failed read. There are none if the capture did not open or the worker was already stopped. Normally a failed read clears `running` after one read more than the frames processed, and the capture is released exactly once. When a frame's statistics raise, `run` ends with that error, `running` stays set and the capture is not released. |
| `Streaming.VideoWorker.Stop` | app.py:42-44 | Stopping clears `running`. |
| `App.YOLODetector.constructor` | app.py:64-74 | A new window has no model, no file, camera input, no worker, and both buttons enabled. `StartLocked` holds. |
| `App.YOLODetector.LoadModel` | app.py:313-345 | A successful load installs the model. A cancelled dialog or a failed load leaves the current one. `StartLocked` is kept. |
| `App.YOLODetector.ChooseSource` | app.py:162-166 | Picking a combo entry sets the source type. `StartLocked` is kept. |
| `App.YOLODetector.SelectInputFile` | app.py:347-356 | In video or image mode the chosen path becomes the file path. In camera mode the file path is left alone. `StartLocked` is kept. |
| `App.YOLODetector.ProcessSingleImage` | app.py:378-387 | Without a file path, or with one that does not exist, there is only a warning. Otherwise the result is the model's annotation of that image at threshold 0.3. |
| `App.YOLODetector.StartDetection` | app.py:358-376 | Without a model nothing happens. In image mode it takes the single-image path and creates no worker. It warns exactly when there is no file path or the file does not exist, and otherwise it shows the model's annotation of that image at threshold 0.3. In the other modes start is disabled and stop enabled. A fresh running worker is created on camera 0 in camera mode, or on the chosen file in other modes, at threshold 0.3. In video mode with no file chosen it raises and creates no worker. A worker is created exactly in those cases. It keeps `StartLocked`: a worker exists only while start is disabled. |
| `App.YOLODetector.StopDetection` | app.py:410-416 | With a worker, it stops that worker (its capture and published pairs unchanged) and drops it. Without one, the worker stays absent. Either way start is enabled and stop disabled, so `StartLocked` holds afterwards. |
| `App.YOLODetector.Close` | app.py:474-477 | Closing the window stops the current worker, if any, and keeps it. `StartLocked` is kept. |

## Left out

- Widget construction, stylesheets, themes, the status bar text, message boxes and
  the rendering of the statistics text (`update_stats`): presentation only.
- The order of `class_distribution`: a Python dict keeps its keys in first-seen
  order, and a Dafny `map` has no order. That order shows only in the listing
  `update_stats` renders (app.py:406), so the model loses it.
- File dialogs, `os.path.exists`, `os.makedirs`, `cv2.imread`, `cv2.imwrite`, and
  `save_result`, which also depends on a `last_image` that is never assigned. They
  are file I/O. The model passes the dialog's answer and the image files on disk as
  parameters.
- YOLO model loading and inference internals. The model is a class vocabulary plus
  an opaque total inference function, so an inference that raises is not modelled.
- OpenCV capture, decoding and colour conversion, and building the QImage. They are
  device and library I/O. What a capture delivers is a parameter of `Run`. A file
  that exists but does not decode is not modelled.
- Threads, signals and their delivery to the window, `QThread.start()` and the
  `wait()` inside `stop()`. This is concurrency. The loop runs when `Run` is called,
  and `stop()` only clears the flag, so a stop that takes effect mid-stream is not
  modelled.
- Stats.MeanWithin: confidences are exact reals, so floating-point rounding of the
  sum and the mean, and the `:.2f` display format, are not modelled.
- Stats.StatsPermutation: it says nothing of the mean confidence, because the
  source's floating-point sum is not exactly order-independent.
- The model-file path label (`model_path`) and the buttons' enabled state outside
  start and stop: display only.
