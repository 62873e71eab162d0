/**
 * The detector window's control state (`YOLODetector`): the loaded model, the chosen
 * input source and file, the current video worker, and whether the start and stop
 * buttons are enabled. `StartDetection` dispatches on the source type, `StopDetection`
 * stops and drops the worker. Dialogs, messages, the status text and the display
 * are outside the model.
 */
module App {
  import opened Wrappers
  import opened Vision
  import opened Streaming

  /** The entries of the input-source combo box, by index. */
  const CameraInput: nat := 0
  const VideoInput: nat := 1
  const ImageInput: nat := 2

  /** The camera device a camera worker opens. */
  const DefaultCamera: nat := 0

  /** The confidence threshold of every detection the window starts. */
  const DetectionThreshold: real := 0.3

  /** What a press of the start button leads to. */
  datatype StartOutcome =
    | NoModel                          // no model loaded: a warning, nothing starts
    | InvalidImage                     // image mode without an existing image file: a warning
    | ImageDetected(annotated: Frame)  // image mode: the annotated image is shown
    | MissingFilePath                  // video mode before any file was chosen: `self.file_path` raises
    | WorkerCreated                    // a video worker was created on the camera or the file

  class YOLODetector {
    /** `self.model`: absent until a model loads. */
    var model: Option<Model>
    /** `self.file_path`: the attribute does not exist until a file is chosen. */
    var filePath: Option<string>
    /** The current index of the input-source combo box. */
    var sourceType: nat
    /** `self.worker`. */
    var worker: VideoWorker?
    /** Whether the start and stop buttons are enabled. */
    var startEnabled: bool
    var stopEnabled: bool

    /**
     * While a worker exists the start button is disabled: only `stop_detection`, which
     * drops the worker, enables it again. So through the window a second start never
     * meets a live worker.
     */
    predicate StartLocked()
      reads this
    {
      worker != null ==> !startEnabled
    }

    /** `YOLODetector()`: no model, no file, camera input, no worker, both buttons enabled. */
    constructor ()
      ensures model == None && filePath == None && sourceType == CameraInput && worker == null
      ensures startEnabled && stopEnabled
      ensures StartLocked()
    {
      model := None;
      filePath := None;
      sourceType := CameraInput;
      worker := null;
      startEnabled := true;
      stopEnabled := true;
    }

    /**
     * `load_model`: `loaded` is what the file dialog and the model loader produced; a
     * cancelled dialog or a failed load (None) leaves the current model in place.
     */
    method LoadModel(loaded: Option<Model>)
      modifies this`model
      ensures loaded.Some? ==> model == loaded
      ensures loaded.None? ==> model == old(model)
      ensures old(StartLocked()) ==> StartLocked()
    {
      if loaded.Some? {
        model := loaded;
      }
    }

    /** Picking an entry of the input-source combo box. */
    method ChooseSource(index: nat)
      requires index <= ImageInput
      modifies this`sourceType
      ensures sourceType == index
      ensures old(StartLocked()) ==> StartLocked()
    {
      sourceType := index;
    }

    /**
     * `select_input_file`: in video or image mode the dialog's answer becomes the file
     * path (a cancelled dialog answers the empty path); in camera mode nothing happens.
     */
    method SelectInputFile(chosen: string)
      modifies this`filePath
      ensures sourceType == VideoInput || sourceType == ImageInput ==> filePath == Some(chosen)
      ensures sourceType != VideoInput && sourceType != ImageInput ==> filePath == old(filePath)
      ensures old(StartLocked()) ==> StartLocked()
    {
      if sourceType == VideoInput || sourceType == ImageInput {
        filePath := Some(chosen);
      }
    }

    /**
     * `process_single_image`: `images` stands for the image files on disk. Without a file
     * path or with a path that does not exist it only warns; otherwise it runs the model
     * once on the image, at threshold 0.3, and shows the annotated result. Its statistics
     * are not shown, since the result it passes on is not a statistics record.
     */
    method ProcessSingleImage(images: map<string, Frame>) returns (outcome: StartOutcome)
      requires model.Some?
      ensures outcome.InvalidImage? <==> filePath.None? || filePath.value !in images
      ensures outcome.InvalidImage? || outcome.ImageDetected?
      ensures outcome.ImageDetected? ==>
        outcome.annotated == model.value.infer(images[filePath.value], DetectionThreshold).plotted
    {
      if filePath.None? || filePath.value !in images {
        return InvalidImage;
      }
      var img := images[filePath.value];
      var result := model.value.infer(img, DetectionThreshold);
      outcome := ImageDetected(result.plotted);
    }

    /**
     * `start_detection`. Without a model nothing starts. In image mode it takes the
     * single-image path and creates no worker. Otherwise it disables start, enables stop
     * and creates a worker on camera 0 in camera mode and on the chosen file in any other
     * mode, at threshold 0.3, replacing any previous worker; in video mode before any
     * file was chosen, reading the file path raises after the buttons were switched.
     */
    method StartDetection(images: map<string, Frame>) returns (outcome: StartOutcome)
      modifies this`worker, this`startEnabled, this`stopEnabled
      ensures outcome.NoModel? <==> model.None?
      ensures outcome == WorkerCreated <==>
        model.Some? && (sourceType == CameraInput || (sourceType != ImageInput && filePath.Some?))
      ensures model.Some? && sourceType == ImageInput ==> outcome.InvalidImage? || outcome.ImageDetected?
      ensures model.Some? && sourceType == ImageInput ==>
        (outcome.InvalidImage? <==> filePath.None? || filePath.value !in images)
      ensures model.Some? && sourceType == ImageInput && outcome.ImageDetected? ==>
        outcome.annotated == model.value.infer(images[filePath.value], DetectionThreshold).plotted
      ensures model.Some? && sourceType != CameraInput && sourceType != ImageInput && filePath.None? ==>
        outcome == MissingFilePath
      ensures model.Some? && sourceType != ImageInput ==> !startEnabled && stopEnabled
      ensures model.None? || sourceType == ImageInput ==>
        startEnabled == old(startEnabled) && stopEnabled == old(stopEnabled)
      ensures outcome != WorkerCreated ==> worker == old(worker)
      ensures outcome == WorkerCreated ==>
        && worker != null && fresh(worker)
        && worker.model == model.value
        && worker.videoSource == (if sourceType == CameraInput then Camera(DefaultCamera) else VideoFile(filePath.value))
        && worker.confThreshold == DetectionThreshold
        && worker.running && worker.cap == null && worker.published == []
      ensures old(StartLocked()) ==> StartLocked()
    {
      if model.None? {
        return NoModel;
      }
      if sourceType == ImageInput {
        outcome := ProcessSingleImage(images);
        return;
      }
      startEnabled := false;
      stopEnabled := true;
      var videoSource;
      if sourceType == CameraInput {
        videoSource := Camera(DefaultCamera);
      } else if filePath.None? {
        return MissingFilePath;
      } else {
        videoSource := VideoFile(filePath.value);
      }
      worker := new VideoWorker(model.value, videoSource, DetectionThreshold);
      outcome := WorkerCreated;
    }

    /**
     * `stop_detection`: with a worker, stops it and drops it; without one, leaves the
     * worker state alone. Either way start is enabled and stop disabled.
     */
    method StopDetection()
      modifies this`worker, this`startEnabled, this`stopEnabled, worker
      ensures worker == null && startEnabled && !stopEnabled
      ensures old(worker) != null ==> !old(worker).running
      ensures old(worker) != null ==> unchanged(old(worker)`cap, old(worker)`published)
      ensures StartLocked()
    {
      if worker != null {
        worker.Stop();
        worker := null;
      }
      startEnabled := true;
      stopEnabled := false;
    }

    /** `closeEvent`: stops the worker, if any, and keeps it. */
    method Close()
      modifies worker
      ensures worker != null ==> !worker.running && unchanged(worker`cap, worker`published)
      ensures old(StartLocked()) ==> StartLocked()
    {
      if worker != null {
        worker.Stop();
      }
    }
  }
}
