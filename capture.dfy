/**
 * The video capture a worker reads frames from (`cv2.VideoCapture`). Opening the
 * device or file and decoding frames are outside the model: what the capture turns
 * out to deliver is given when it is created, as whether it opened and the results
 * its successive reads return (`None` for a failed read).
 */
module Capture {
  import opened Wrappers
  import opened Vision

  class VideoCapture {
    /** What the capture was opened on. */
    const source: Source
    /** `isOpened()`: true once opened successfully, false after `release()`. */
    var isOpen: bool
    /** The results the next reads return, in order; reading past the end fails. */
    var pending: seq<Option<Frame>>
    /** How many times `read()` was called. */
    var readCount: nat
    /** How many times `release()` was called. */
    var releaseCount: nat

    /** `cv2.VideoCapture(source)`. */
    constructor (source: Source, opens: bool, feed: seq<Option<Frame>>)
      ensures this.source == source && isOpen == opens && pending == feed
      ensures readCount == 0 && releaseCount == 0
    {
      this.source := source;
      isOpen := opens;
      pending := feed;
      readCount := 0;
      releaseCount := 0;
    }

    /**
     * `read()`: the next result when the capture is open and has one, a failed read
     * otherwise; `ok` says whether a frame came back.
     */
    method Read() returns (ok: bool, frame: Option<Frame>)
      modifies this`pending, this`readCount
      ensures readCount == old(readCount) + 1
      ensures ok == frame.Some?
      ensures if isOpen && old(pending) != [] then frame == old(pending)[0] && pending == old(pending)[1..]
              else frame == None && pending == old(pending)
    {
      readCount := readCount + 1;
      if isOpen && pending != [] {
        frame := pending[0];
        pending := pending[1..];
      } else {
        frame := None;
      }
      ok := frame.Some?;
    }

    /** `release()`: closes the capture. */
    method Release()
      modifies this`isOpen, this`releaseCount
      ensures !isOpen && releaseCount == old(releaseCount) + 1
    {
      isOpen := false;
      releaseCount := releaseCount + 1;
    }
  }
}
