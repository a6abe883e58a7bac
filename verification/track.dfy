/**
 * The bounded frame channel of client/x2webrtc/track.py.
 *
 * `ScreenCaptureTrack` sits between the capture thread, which pushes frames
 * with `PutFrame`, and the media transport, which pulls one frame per tick with
 * `Recv`. The queue is bounded; a push onto a full queue is dropped and backs
 * the producer off. A pull from an empty queue repeats the frame delivered
 * last, which starts out as a blank frame. Every delivered frame is stamped
 * with a presentation timestamp in milliseconds since the first pull.
 * Clock readings are parameters; sleeps are returned as durations.
 */
module Track {
  import opened Wrappers
  import T = Timer

  /** `VIDEO_TIME_BASE`: presentation timestamps count milliseconds. */
  const VIDEO_TIME_BASE: real := 1.0 / 1000.0
  /** How long the producer sleeps after a push onto a full queue. */
  const OVERFLOW_BACKOFF_SEC: real := 0.1
  const DEFAULT_FPS: int := 30
  const DEFAULT_MAX_BUF_SEC: real := 1.0
  const INITIAL_FRAME_WIDTH: nat := 640
  const INITIAL_FRAME_HEIGHT: nat := 480

  /** Python's `int(x)` on a number: truncation toward zero. */
  function Trunc(x: real): (n: int)
    ensures x >= 0.0 ==> n >= 0 && n as real <= x < n as real + 1.0
    ensures x < 0.0 ==> n <= 0 && n as real - 1.0 < x <= n as real
  {
    if x >= 0.0 then x.Floor else -((-x).Floor)
  }

  /**
   * The `maxsize` handed to `queue.Queue`: `int(fps * max_buf_sec)`. A value
   * of zero or less makes the queue unbounded.
   */
  function QueueCapacity(fps: int, maxBufSec: real): (c: int)
    ensures fps as real * maxBufSec >= 0.0 ==> 0 <= c && c as real <= fps as real * maxBufSec < c as real + 1.0
    ensures fps as real * maxBufSec < 1.0 ==> c <= 0
  {
    Trunc(fps as real * maxBufSec)
  }

  /** The timestamp stamped on a frame delivered at `now`, for a session started at `start`. */
  function Pts(start: real, now: real): (p: int)
    ensures start <= now ==> 0 <= p && p as real <= (now - start) * 1000.0 < p as real + 1.0
    ensures now < start ==> p <= 0
  {
    Trunc((now - start) / VIDEO_TIME_BASE)
  }

  /** What an image holds: all zeros, or the pixels of one capture. */
  datatype Content = Zeros | Captured(id: nat)

  /** An RGB24 `numpy` array of shape (rows, cols, 3). */
  datatype NdArray = NdArray(rows: nat, cols: nat, content: Content)

  /**
   * The array `_create_initial_frame` builds as written:
   * `numpy.zeros((width, height, 3))` has `width` rows and `height` columns.
   */
  function InitialArrayAsWritten(width: nat, height: nat): (a: NdArray)
    ensures a.content == Zeros
    ensures a.rows == width && a.cols == height
  {
    NdArray(width, height, Zeros)
  }

  /** The blank array the initial frame is meant to hold: `height` rows of `width` pixels. */
  function InitialArray(width: nat, height: nat): (a: NdArray)
    ensures a.content == Zeros
    ensures FrameWidth(a) == width && FrameHeight(a) == height
  {
    NdArray(height, width, Zeros)
  }

  /** `VideoFrame.from_ndarray` reads an array of shape (height, width, 3). */
  function FrameWidth(a: NdArray): nat { a.cols }
  function FrameHeight(a: NdArray): nat { a.rows }

  /** As written, the default "640x480" blank frame comes out 480 wide and 640 high. */
  lemma InitialFrameAsWrittenIsTransposed()
    ensures FrameWidth(InitialArrayAsWritten(INITIAL_FRAME_WIDTH, INITIAL_FRAME_HEIGHT)) == 480
    ensures FrameHeight(InitialArrayAsWritten(INITIAL_FRAME_WIDTH, INITIAL_FRAME_HEIGHT)) == 640
  {
  }

  /** A video frame: immutable pixels, a mutable timestamp and time base. */
  class VideoFrame {
    const width: nat
    const height: nat
    const content: Content
    var pts: Option<int>
    var timeBase: Option<real>

    constructor FromNdArray(img: NdArray)
      ensures width == FrameWidth(img) && height == FrameHeight(img) && content == img.content
      ensures pts == None && timeBase == None
    {
      width, height, content := FrameWidth(img), FrameHeight(img), img.content;
      pts, timeBase := None, None;
    }
  }

  /**
   * `_create_initial_frame`: a blank frame built from the array as written
   * (`asWritten`, which comes out `height` wide and `width` high) or from the
   * intended array (`width` wide and `height` high).
   */
  method CreateInitialFrame(width: nat, height: nat, asWritten: bool) returns (f: VideoFrame)
    ensures fresh(f)
    ensures asWritten ==> f.width == height && f.height == width
    ensures !asWritten ==> f.width == width && f.height == height
    ensures f.content == Zeros && f.pts == None && f.timeBase == None
  {
    var img := if asWritten then InitialArrayAsWritten(width, height) else InitialArray(width, height);
    f := new VideoFrame.FromNdArray(img);
  }

  /** The track's `readyState`, owned by the media-stream base class. */
  datatype ReadyState = Live | Ended

  class ScreenCaptureTrack {
    const fps: int
    const capacity: int
    var queue: seq<VideoFrame>
    var lastFrame: VideoFrame
    const senderTimer: T.Timer
    const receiverTimer: T.Timer
    var start: Option<real>
    var active: bool
    var readyState: ReadyState

    /**
     * The two timers are distinct and valid; a bounded queue never exceeds its
     * capacity; every queued frame is a separate object, none of them the last
     * delivered frame.
     */
    ghost predicate Valid()
      reads this, senderTimer, receiverTimer
    {
      senderTimer != receiverTimer &&
      senderTimer.Valid() && receiverTimer.Valid() &&
      (capacity > 0 ==> |queue| <= capacity) &&
      lastFrame !in queue &&
      (forall i, j :: 0 <= i < j < |queue| ==> queue[i] != queue[j])
    }

    /** `queue.Queue.full()`: only a bounded queue is ever full. */
    predicate IsFull()
      reads this
    {
      0 < capacity <= |queue|
    }

    constructor (fps: int, maxBufSec: real)
      requires fps > 0
      ensures Valid()
      ensures fresh(senderTimer) && fresh(receiverTimer) && fresh(lastFrame)
      ensures this.fps == fps && capacity == QueueCapacity(fps, maxBufSec)
      ensures queue == [] && start == None && !active && readyState == Live
      ensures lastFrame.content == Zeros && lastFrame.pts == None
      ensures lastFrame.width == INITIAL_FRAME_WIDTH && lastFrame.height == INITIAL_FRAME_HEIGHT
      ensures senderTimer.last == None && senderTimer.duration == 1.0 / fps as real
      ensures receiverTimer.last == None && receiverTimer.duration == 1.0 / fps as real
    {
      this.fps := fps;
      capacity := QueueCapacity(fps, maxBufSec);
      queue := [];
      var initial := CreateInitialFrame(INITIAL_FRAME_WIDTH, INITIAL_FRAME_HEIGHT, false);
      lastFrame := initial;
      senderTimer := new T.Timer(fps);
      receiverTimer := new T.Timer(fps);
      start := None;
      active := false;
      readyState := Live;
    }

    /** The `active` setter. */
    method SetActive(value: bool)
      modifies this`active
      ensures active == value
    {
      active := value;
    }

    /** The producer's pacing gate: a blocking wait on the sender timer only. */
    method WaitForNextPut(now: real) returns (slept: Option<real>)
      requires Valid()
      modifies senderTimer
      ensures Valid()
      ensures senderTimer.last == Some(T.NextLast(old(senderTimer.last), senderTimer.duration, now))
      ensures var w := T.WaitSec(old(senderTimer.last), senderTimer.duration, now);
              slept == if w > 0.0 then Some(w) else None
    {
      slept := senderTimer.Wait(now);
    }

    /**
     * Offers one captured image without ever blocking. An inactive or ended
     * track ignores it; a full queue drops it, re-anchors the sender timer at
     * `now` and makes the producer back off; otherwise it joins the back.
     */
    method PutFrame(img: NdArray, now: real) returns (slept: Option<real>)
      requires Valid()
      modifies this`queue, senderTimer
      ensures Valid()
      ensures !active || readyState != Live ==>
        queue == old(queue) && slept == None && senderTimer.last == old(senderTimer.last)
      ensures active && readyState == Live && !old(IsFull()) ==>
        && |queue| == |old(queue)| + 1
        && queue[..|old(queue)|] == old(queue)
        && fresh(queue[|old(queue)|])
        && queue[|old(queue)|].content == img.content
        && queue[|old(queue)|].width == FrameWidth(img)
        && queue[|old(queue)|].height == FrameHeight(img)
        && queue[|old(queue)|].pts == None
        && slept == None && senderTimer.last == old(senderTimer.last)
      ensures active && readyState == Live && old(IsFull()) ==>
        queue == old(queue) && slept == Some(OVERFLOW_BACKOFF_SEC) && senderTimer.last == Some(now)
    {
      if !active || readyState != Live {
        return None;
      }
      var frame := new VideoFrame.FromNdArray(img);
      if IsFull() {
        senderTimer.ResetThrottle(now);
        slept := Some(OVERFLOW_BACKOFF_SEC);
      } else {
        queue := queue + [frame];
        slept := None;
      }
    }

    /**
     * Delivers the next frame: after the receiver timer's suspending wait (at
     * `waitNow`), pops the oldest queued frame and remembers it, or repeats the
     * last one when the queue is empty, and stamps it with the milliseconds
     * elapsed at `now` since the first delivery.
     */
    method Recv(waitNow: real, now: real) returns (frame: VideoFrame, slept: Option<real>)
      requires Valid()
      modifies this`queue, this`lastFrame, this`start, receiverTimer
      modifies if queue == [] then {lastFrame} else {queue[0]}
      ensures Valid()
      ensures receiverTimer.last == Some(T.NextLast(old(receiverTimer.last), receiverTimer.duration, waitNow))
      ensures var w := T.WaitSec(old(receiverTimer.last), receiverTimer.duration, waitNow);
              slept == if w > 0.0 then Some(w) else None
      ensures start == if old(start).None? then Some(now) else old(start)
      ensures old(queue) != [] ==> frame == old(queue)[0] && queue == old(queue)[1..] && lastFrame == frame
      ensures old(queue) == [] ==> frame == old(lastFrame) && queue == [] && lastFrame == old(lastFrame)
      ensures frame.pts == Some(Pts(start.value, now)) && frame.timeBase == Some(VIDEO_TIME_BASE)
      ensures old(queue) != [] ==> unchanged(old(lastFrame))
    {
      slept := receiverTimer.WaitAsync(waitNow);
      if start.None? {
        start := Some(now);
      }
      var diff := now - start.value;
      if queue != [] {
        frame := queue[0];
        queue := queue[1..];
        lastFrame := frame;
      } else {
        frame := lastFrame;
      }
      frame.pts := Some(Trunc(diff / VIDEO_TIME_BASE));
      frame.timeBase := Some(VIDEO_TIME_BASE);
    }
  }

  /**
   * The delivery laws seen from a client: before any push the track delivers
   * the blank initial frame; after one push it delivers that frame, and then
   * keeps repeating it while nothing new is pushed.
   */
  method RepeatLastFrame(img: NdArray, t: real) returns (first: VideoFrame, second: VideoFrame, third: VideoFrame)
    ensures first.content == Zeros
    ensures first.width == INITIAL_FRAME_WIDTH && first.height == INITIAL_FRAME_HEIGHT
    ensures second.content == img.content && third == second
    ensures third.pts == Some(0)
  {
    var track := new ScreenCaptureTrack(DEFAULT_FPS, DEFAULT_MAX_BUF_SEC);
    track.SetActive(true);
    var slept;
    first, slept := track.Recv(t, t);
    assert QueueCapacity(DEFAULT_FPS, DEFAULT_MAX_BUF_SEC) == 30;
    slept := track.PutFrame(img, t);
    second, slept := track.Recv(t, t);
    third, slept := track.Recv(t, t);
  }
}
