// The camera screen of components/CameraView.tsx: the stream lifecycle of one mounted
// camera view (acquire, metadata loaded, release), the readiness gate on the shutter,
// and the horizontal mirror applied when a frame is captured.

module CameraView {
  import opened Wrappers

  // ---------------------------------------------------------------------------
  // The capture mirror
  // ---------------------------------------------------------------------------

  /**
   * The device x coordinate of user x coordinate `u` once the canvas context has been
   * translated by (width, 0) and then scaled by (-1, 1).
   */
  function DeviceX(width: int, u: int): int {
    width + (-1) * u
  }

  /** The canvas column that source column `x` covers: the one whose left edge is the image of x + 1. */
  function TargetColumn(width: int, x: int): (c: int)
    ensures c == DeviceX(width, x + 1)
    ensures 0 <= x < width ==> 0 <= c < width
  {
    DeviceX(width, x + 1)
  }

  /** One row drawn through the mirrored context. */
  function MirrorRow<P>(row: seq<P>): (r: seq<P>)
    ensures |r| == |row|
    ensures forall x | 0 <= x < |row| :: r[TargetColumn(|row|, x)] == row[x]
  {
    seq(|row|, c requires 0 <= c < |row| => row[|row| - 1 - c])
  }

  /** A whole frame drawn through the mirrored context: every row mirrored, rows kept in order. */
  function Mirror<P>(frame: seq<seq<P>>): (r: seq<seq<P>>)
    ensures |r| == |frame|
    ensures forall y | 0 <= y < |frame| :: |r[y]| == |frame[y]|
    ensures forall y, x | 0 <= y < |frame| && 0 <= x < |frame[y]| ::
              r[y][TargetColumn(|frame[y]|, x)] == frame[y][x]
  {
    seq(|frame|, y requires 0 <= y < |frame| => MirrorRow(frame[y]))
  }

  /** Mirroring a row twice gives the row back. */
  lemma MirrorRowInvolution<P>(row: seq<P>)
    ensures MirrorRow(MirrorRow(row)) == row
  {
    var m := MirrorRow(row);
    forall x | 0 <= x < |row| ensures MirrorRow(m)[x] == row[x] {
      assert m[|row| - 1 - x] == row[x];
    }
  }

  /** Mirroring a frame twice gives the frame back. */
  lemma MirrorInvolution<P>(frame: seq<seq<P>>)
    ensures Mirror(Mirror(frame)) == frame
  {
    forall y | 0 <= y < |frame| ensures Mirror(Mirror(frame))[y] == frame[y] {
      MirrorRowInvolution(frame[y]);
    }
  }

  /** A frame of `height` rows of `width` pixels each. */
  predicate Rectangular<P>(frame: seq<seq<P>>, width: nat, height: nat) {
    |frame| == height && forall y | 0 <= y < |frame| :: |frame[y]| == width
  }

  // ---------------------------------------------------------------------------
  // The stream lifecycle
  // ---------------------------------------------------------------------------

  /** How the getUserMedia request settles: a stream with some tracks, or a rejection. */
  datatype Acquisition = Granted(trackCount: nat) | Denied

  /** What the video element currently shows. */
  datatype Video<P> = Video(width: nat, height: nat, pixels: seq<seq<P>>)

  /** The default size of a canvas element before anything sets it. */
  const DefaultCanvasWidth: nat := 300
  const DefaultCanvasHeight: nat := 150

  /** Stops every track of a stream. */
  method StopTracks(tracks: array<bool>)
    modifies tracks
    ensures forall i | 0 <= i < tracks.Length :: !tracks[i]
  {
    var i := 0;
    while i < tracks.Length
      invariant 0 <= i <= tracks.Length
      invariant forall k | 0 <= k < i :: !tracks[k]
    {
      tracks[i] := false;
      i := i + 1;
    }
  }

  /**
   * One mounted camera view.  The fields describe the current run of the acquisition effect:
   * `stream` holds its acquired stream (each element is whether that track is live),
   * `acquiring` says its getUserMedia request has not settled, `cleanedUp` that its cleanup has
   * run, `handlerAttached` that the metadata callback is installed on the video element and
   * `metadataLoaded` that the callback has fired.  `mounted` says the video element exists.
   */
  class Camera {
    var isStreamReady: bool
    var stream: array?<bool>
    var acquiring: bool
    var cleanedUp: bool
    var handlerAttached: bool
    var metadataLoaded: bool
    var mounted: bool
    var canvasWidth: nat
    var canvasHeight: nat

    /** The run bookkeeping is consistent. */
    predicate Valid()
      reads this
    {
      && (stream != null ==> !acquiring)
      && (handlerAttached ==> stream != null)
      && (metadataLoaded ==> handlerAttached)
    }

    /** The shutter button is enabled exactly when the stream is marked ready. */
    function ShutterEnabled(): (enabled: bool)
      reads this
      ensures enabled <==> isStreamReady
    {
      isStreamReady
    }

    /** A track of the current stream is still live. */
    predicate HasLiveTrack()
      reads this, stream
    {
      stream != null && exists i | 0 <= i < stream.Length :: stream[i]
    }

    /** The current run has been cleaned up but its stream still holds a live track. */
    predicate Leaking()
      reads this, stream
    {
      cleanedUp && HasLiveTrack()
    }

    /** The readiness flag describes the stream of the current run. */
    predicate ReadyMeansLoaded()
      reads this
    {
      isStreamReady ==> metadataLoaded
    }

    /** Mounting: not ready, nothing acquired yet, the effect's request outstanding, a default canvas. */
    constructor ()
      ensures Valid() && ReadyMeansLoaded()
      ensures !isStreamReady && !ShutterEnabled()
      ensures stream == null && acquiring && !cleanedUp && !handlerAttached && !metadataLoaded
      ensures mounted
      ensures canvasWidth == DefaultCanvasWidth && canvasHeight == DefaultCanvasHeight
    {
      isStreamReady := false;
      stream := null;
      acquiring := true;
      cleanedUp := false;
      handlerAttached := false;
      metadataLoaded := false;
      mounted := true;
      canvasWidth := DefaultCanvasWidth;
      canvasHeight := DefaultCanvasHeight;
    }

    /**
     * The getUserMedia request settles, as written: a granted stream is kept and, if the video
     * element exists, the metadata callback is installed; a rejection reports the error.  Nothing
     * looks at whether the run was cleaned up in the meantime.
     */
    method AcquisitionSettled(outcome: Acquisition) returns (reportedError: bool)
      requires Valid() && acquiring
      modifies this
      ensures Valid()
      ensures !acquiring
      ensures reportedError <==> outcome.Denied?
      ensures outcome.Granted? ==> fresh(stream) && stream.Length == outcome.trackCount
                                   && (forall i | 0 <= i < stream.Length :: stream[i])
      ensures outcome.Denied? ==> stream == old(stream)
      ensures handlerAttached <==> outcome.Granted? && mounted
      ensures !metadataLoaded
      ensures isStreamReady == old(isStreamReady) && cleanedUp == old(cleanedUp) && mounted == old(mounted)
      ensures canvasWidth == old(canvasWidth) && canvasHeight == old(canvasHeight)
    {
      acquiring := false;
      handlerAttached := false;
      metadataLoaded := false;
      match outcome
      case Granted(n) =>
        stream := new bool[n](_ => true);
        if mounted {
          handlerAttached := true;
        }
        reportedError := false;
      case Denied =>
        reportedError := true;
    }

    /**
     * The corrected settle: a stream granted after the run was cleaned up is stopped at once
     * and never attached.
     */
    method AcquisitionSettledChecked(outcome: Acquisition) returns (reportedError: bool)
      requires Valid() && acquiring && ReadyMeansLoaded()
      requires cleanedUp ==> !HasLiveTrack()
      modifies this
      ensures Valid() && ReadyMeansLoaded()
      ensures cleanedUp ==> !HasLiveTrack()
      ensures !acquiring
      ensures reportedError <==> outcome.Denied?
      ensures outcome.Granted? ==> fresh(stream) && stream.Length == outcome.trackCount
      ensures outcome.Granted? && !cleanedUp ==> forall i | 0 <= i < stream.Length :: stream[i]
      ensures outcome.Granted? && cleanedUp ==> forall i | 0 <= i < stream.Length :: !stream[i]
      ensures outcome.Denied? ==> stream == old(stream)
      ensures handlerAttached <==> outcome.Granted? && mounted && !cleanedUp
      ensures !metadataLoaded
      ensures isStreamReady == old(isStreamReady) && cleanedUp == old(cleanedUp) && mounted == old(mounted)
      ensures canvasWidth == old(canvasWidth) && canvasHeight == old(canvasHeight)
    {
      acquiring := false;
      handlerAttached := false;
      metadataLoaded := false;
      match outcome
      case Granted(n) =>
        var s := new bool[n](_ => true);
        if cleanedUp {
          StopTracks(s);
        } else if mounted {
          handlerAttached := true;
        }
        stream := s;
        reportedError := false;
      case Denied =>
        reportedError := true;
    }

    /** The metadata callback: the stream becomes ready. */
    method MetadataLoaded()
      requires Valid() && handlerAttached
      modifies this
      ensures Valid() && ReadyMeansLoaded()
      ensures isStreamReady && ShutterEnabled() && metadataLoaded
      ensures stream == old(stream) && acquiring == old(acquiring) && cleanedUp == old(cleanedUp)
      ensures handlerAttached && mounted == old(mounted)
      ensures canvasWidth == old(canvasWidth) && canvasHeight == old(canvasHeight)
    {
      isStreamReady := true;
      metadataLoaded := true;
    }

    /** The effect cleanup: every track of the acquired stream is stopped, if one was acquired. */
    method Cleanup()
      requires Valid()
      modifies this, stream
      ensures Valid()
      ensures cleanedUp
      ensures stream == old(stream) && !HasLiveTrack()
      ensures isStreamReady == old(isStreamReady) && acquiring == old(acquiring)
      ensures handlerAttached == old(handlerAttached) && metadataLoaded == old(metadataLoaded)
      ensures mounted == old(mounted)
      ensures canvasWidth == old(canvasWidth) && canvasHeight == old(canvasHeight)
    {
      if stream != null {
        StopTracks(stream);
      }
      cleanedUp := true;
    }

    /** Unmounting: the cleanup runs and the video element goes away. */
    method Unmount()
      requires Valid()
      modifies this, stream
      ensures Valid()
      ensures cleanedUp && !mounted
      ensures stream == old(stream) && !HasLiveTrack()
      ensures isStreamReady == old(isStreamReady) && acquiring == old(acquiring)
      ensures handlerAttached == old(handlerAttached) && metadataLoaded == old(metadataLoaded)
      ensures canvasWidth == old(canvasWidth) && canvasHeight == old(canvasHeight)
    {
      Cleanup();
      mounted := false;
    }

    /**
     * The effect runs again (its `onError` dependency changed), as written: the old run is
     * cleaned up and a new request starts, but the readiness flag of the old stream is kept.
     */
    method Rerun()
      requires Valid() && mounted
      modifies this, stream
      ensures Valid()
      ensures stream == null && acquiring && !cleanedUp && !handlerAttached && !metadataLoaded
      ensures old(stream) != null ==> forall i | 0 <= i < old(stream).Length :: !old(stream)[i]
      ensures isStreamReady == old(isStreamReady) && mounted
      ensures canvasWidth == old(canvasWidth) && canvasHeight == old(canvasHeight)
    {
      Cleanup();
      stream := null;
      acquiring := true;
      cleanedUp := false;
      handlerAttached := false;
      metadataLoaded := false;
    }

    /** The corrected re-run: the readiness flag goes back to false with the old stream. */
    method RerunChecked()
      requires Valid() && mounted
      modifies this, stream
      ensures Valid() && ReadyMeansLoaded()
      ensures stream == null && acquiring && !cleanedUp && !handlerAttached && !metadataLoaded
      ensures old(stream) != null ==> forall i | 0 <= i < old(stream).Length :: !old(stream)[i]
      ensures !isStreamReady && !ShutterEnabled() && mounted
      ensures canvasWidth == old(canvasWidth) && canvasHeight == old(canvasHeight)
    {
      Rerun();
      isStreamReady := false;
    }

    /**
     * The shutter's capture: with both the video and the canvas element present, the canvas takes
     * the video's size; with a 2D context the mirrored frame is emitted, once.
     */
    method Capture<P>(video: Option<Video<P>>, canvasPresent: bool, hasContext: bool)
      returns (emitted: Option<seq<seq<P>>>)
      requires video.Some? ==> Rectangular(video.value.pixels, video.value.width, video.value.height)
      modifies this
      ensures emitted.Some? <==> video.Some? && canvasPresent && hasContext
      ensures emitted.Some? ==> emitted.value == Mirror(video.value.pixels)
      ensures emitted.Some? ==> Rectangular(emitted.value, canvasWidth, canvasHeight)
      ensures video.Some? && canvasPresent ==>
                canvasWidth == video.value.width && canvasHeight == video.value.height
      ensures !(video.Some? && canvasPresent) ==>
                canvasWidth == old(canvasWidth) && canvasHeight == old(canvasHeight)
      ensures isStreamReady == old(isStreamReady) && stream == old(stream) && acquiring == old(acquiring)
      ensures cleanedUp == old(cleanedUp) && handlerAttached == old(handlerAttached)
      ensures metadataLoaded == old(metadataLoaded) && mounted == old(mounted)
    {
      emitted := None;
      if video.Some? && canvasPresent {
        canvasWidth := video.value.width;
        canvasHeight := video.value.height;
        if hasContext {
          emitted := Some(Mirror(video.value.pixels));
        }
      }
    }
  }

  /** A press of the shutter button: disabled buttons do not fire. */
  method PressShutter<P>(cam: Camera, video: Option<Video<P>>, canvasPresent: bool, hasContext: bool)
    returns (emitted: Option<seq<seq<P>>>)
    requires video.Some? ==> Rectangular(video.value.pixels, video.value.width, video.value.height)
    modifies cam
    ensures !old(cam.isStreamReady) ==> emitted == None
    ensures old(cam.isStreamReady) ==> (emitted.Some? <==> video.Some? && canvasPresent && hasContext)
    ensures emitted.Some? ==> emitted.value == Mirror(video.value.pixels)
    ensures emitted.Some? ==> Rectangular(emitted.value, cam.canvasWidth, cam.canvasHeight)
    ensures old(cam.isStreamReady) && video.Some? && canvasPresent ==>
              cam.canvasWidth == video.value.width && cam.canvasHeight == video.value.height
    ensures !(old(cam.isStreamReady) && video.Some? && canvasPresent) ==>
              cam.canvasWidth == old(cam.canvasWidth) && cam.canvasHeight == old(cam.canvasHeight)
    ensures cam.isStreamReady == old(cam.isStreamReady) && cam.stream == old(cam.stream)
    ensures cam.acquiring == old(cam.acquiring) && cam.cleanedUp == old(cam.cleanedUp)
    ensures cam.handlerAttached == old(cam.handlerAttached) && cam.metadataLoaded == old(cam.metadataLoaded)
    ensures cam.mounted == old(cam.mounted)
  {
    if cam.ShutterEnabled() {
      emitted := cam.Capture(video, canvasPresent, hasContext);
    } else {
      emitted := None;
    }
  }

  // ---------------------------------------------------------------------------
  // Scenarios
  // ---------------------------------------------------------------------------

  /** A rejected request reports the error and leaves the shutter disabled. */
  method DeniedCameraNeverCaptures<P>(video: Option<Video<P>>) returns (reported: bool, emitted: Option<seq<seq<P>>>)
    requires video.Some? ==> Rectangular(video.value.pixels, video.value.width, video.value.height)
    ensures reported && emitted == None
  {
    var cam := new Camera();
    reported := cam.AcquisitionSettled(Denied);
    emitted := PressShutter(cam, video, true, true);
  }

  /** Granted, metadata loaded: the shutter emits the mirrored frame at the video's size. */
  method ReadyCameraCaptures<P>(frame: seq<seq<P>>, width: nat, height: nat) returns (emitted: Option<seq<seq<P>>>)
    requires Rectangular(frame, width, height)
    ensures emitted == Some(Mirror(frame))
    ensures Mirror(emitted.value) == frame
  {
    var cam := new Camera();
    var _ := cam.AcquisitionSettled(Granted(1));
    cam.MetadataLoaded();
    emitted := PressShutter(cam, Some(Video(width, height, frame)), true, true);
    MirrorInvolution(frame);
  }

  /** As written: unmounting before the request settles leaves a live track that nobody stops. */
  method EarlyUnmountLeaks() returns (leaking: bool)
    ensures leaking
  {
    var cam := new Camera();
    cam.Unmount();
    var _ := cam.AcquisitionSettled(Granted(1));
    assert cam.stream[0];
    leaking := cam.Leaking();
  }

  /** Corrected: whatever the request yields after an early unmount, no track stays live. */
  method EarlyUnmountChecked(outcome: Acquisition) returns (leaking: bool)
    ensures !leaking
  {
    var cam := new Camera();
    cam.Unmount();
    var _ := cam.AcquisitionSettledChecked(outcome);
    leaking := cam.Leaking();
  }

  /**
   * As written: after a re-run the shutter is enabled although the new stream's metadata has not
   * loaded; a capture then takes the video element's size before the new stream has one.
   */
  method RerunKeepsShutterEnabled() returns (enabled: bool, loaded: bool)
    ensures enabled && !loaded
  {
    var cam := new Camera();
    var _ := cam.AcquisitionSettled(Granted(1));
    cam.MetadataLoaded();
    cam.Rerun();
    enabled := cam.ShutterEnabled();
    loaded := cam.metadataLoaded;
  }

  /** Corrected: after a re-run the shutter stays disabled until the new stream's metadata loads. */
  method RerunCheckedDisablesShutter() returns (enabled: bool, loaded: bool)
    ensures !enabled && !loaded
  {
    var cam := new Camera();
    var _ := cam.AcquisitionSettledChecked(Granted(1));
    cam.MetadataLoaded();
    cam.RerunChecked();
    enabled := cam.ShutterEnabled();
    loaded := cam.metadataLoaded;
  }
}
