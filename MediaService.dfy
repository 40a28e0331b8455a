/** The classes of MediaService.java that hold the playback logic: the media-session callback, whose
    fields are the playlist, the cursor and the prepared media, and the engine listener, whose
    completion callback skips to the next item. Every state-changing method is proved to follow its
    transition in SessionSpec. */
module MediaService {
  import opened MediaTypes
  import opened SessionSpec

  /** `MediaService.MediaSessionCallback`. `engineCalls` records the calls made on `mPlayback`, and
      `sessionActive` the activity flag of `mSession`. */
  class MediaSessionCallback {
    const platform: Platform
    var playlist: seq<QueueItem>
    var queueIndex: Int32
    var preparedMedia: Option<Metadata>
    var sessionActive: bool
    var engineCalls: seq<EngineCall>

    /** The state of this callback as a value. */
    function Snapshot(): (s: Session)
      reads this
      ensures s.playlist == playlist && s.index == queueIndex && s.prepared == preparedMedia
      ensures s.active == sessionActive && s.calls == engineCalls
    {
      Session(playlist, queueIndex, preparedMedia, sessionActive, engineCalls)
    }

    constructor (platform: Platform)
      ensures this.platform == platform
      ensures Snapshot() == Initial()
    {
      this.platform := platform;
      playlist := [];
      queueIndex := -1;
      preparedMedia := None;
      sessionActive := false;
      engineCalls := [];
    }

    method ResetPlaylist()
      modifies this
      ensures Snapshot() == SessionSpec.ResetPlaylist(old(Snapshot()))
    {
      playlist := [];
      queueIndex := -1;
    }

    method OnPlayFromMediaId(mediaId: MediaId, extras: Extras)
      modifies this
      ensures Snapshot() == PlayFromMediaId(platform, old(Snapshot()), mediaId, extras)
    {
      if extras.NewPlaylist() {
        ResetPlaylist();
      }
      preparedMedia := platform.Lookup(mediaId);
      if !sessionActive {
        sessionActive := true;
      }
      engineCalls := engineCalls + [PlayFromMedia(preparedMedia)];
      var newQueuePosition := extras.QueuePositionOr(-1);
      if newQueuePosition == -1 {
        queueIndex := Inc32(queueIndex);
      } else {
        queueIndex := extras.queuePosition.value;
      }
    }

    method OnAddQueueItem(description: Description) returns (outcome: Outcome)
      modifies this
      ensures Step(Snapshot(), outcome) == AddQueueItem(platform, old(Snapshot()), description)
    {
      if platform.hashCode(description) == UnknownId {
        return Threw(IllegalArgumentException);
      }
      playlist := playlist + [platform.ItemOf(description)];
      queueIndex := if queueIndex == -1 then 0 else queueIndex;
      return Returned;
    }

    method OnRemoveQueueItem(description: Description) returns (outcome: Outcome)
      modifies this
      ensures Step(Snapshot(), outcome) == RemoveQueueItem(platform, old(Snapshot()), description)
    {
      if platform.hashCode(description) == UnknownId {
        return Threw(IllegalArgumentException);
      }
      playlist := RemoveFirst(playlist, platform.ItemOf(description), platform.itemEquals);
      queueIndex := if playlist == [] then -1 else queueIndex;
      return Returned;
    }

    method OnPrepare() returns (outcome: Outcome)
      modifies this
      ensures Step(Snapshot(), outcome) == Prepare(platform, old(Snapshot()))
    {
      if queueIndex < 0 && playlist == [] {
        return Returned;
      }
      if !(0 <= queueIndex < |playlist|) {
        return Threw(IndexOutOfBoundsException);
      }
      var mediaId := playlist[queueIndex].description.mediaId;
      preparedMedia := platform.Lookup(mediaId);
      if !sessionActive {
        sessionActive := true;
      }
      return Returned;
    }

    method OnPlay() returns (outcome: Outcome)
      modifies this
      ensures Step(Snapshot(), outcome) == Play(platform, old(Snapshot()))
    {
      var ready := IsReadyToPlay();
      if !ready {
        return Returned;
      }
      if preparedMedia == None {
        outcome := OnPrepare();
        if outcome.Threw? {
          return;
        }
      }
      engineCalls := engineCalls + [PlayFromMedia(preparedMedia)];
      return Returned;
    }

    method OnPause()
      modifies this
      ensures Snapshot() == SessionSpec.Pause(old(Snapshot()))
    {
      engineCalls := engineCalls + [EngineCall.Pause];
    }

    method OnStop()
      modifies this
      ensures Snapshot() == SessionSpec.Stop(old(Snapshot()))
    {
      engineCalls := engineCalls + [EngineCall.Stop];
      sessionActive := false;
    }

    /** The increment is stored in the field before the remainder is taken, as `++mQueueIndex` does. */
    method OnSkipToNext() returns (outcome: Outcome)
      modifies this
      ensures Step(Snapshot(), outcome) == SkipToNext(platform, old(Snapshot()))
    {
      queueIndex := Inc32(queueIndex);
      if |playlist| == 0 {
        return Threw(ArithmeticException);
      }
      queueIndex := JavaRem(queueIndex, |playlist|);
      preparedMedia := None;
      outcome := OnPlay();
    }

    method OnSkipToPrevious() returns (outcome: Outcome)
      requires |playlist| <= MaxInt32
      modifies this
      ensures Step(Snapshot(), outcome) == SkipToPrevious(platform, old(Snapshot()))
    {
      queueIndex := if queueIndex > 0 then queueIndex - 1 else |playlist| - 1;
      preparedMedia := None;
      outcome := OnPlay();
    }

    method OnSeekTo(position: Int64)
      modifies this
      ensures Snapshot() == SessionSpec.SeekTo(old(Snapshot()), position)
    {
      engineCalls := engineCalls + [EngineCall.SeekTo(position)];
    }

    method IsReadyToPlay() returns (ready: bool)
      ensures ready <==> |playlist| > 0
    {
      ready := playlist != [];
    }
  }

  /** `MediaService.MediaPlayerListener`, reduced to the callback that feeds back into the session. */
  class MediaPlayerListener {
    const callback: MediaSessionCallback

    constructor (callback: MediaSessionCallback)
      ensures this.callback == callback
    {
      this.callback := callback;
    }

    /** The engine finished the current track: the session skips to the next item. */
    method OnPlaybackComplete() returns (outcome: Outcome)
      modifies callback
      ensures Step(callback.Snapshot(), outcome) == PlaybackComplete(callback.platform, old(callback.Snapshot()))
    {
      outcome := callback.OnSkipToNext();
    }
  }

  // ---------------------------------------------------------------------------------------------
  // Clients: command sequences run against a fresh callback

  /** Play on a freshly created callback reaches no engine call and changes nothing. */
  method PlayOnFreshCallback(p: Platform) returns (outcome: Outcome, calls: seq<EngineCall>, index: int)
    ensures outcome == Returned && calls == [] && index == -1
  {
    var callback := new MediaSessionCallback(p);
    outcome := callback.OnPlay();
    calls, index := callback.engineCalls, callback.queueIndex;
  }

  /** Add A, add B, skip to next: B is selected, prepared and played. */
  method AddTwoThenSkipToNext(p: Platform, a: Description, b: Description)
    returns (outcome: Outcome, playlist: seq<QueueItem>, index: int, prepared: Option<Metadata>, calls: seq<EngineCall>)
    requires p.hashCode(a) != UnknownId && p.hashCode(b) != UnknownId
    ensures outcome == Returned && playlist == [p.ItemOf(a), p.ItemOf(b)] && index == 1
    ensures prepared == p.Lookup(b.mediaId) && calls == [PlayFromMedia(p.Lookup(b.mediaId))]
  {
    var callback := new MediaSessionCallback(p);
    outcome := callback.OnAddQueueItem(a);
    outcome := callback.OnAddQueueItem(b);
    assert callback.playlist == [p.ItemOf(a), p.ItemOf(b)] && callback.queueIndex == 0;
    assert callback.preparedMedia == None && callback.engineCalls == [];
    outcome := callback.OnSkipToNext();
    playlist, index := callback.playlist, callback.queueIndex;
    prepared, calls := callback.preparedMedia, callback.engineCalls;
  }

  /** Queue X, play it, and let the engine finish it: the completion replays X. */
  method CompletionReplaysSingleton(p: Platform, x: Description) returns (outcome: Outcome, index: int, calls: seq<EngineCall>)
    requires p.hashCode(x) != UnknownId
    ensures outcome == Returned && index == 0
    ensures calls == [PlayFromMedia(p.Lookup(x.mediaId)), PlayFromMedia(p.Lookup(x.mediaId))]
  {
    var callback := new MediaSessionCallback(p);
    var listener := new MediaPlayerListener(callback);
    outcome := callback.OnAddQueueItem(x);
    outcome := callback.OnPlay();
    outcome := listener.OnPlaybackComplete();
    index, calls := callback.queueIndex, callback.engineCalls;
  }

  /** Play a media id into a new playlist and let the engine finish it: the skip divides by zero. */
  method CompletionAfterNewPlaylist(p: Platform, mediaId: MediaId) returns (outcome: Outcome, calls: seq<EngineCall>)
    ensures outcome == Threw(ArithmeticException)
    ensures calls == [PlayFromMedia(p.Lookup(mediaId))]
  {
    var callback := new MediaSessionCallback(p);
    var listener := new MediaPlayerListener(callback);
    callback.OnPlayFromMediaId(mediaId, Extras(Some(true), None));
    outcome := listener.OnPlaybackComplete();
    calls := callback.engineCalls;
  }

  /** Adding a description whose hash code is `UnknownId` throws and leaves the callback as it was. */
  method AddWithUnknownId(p: Platform, d: Description) returns (outcome: Outcome, playlist: seq<QueueItem>, index: int)
    requires p.hashCode(d) == UnknownId
    ensures outcome == Threw(IllegalArgumentException) && playlist == [] && index == -1
  {
    var callback := new MediaSessionCallback(p);
    outcome := callback.OnAddQueueItem(d);
    playlist, index := callback.playlist, callback.queueIndex;
  }
}
