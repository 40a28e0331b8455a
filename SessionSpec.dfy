/** The state machine of `MediaService.MediaSessionCallback` as pure functions: one transition per
    callback, from the state before the call to the state after it and how the call ended.
    The class in MediaService.dfy is proved to follow these transitions; the lemmas here state what
    the transitions do to the playlist, the cursor, the prepared media and the engine. */
module SessionSpec {
  import opened MediaTypes

  /** Everything a callback reads or changes: `mPlaylist`, `mQueueIndex` (-1 is "no selection"),
      `mPreparedMedia`, whether the media session is active, and the calls made on the engine so far. */
  datatype Session = Session(
    playlist: seq<QueueItem>,
    index: Int32,
    prepared: Option<Metadata>,
    active: bool,
    calls: seq<EngineCall>)

  /** The state after a callback and how it ended. After an exception, the state is what the
      callback had changed before it threw. */
  datatype Step = Step(session: Session, outcome: Outcome)

  /** A freshly constructed callback: empty playlist, no selection, nothing prepared, inactive session. */
  function Initial(): (s: Session)
    ensures s.playlist == [] && s.index == -1 && s.prepared == None && !s.active && s.calls == []
  {
    Session([], -1, None, false, [])
  }

  /** The cursor invariant: -1 exactly when the playlist is empty, otherwise a valid position. The
      playlist holds no more items than a Java list can. */
  ghost predicate Consistent(s: Session)
  {
    && |s.playlist| <= MaxInt32
    && (s.playlist == [] <==> s.index == -1)
    && (s.playlist != [] ==> 0 <= s.index < |s.playlist|)
  }

  /** The metadata that preparing the item at position i of the playlist loads. */
  function MediaAt(p: Platform, s: Session, i: int): Option<Metadata>
    requires 0 <= i < |s.playlist|
  {
    p.Lookup(s.playlist[i].description.mediaId)
  }

  // ---------------------------------------------------------------------------------------------
  // Queue edits

  /** `resetPlaylist`: clears the playlist and the selection. */
  function ResetPlaylist(s: Session): (t: Session)
    ensures t.playlist == [] && t.index == -1
    ensures t.prepared == s.prepared && t.active == s.active && t.calls == s.calls
  {
    s.(playlist := [], index := -1)
  }

  /** k is the position of the first element of xs that x equals. */
  ghost predicate IsFirstMatch(xs: seq<QueueItem>, x: QueueItem, eq: (QueueItem, QueueItem) -> bool, k: int)
  {
    0 <= k < |xs| && eq(x, xs[k]) && forall j :: 0 <= j < k ==> !eq(x, xs[j])
  }

  /** `List.remove(Object)`: deletes the first element that `x` equals, if there is one. */
  function RemoveFirst(xs: seq<QueueItem>, x: QueueItem, eq: (QueueItem, QueueItem) -> bool): (r: seq<QueueItem>)
    ensures |xs| - 1 <= |r| <= |xs|
    ensures |r| == |xs| <==> r == xs
    ensures forall y :: y in r ==> y in xs
  {
    if xs == [] then []
    else if eq(x, xs[0]) then xs[1..]
    else [xs[0]] + RemoveFirst(xs[1..], x, eq)
  }

  /** Removing leaves the list as it was when nothing matches. */
  lemma {:induction false} RemoveFirstNoMatch(xs: seq<QueueItem>, x: QueueItem, eq: (QueueItem, QueueItem) -> bool)
    requires forall k :: 0 <= k < |xs| ==> !eq(x, xs[k])
    ensures RemoveFirst(xs, x, eq) == xs
  {
    if xs != [] {
      var tail := xs[1..];
      assert forall k :: 0 <= k < |tail| ==> tail[k] == xs[k + 1];
      RemoveFirstNoMatch(tail, x, eq);
      assert !eq(x, xs[0]);
      assert [xs[0]] + tail == xs;
    }
  }

  /** Removing cuts out exactly the first match and keeps the order of everything else. */
  lemma {:induction false} RemoveFirstCutsFirstMatch(xs: seq<QueueItem>, x: QueueItem, eq: (QueueItem, QueueItem) -> bool, k: int)
    requires IsFirstMatch(xs, x, eq, k)
    ensures RemoveFirst(xs, x, eq) == xs[..k] + xs[k + 1..]
  {
    if k > 0 {
      var tail := xs[1..];
      assert !eq(x, xs[0]);
      assert IsFirstMatch(tail, x, eq, k - 1);
      RemoveFirstCutsFirstMatch(tail, x, eq, k - 1);
      assert xs[..k] == [xs[0]] + tail[..k - 1];
      assert xs[k + 1..] == tail[k..];
    }
  }

  /** `List.remove(Object)` as a whole: the list is unchanged when nothing matches, and otherwise loses
      exactly its first match. */
  lemma RemoveFirstSpec(xs: seq<QueueItem>, x: QueueItem, eq: (QueueItem, QueueItem) -> bool)
    ensures (forall k :: 0 <= k < |xs| ==> !eq(x, xs[k])) ==> RemoveFirst(xs, x, eq) == xs
    ensures forall k :: IsFirstMatch(xs, x, eq, k) ==> RemoveFirst(xs, x, eq) == xs[..k] + xs[k + 1..]
  {
    if forall k :: 0 <= k < |xs| ==> !eq(x, xs[k]) {
      RemoveFirstNoMatch(xs, x, eq);
    }
    forall k | IsFirstMatch(xs, x, eq, k)
      ensures RemoveFirst(xs, x, eq) == xs[..k] + xs[k + 1..]
    {
      RemoveFirstCutsFirstMatch(xs, x, eq, k);
    }
  }

  /** `onAddQueueItem`: appends the item built from the description; selects it if nothing was selected.
      Building the item throws, before anything changes, when the description's hash code is `UnknownId`. */
  function AddQueueItem(p: Platform, s: Session, d: Description): (r: Step)
    ensures p.hashCode(d) == UnknownId ==> r == Step(s, Threw(IllegalArgumentException))
    ensures p.hashCode(d) != UnknownId ==>
              var t := r.session;
              && r.outcome == Returned
              && |t.playlist| == |s.playlist| + 1
              && t.playlist[..|s.playlist|] == s.playlist && t.playlist[|s.playlist|] == p.ItemOf(d)
              && (s.index == -1 ==> t.index == 0)
              && (s.index != -1 ==> t.index == s.index)
              && t.prepared == s.prepared && t.active == s.active && t.calls == s.calls
  {
    if p.hashCode(d) == UnknownId then Step(s, Threw(IllegalArgumentException))
    else Step(s.(playlist := s.playlist + [p.ItemOf(d)], index := if s.index == -1 then 0 else s.index), Returned)
  }

  /** `onRemoveQueueItem`: removes the first matching item; the cursor becomes -1 if the playlist is now
      empty and is otherwise left where it was. Building the item to match throws, before anything
      changes, when the description's hash code is `UnknownId`. */
  function RemoveQueueItem(p: Platform, s: Session, d: Description): (r: Step)
    ensures p.hashCode(d) == UnknownId ==> r == Step(s, Threw(IllegalArgumentException))
    ensures p.hashCode(d) != UnknownId ==>
              var t := r.session;
              && r.outcome == Returned
              && ((forall k :: 0 <= k < |s.playlist| ==> !p.itemEquals(p.ItemOf(d), s.playlist[k])) ==> t.playlist == s.playlist)
              && (forall k :: IsFirstMatch(s.playlist, p.ItemOf(d), p.itemEquals, k) ==>
                    t.playlist == s.playlist[..k] + s.playlist[k + 1..])
              && (t.playlist == [] ==> t.index == -1)
              && (t.playlist != [] ==> t.index == s.index)
              && t.prepared == s.prepared && t.active == s.active && t.calls == s.calls
  {
    if p.hashCode(d) == UnknownId then Step(s, Threw(IllegalArgumentException))
    else
      RemoveFirstSpec(s.playlist, p.ItemOf(d), p.itemEquals);
      var rest := RemoveFirst(s.playlist, p.ItemOf(d), p.itemEquals);
      Step(s.(playlist := rest, index := if rest == [] then -1 else s.index), Returned)
  }

  // ---------------------------------------------------------------------------------------------
  // Transport controls

  /** `onPlayFromMediaId`: optionally resets the playlist, prepares the library entry of `mediaId`,
      activates the session, plays, then moves the cursor to the explicit queue position or one further. */
  function PlayFromMediaId(p: Platform, s: Session, mediaId: MediaId, extras: Extras): (t: Session)
    ensures extras.NewPlaylist() ==> t.playlist == []
    ensures !extras.NewPlaylist() ==> t.playlist == s.playlist
    ensures t.prepared == p.Lookup(mediaId) && t.active
    ensures t.calls == s.calls + [PlayFromMedia(p.Lookup(mediaId))]
    ensures extras.QueuePositionOr(-1) != -1 ==> t.index == extras.queuePosition.value
    ensures extras.QueuePositionOr(-1) == -1 && extras.NewPlaylist() ==> t.index == 0
    ensures extras.QueuePositionOr(-1) == -1 && !extras.NewPlaylist() ==> t.index == Inc32(s.index)
  {
    var s1 := if extras.NewPlaylist() then ResetPlaylist(s) else s;
    var media := p.Lookup(mediaId);
    var position := extras.QueuePositionOr(-1);
    s1.(prepared := media, active := true, calls := s1.calls + [PlayFromMedia(media)],
        index := if position == -1 then Inc32(s1.index) else position)
  }

  /** `onPrepare`: nothing when there is no selection in an empty playlist; otherwise loads the library
      entry of the current item and activates the session, throwing when the cursor is out of range. */
  function Prepare(p: Platform, s: Session): (r: Step)
    ensures r.session.calls == s.calls
    ensures r.session.playlist == s.playlist && r.session.index == s.index
    ensures s.index < 0 && s.playlist == [] ==> r == Step(s, Returned)
    ensures 0 <= s.index < |s.playlist| ==>
              r.outcome == Returned && r.session == s.(prepared := MediaAt(p, s, s.index), active := true)
    ensures r.outcome.Threw? <==> (s.playlist != [] && !(0 <= s.index < |s.playlist|)) || (s.playlist == [] && s.index >= 0)
    ensures r.outcome.Threw? ==> r == Step(s, Threw(IndexOutOfBoundsException))
  {
    if s.index < 0 && s.playlist == [] then Step(s, Returned)
    else if !(0 <= s.index < |s.playlist|) then Step(s, Threw(IndexOutOfBoundsException))
    else Step(s.(prepared := MediaAt(p, s, s.index), active := true), Returned)
  }

  /** `onPlay`: nothing on an empty playlist; otherwise prepares when nothing is prepared, then plays the
      prepared media. */
  function Play(p: Platform, s: Session): (r: Step)
    ensures r.session.playlist == s.playlist && r.session.index == s.index
    ensures s.playlist == [] ==> r == Step(s, Returned)
    ensures s.playlist != [] && s.prepared.Some? ==>
              r == Step(s.(calls := s.calls + [PlayFromMedia(s.prepared)]), Returned)
    ensures s.playlist != [] && s.prepared == None && 0 <= s.index < |s.playlist| ==>
              r.outcome == Returned && r.session.active && r.session.prepared == MediaAt(p, s, s.index) &&
              r.session.calls == s.calls + [PlayFromMedia(MediaAt(p, s, s.index))]
    ensures r.outcome.Threw? <==> s.playlist != [] && s.prepared == None && !(0 <= s.index < |s.playlist|)
    ensures r.outcome.Threw? ==> r == Step(s, Threw(IndexOutOfBoundsException))
  {
    if s.playlist == [] then Step(s, Returned)
    else
      var r1 := if s.prepared == None then Prepare(p, s) else Step(s, Returned);
      if r1.outcome.Threw? then r1
      else Step(r1.session.(calls := r1.session.calls + [PlayFromMedia(r1.session.prepared)]), Returned)
  }

  /** `onPause` */
  function Pause(s: Session): (t: Session)
    ensures t.calls == s.calls + [EngineCall.Pause]
    ensures t.playlist == s.playlist && t.index == s.index && t.prepared == s.prepared && t.active == s.active
  {
    s.(calls := s.calls + [EngineCall.Pause])
  }

  /** `onStop` */
  function Stop(s: Session): (t: Session)
    ensures t.calls == s.calls + [EngineCall.Stop] && !t.active
    ensures t.playlist == s.playlist && t.index == s.index && t.prepared == s.prepared
  {
    s.(calls := s.calls + [EngineCall.Stop], active := false)
  }

  /** `onSeekTo` */
  function SeekTo(s: Session, position: Int64): (t: Session)
    ensures t.calls == s.calls + [EngineCall.SeekTo(position)]
    ensures t.playlist == s.playlist && t.index == s.index && t.prepared == s.prepared && t.active == s.active
  {
    s.(calls := s.calls + [EngineCall.SeekTo(position)])
  }

  /** `onSkipToNext`: `mQueueIndex = (++mQueueIndex % mPlaylist.size())`, then clears the prepared media
      and plays. The increment is stored before the remainder is taken, so on an empty playlist the
      cursor has moved when the division by zero throws. */
  function SkipToNext(p: Platform, s: Session): (r: Step)
    ensures r.session.playlist == s.playlist
    ensures s.playlist == [] ==>
              r == Step(s.(index := Inc32(s.index)), Threw(ArithmeticException))
    ensures s.playlist != [] ==>
              var j := JavaRem(Inc32(s.index), |s.playlist|);
              && r.session.index == j && j < |s.playlist|
              && (0 <= j ==>
                    && r.outcome == Returned
                    && r.session.prepared == MediaAt(p, s, j) && r.session.active
                    && r.session.calls == s.calls + [PlayFromMedia(MediaAt(p, s, j))])
              && (j < 0 ==> r == Step(s.(index := j, prepared := None), Threw(IndexOutOfBoundsException)))
    ensures s.playlist != [] && -1 <= s.index < MaxInt32 ==>
              var i := (s.index + 1) % |s.playlist|;
              && r.outcome == Returned && r.session.index == i
              && r.session.prepared == MediaAt(p, s, i) && r.session.active
              && r.session.calls == s.calls + [PlayFromMedia(MediaAt(p, s, i))]
  {
    var bumped := Inc32(s.index);
    if s.playlist == [] then Step(s.(index := bumped), Threw(ArithmeticException))
    else Play(p, s.(index := JavaRem(bumped, |s.playlist|), prepared := None))
  }

  /** `onSkipToPrevious`: steps the cursor back, wrapping from 0 (or below) to the last position, then clears
      the prepared media and plays. */
  function SkipToPrevious(p: Platform, s: Session): (r: Step)
    requires |s.playlist| <= MaxInt32
    ensures r.session.playlist == s.playlist
    ensures s.playlist == [] ==>
              r == Step(s.(index := if s.index > 0 then s.index - 1 else -1, prepared := None), Returned)
    ensures s.playlist != [] ==>
              var i := if s.index > 0 then s.index - 1 else |s.playlist| - 1;
              && 0 <= i && r.session.index == i
              && (i < |s.playlist| ==>
                    && r.outcome == Returned
                    && r.session.prepared == MediaAt(p, s, i) && r.session.active
                    && r.session.calls == s.calls + [PlayFromMedia(MediaAt(p, s, i))])
              && (i >= |s.playlist| ==>
                    r == Step(s.(index := i, prepared := None), Threw(IndexOutOfBoundsException)))
  {
    Play(p, s.(index := if s.index > 0 then s.index - 1 else |s.playlist| - 1, prepared := None))
  }

  /** `MediaPlayerListener.onPlaybackComplete`: the engine finished a track and the session skips to the next. */
  function PlaybackComplete(p: Platform, s: Session): (r: Step)
    ensures r.session.playlist == s.playlist
    ensures s.playlist == [] ==>
              r == Step(s.(index := Inc32(s.index)), Threw(ArithmeticException))
    ensures s.playlist != [] ==>
              var j := JavaRem(Inc32(s.index), |s.playlist|);
              && r.session.index == j && j < |s.playlist|
              && (0 <= j ==>
                    && r.outcome == Returned
                    && r.session.prepared == MediaAt(p, s, j) && r.session.active
                    && r.session.calls == s.calls + [PlayFromMedia(MediaAt(p, s, j))])
              && (j < 0 ==> r == Step(s.(index := j, prepared := None), Threw(IndexOutOfBoundsException)))
    ensures s.playlist != [] && -1 <= s.index < MaxInt32 ==>
              var i := (s.index + 1) % |s.playlist|;
              && r.outcome == Returned && r.session.index == i
              && r.session.prepared == MediaAt(p, s, i) && r.session.active
              && r.session.calls == s.calls + [PlayFromMedia(MediaAt(p, s, i))]
  {
    SkipToNext(p, s)
  }

  /** k consecutive skips to the next item, stopping at the first exception. */
  function SkipToNextTimes(p: Platform, s: Session, k: nat): Step
    decreases k
  {
    if k == 0 then Step(s, Returned)
    else
      var r := SkipToNext(p, s);
      if r.outcome.Threw? then r else SkipToNextTimes(p, r.session, k - 1)
  }
}
