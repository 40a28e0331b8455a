/** What the transitions of SessionSpec promise over several steps: which callbacks keep the cursor
    invariant, how skipping wraps around, and the scenarios in which the callback as written leaves
    the cursor out of range or throws. */
module SessionProperties {
  import opened MediaTypes
  import opened SessionSpec

  // ---------------------------------------------------------------------------------------------
  // The cursor invariant

  /** Adding an item keeps the cursor invariant; the first item added becomes the selection. */
  lemma AddKeepsConsistent(p: Platform, s: Session, d: Description)
    requires Consistent(s) && |s.playlist| < MaxInt32
    ensures Consistent(AddQueueItem(p, s, d).session)
    ensures s.playlist == [] && p.hashCode(d) != UnknownId ==> AddQueueItem(p, s, d).session.index == 0
  {
  }

  /** Removing an item keeps "the cursor is -1 exactly when the playlist is empty": removing the items
      one by one drives the cursor to -1 when the last one goes, and never before. */
  lemma RemoveKeepsSelectionFlag(p: Platform, s: Session, d: Description)
    requires s.playlist == [] <==> s.index == -1
    ensures var t := RemoveQueueItem(p, s, d).session; t.playlist == [] <==> t.index == -1
  {
  }

  /** The transport controls that do not move the cursor keep the cursor invariant. */
  lemma TransportKeepsConsistent(p: Platform, s: Session, position: Int64)
    requires Consistent(s)
    ensures Consistent(Prepare(p, s).session) && Prepare(p, s).outcome == Returned
    ensures Consistent(Play(p, s).session) && Play(p, s).outcome == Returned
    ensures Consistent(SessionSpec.Pause(s))
    ensures Consistent(SessionSpec.Stop(s))
    ensures Consistent(SessionSpec.SeekTo(s, position))
  {
  }

  /** Skipping in either direction keeps the cursor invariant on a non-empty playlist and never throws. */
  lemma SkipKeepsConsistent(p: Platform, s: Session)
    requires Consistent(s) && s.playlist != []
    ensures Consistent(SkipToNext(p, s).session) && SkipToNext(p, s).outcome == Returned
    ensures Consistent(SkipToPrevious(p, s).session) && SkipToPrevious(p, s).outcome == Returned
  {
  }

  // ---------------------------------------------------------------------------------------------
  // Wrap-around

  /** k skips to the next item move the cursor k places forward, modulo the length of the playlist,
      without throwing and without touching the playlist. */
  lemma {:induction false} SkipToNextTimesAdvances(p: Platform, s: Session, k: nat)
    requires Consistent(s) && s.playlist != []
    ensures var r := SkipToNextTimes(p, s, k);
            && r.outcome == Returned && r.session.playlist == s.playlist && Consistent(r.session)
            && r.session.index == (s.index + k) % |s.playlist|
    decreases k
  {
    var n := |s.playlist|;
    if k == 0 {
      SmallRemainder(s.index, n);
    } else {
      var r1 := SkipToNext(p, s);
      SkipKeepsConsistent(p, s);
      assert r1.outcome == Returned && r1.session.playlist == s.playlist;
      assert r1.session.index == (s.index + 1) % n;
      assert SkipToNextTimes(p, s, k) == SkipToNextTimes(p, r1.session, k - 1);
      SkipToNextTimesAdvances(p, r1.session, k - 1);
      ModAddOne(s.index, k - 1, n);
    }
  }

  /** As many skips to the next item as the playlist is long bring the cursor back to where it started. */
  lemma SkipToNextFullCycle(p: Platform, s: Session)
    requires Consistent(s) && s.playlist != []
    ensures SkipToNextTimes(p, s, |s.playlist|).session.index == s.index
  {
    var n := |s.playlist|;
    SkipToNextTimesAdvances(p, s, n);
    AddModulus(s.index, n);
    SmallRemainder(s.index, n);
  }

  /** From the last item, skipping to the next wraps around to the first. */
  lemma SkipToNextWrapsFromLast(p: Platform, s: Session)
    requires Consistent(s) && s.playlist != [] && s.index == |s.playlist| - 1
    ensures SkipToNext(p, s).session.index == 0
    ensures SkipToNext(p, s).session.calls == s.calls + [PlayFromMedia(MediaAt(p, s, 0))]
  {
  }

  /** From the first item, skipping to the previous wraps around to the last. */
  lemma SkipToPreviousWrapsFromFirst(p: Platform, s: Session)
    requires Consistent(s) && s.playlist != [] && s.index == 0
    ensures SkipToPrevious(p, s).session.index == |s.playlist| - 1
    ensures SkipToPrevious(p, s).session.calls == s.calls + [PlayFromMedia(MediaAt(p, s, |s.playlist| - 1))]
  {
  }

  /** Skipping back undoes skipping forward, and skipping forward undoes skipping back: the cursor returns
      to the item it started on, which is prepared and played again. */
  lemma SkipsAreInverse(p: Platform, s: Session)
    requires Consistent(s) && s.playlist != []
    ensures var t := SkipToPrevious(p, SkipToNext(p, s).session).session;
            t.index == s.index && t.prepared == MediaAt(p, s, s.index)
    ensures var t := SkipToNext(p, SkipToPrevious(p, s).session).session;
            t.index == s.index && t.prepared == MediaAt(p, s, s.index)
  {
    var n := |s.playlist|;
    var forward := SkipToNext(p, s).session;
    assert forward.playlist == s.playlist && forward.index == if s.index + 1 < n then s.index + 1 else 0 by {
      if s.index + 1 < n {
        SmallRemainder(s.index + 1, n);
      } else {
        SmallRemainder(0, n);
        AddModulus(0, n);
      }
    }
    var back := SkipToPrevious(p, s).session;
    assert back.playlist == s.playlist && back.index == if s.index > 0 then s.index - 1 else n - 1;
    assert (back.index + 1) % n == s.index by {
      if s.index > 0 {
        SmallRemainder(s.index, n);
      } else {
        SmallRemainder(0, n);
        AddModulus(0, n);
      }
    }
  }

  /** On a one-item playlist both skips keep the cursor where it is and play that item again. */
  lemma SingletonSkipsReplay(p: Platform, s: Session)
    requires Consistent(s) && |s.playlist| == 1
    ensures SkipToNext(p, s) == Step(s.(prepared := MediaAt(p, s, 0), active := true,
                                        calls := s.calls + [PlayFromMedia(MediaAt(p, s, 0))]), Returned)
    ensures SkipToPrevious(p, s) == SkipToNext(p, s)
  {
  }

  /** The engine finishing a track on a one-item playlist replays that item. */
  lemma PlaybackCompleteReplaysSingleton(p: Platform, s: Session)
    requires Consistent(s) && |s.playlist| == 1
    ensures PlaybackComplete(p, s).outcome == Returned
    ensures PlaybackComplete(p, s).session.index == 0
    ensures PlaybackComplete(p, s).session.calls == s.calls + [PlayFromMedia(MediaAt(p, s, 0))]
  {
    SingletonSkipsReplay(p, s);
  }

  // ---------------------------------------------------------------------------------------------
  // Where the callback as written leaves the cursor out of range or throws

  /** Removing the selected last item of a playlist of two or more items leaves the cursor one past the end;
      playing next, with nothing prepared, throws from `List.get`. */
  lemma RemovalDriftsCursor(p: Platform, s: Session, d: Description)
    requires |s.playlist| >= 2 && s.index == |s.playlist| - 1 && s.prepared == None
    requires p.hashCode(d) != UnknownId
    requires IsFirstMatch(s.playlist, p.ItemOf(d), p.itemEquals, |s.playlist| - 1)
    ensures var t := RemoveQueueItem(p, s, d).session;
            && t.playlist == s.playlist[..|s.playlist| - 1] && t.index == |t.playlist| && !Consistent(t)
            && Play(p, t) == Step(t, Threw(IndexOutOfBoundsException))
  {
    var n := |s.playlist|;
    assert s.playlist[..n - 1] + s.playlist[n..] == s.playlist[..n - 1];
  }

  /** Removing an item before the selection shifts the remaining items left but not the cursor, so the
      cursor now names the item that followed the selected one. */
  lemma RemovalBeforeCursorShiftsSelection(p: Platform, s: Session, d: Description, k: nat)
    requires k < s.index < |s.playlist| - 1
    requires p.hashCode(d) != UnknownId
    requires IsFirstMatch(s.playlist, p.ItemOf(d), p.itemEquals, k)
    ensures var t := RemoveQueueItem(p, s, d).session;
            t.index == s.index && t.playlist[t.index] == s.playlist[s.index + 1]
  {
  }

  /** Playing a media id without an explicit position while the last item is selected moves the cursor past
      the end; preparing from it then throws. */
  lemma PlayFromMediaIdPassesEnd(p: Platform, s: Session, mediaId: MediaId)
    requires Consistent(s) && s.playlist != [] && s.index == |s.playlist| - 1
    ensures var t := PlayFromMediaId(p, s, mediaId, Extras(None, None));
            && t.index == |s.playlist| && !Consistent(t)
            && Prepare(p, t) == Step(t, Threw(IndexOutOfBoundsException))
  {
  }

  /** Playing a media id into a new playlist leaves the playlist empty; when that track completes, the skip to
      the next item divides by zero. */
  lemma CompletionAfterNewPlaylistThrows(p: Platform, s: Session, mediaId: MediaId, position: Option<Int32>)
    ensures var t := PlayFromMediaId(p, s, mediaId, Extras(Some(true), position));
            && t.playlist == []
            && PlaybackComplete(p, t).outcome == Threw(ArithmeticException)
  {
  }

  /** A cursor below -1 (set through an explicit queue position) gives a negative Java remainder in the skip to
      the next item unless the playlist length divides it; playing from that position throws. */
  lemma SkipFromNegativeCursorThrows(p: Platform, s: Session)
    requires s.playlist != [] && s.index < -1
    requires (-(s.index + 1)) % |s.playlist| != 0
    ensures SkipToNext(p, s).outcome == Threw(IndexOutOfBoundsException)
    ensures SkipToNext(p, s).session.index == -((-(s.index + 1)) % |s.playlist|)
    ensures -|s.playlist| < SkipToNext(p, s).session.index < 0
  {
  }

  // ---------------------------------------------------------------------------------------------
  // Scenarios

  /** A fresh callback does nothing on play: no engine call, no state change. */
  lemma PlayOnFreshSessionIsNoop(p: Platform)
    ensures Play(p, Initial()) == Step(Initial(), Returned)
  {
  }

  /** Adding A then B selects A; skipping to the next selects, prepares and plays B. */
  lemma AddTwoThenSkip(p: Platform, a: Description, b: Description)
    requires p.hashCode(a) != UnknownId && p.hashCode(b) != UnknownId
    ensures var s := AddQueueItem(p, AddQueueItem(p, Initial(), a).session, b).session;
            && s.playlist == [p.ItemOf(a), p.ItemOf(b)] && s.index == 0
            && SkipToNext(p, s) == Step(s.(index := 1, prepared := p.Lookup(b.mediaId), active := true,
                                           calls := [PlayFromMedia(p.Lookup(b.mediaId))]), Returned)
  {
    var s := AddQueueItem(p, AddQueueItem(p, Initial(), a).session, b).session;
    assert s.playlist == [p.ItemOf(a), p.ItemOf(b)];
  }
}
