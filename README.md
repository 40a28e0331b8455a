# AudioStreaming media session: a Dafny model

This project models the playback-queue state machine of the AudioStreaming Android app. The machine is the
nested class `MediaService.MediaSessionCallback`. It keeps three things:

- an ordered playlist of queue items (`mPlaylist`);
- a cursor into it (`mQueueIndex`), where -1 means "no selection";
- the metadata of the prepared track (`mPreparedMedia`), which may be `null`.

Each transport command (play from a media id, add or remove a queue item, prepare, play, pause, stop,
skip to next or previous, seek) changes that state. It then makes at most one call on the playback engine.
The engine's completion callback (`MediaPlayerListener.onPlaybackComplete`) feeds back as a skip to the
next item.

Layout:

- `MediaTypes.dfy` holds the values: queue items, descriptions, the `extras` bundle with its Java
  defaults, and the engine calls. It also holds Java `int` arithmetic: the `++` that wraps at 2^31-1 and
  the `%` that truncates toward zero. Collaborators whose code is not part of the model form a
  `Platform` record: the media library (`getTreeMap()`), `MediaDescriptionCompat.hashCode()` and the
  `equals` that `List.remove` applies to queue items.
- `SessionSpec.dfy` gives the state as a value (`Session`) and one transition function per callback.
  The callbacks that can throw (add and remove a queue item, prepare, play, both skips, and the
  completion callback) return a `Step`: the new state and how the call ended. A call ends normally,
  or by throwing an `ArithmeticException`, `IndexOutOfBoundsException` or `IllegalArgumentException`.
  After a throw, the state is whatever the Java code had already changed. The other callbacks (play
  from a media id, pause, stop, seek) cannot throw and return only the new state.
- `MediaService.dfy` holds the class `MediaSessionCallback`, with the Java fields and a log of engine
  calls. Its methods chain as the Java ones do (`OnSkipToNext` calls `OnPlay`, which calls
  `OnPrepare`), and each state-changing method is proved to follow its transition in `SessionSpec`. `MediaPlayerListener`
  forwards completion to `OnSkipToNext`. Client methods run short command sequences (add, play, skip,
  completion) on a fresh callback.
- `SessionProperties.dfy` holds the lemmas. Adding, preparing and playing keep the cursor invariant,
  and so does skipping on a non-empty playlist. Skipping to the next item on an empty playlist breaks
  it: the cursor becomes 0, then `ArithmeticException` is thrown. Removing and playing from a media
  id break it too. Skips wrap around, and n skips on n items
  come back to the start. Skipping back undoes skipping forward. A one-item playlist replays. The
  lemmas also name the inputs on which the code as written throws.

The model follows the code as written, including where it breaks the cursor invariant or throws:

- A media id that is not in the library is not rejected. The lookup yields `null` (`None`), which is
  stored as the prepared media and passed to the engine (`PlayFromMedia(None)`).
- Skipping to the next item on an empty playlist is not rejected. `++mQueueIndex % mPlaylist.size()`
  throws `ArithmeticException`, after the increment has already been stored in the field.
- The invariant "the cursor is -1 exactly when the playlist is empty, and otherwise in range" is not
  kept. Removal leaves the cursor where it was, even past the end (`RemovalDriftsCursor`). Play from a
  media id increments it blindly (`PlayFromMediaIdPassesEnd`). An explicit queue position is stored
  unchecked.
- Skipping to the previous item on an empty playlist makes no engine call. It still clears the prepared
  media, and it moves the cursor to cursor - 1 when the cursor is positive and to -1 otherwise.
- Adding or removing a description whose hash code is -1 (`QueueItem.UNKNOWN_ID`) throws
  `IllegalArgumentException` from the `QueueItem` constructor, before the playlist or cursor changes.
- The code keeps no playback-state enumeration (Idle, Prepared, Playing, Paused, Stopped). Engine
  state is forwarded to the session and not held by the callback, so the model has none.

## Model

| member | source | states |
|---|---|---|
| `MediaTypes.Inc32` | app/src/main/java/com/codingwithmitch/audiostreamer/services/MediaService.java:131 | Java `int` increment: one more, except that the largest `int` wraps to the smallest |
| `MediaTypes.JavaRem` | app/src/main/java/com/codingwithmitch/audiostreamer/services/MediaService.java:200 | Java `%` by a positive size: agrees with the mathematical remainder for a non-negative dividend; for a negative one it lies between the dividend and 0, above minus the size, and differs from the dividend by a multiple of the size, which fixes it as the remainder truncated toward zero |
| `MediaTypes.Extras.NewPlaylist` | app/src/main/java/com/codingwithmitch/audiostreamer/services/MediaService.java:118 | `getBoolean(QUEUE_NEW_PLAYLIST, false)`: true exactly when the key is present with value true |
| `MediaTypes.Extras.QueuePositionOr` | app/src/main/java/com/codingwithmitch/audiostreamer/services/MediaService.java:129 | `getInt(MEDIA_QUEUE_POSITION, default)`: the stored position when the key is present, else the default |
| `MediaTypes.Platform.Lookup` | app/src/main/java/com/codingwithmitch/audiostreamer/services/MediaService.java:122 | `getTreeMap().get(mediaId)`: present exactly when the id is in the library, and then the library's entry; absent (`null`) otherwise |
| `MediaTypes.Platform.ItemOf` | app/src/main/java/com/codingwithmitch/audiostreamer/services/MediaService.java:141 | `new QueueItem(description, description.hashCode())` for a hash code other than -1: the item carries the description and its hash code as queue id |
| `SessionSpec.Initial` | app/src/main/java/com/codingwithmitch/audiostreamer/services/MediaService.java:106-108 | a new callback has an empty playlist, cursor -1, nothing prepared, an inactive session and no engine calls |
| `SessionSpec.ResetPlaylist` | app/src/main/java/com/codingwithmitch/audiostreamer/services/MediaService.java:110-113 | empties the playlist and sets the cursor to -1; prepared media, activity and engine calls are unchanged |
| `SessionSpec.RemoveFirst` | app/src/main/java/com/codingwithmitch/audiostreamer/services/MediaService.java:148 | `List.remove(Object)` removes at most one element, returns the list unchanged exactly when it removes none, and keeps only elements of the list |
| `SessionSpec.RemoveFirstNoMatch` | app/src/main/java/com/codingwithmitch/audiostreamer/services/MediaService.java:148 | `List.remove` leaves the list unchanged when no element equals the argument |
| `SessionSpec.RemoveFirstCutsFirstMatch` | app/src/main/java/com/codingwithmitch/audiostreamer/services/MediaService.java:148 | `List.remove` cuts out exactly the first element equal to the argument, and the elements before and after it keep their order |
| `SessionSpec.RemoveFirstSpec` | app/src/main/java/com/codingwithmitch/audiostreamer/services/MediaService.java:148 | `List.remove`: if no element equals the argument the list is unchanged; otherwise exactly the first equal element is cut out and the rest keep their order |
| `SessionSpec.AddQueueItem` | app/src/main/java/com/codingwithmitch/audiostreamer/services/MediaService.java:139-144 | when the description's hash code is -1 it throws `IllegalArgumentException` and changes nothing; otherwise the item built from the description and its hash code is appended and every earlier item stays in place, the cursor becomes 0 if it was -1 and is otherwise unchanged, and nothing else changes |
| `SessionSpec.RemoveQueueItem` | app/src/main/java/com/codingwithmitch/audiostreamer/services/MediaService.java:147-151 | when the description's hash code is -1 it throws `IllegalArgumentException` and changes nothing; otherwise the playlist loses exactly its first item equal to the argument, or is unchanged if none is, and the cursor becomes -1 if the playlist is now empty and is otherwise left where it was |
| `SessionSpec.PlayFromMediaId` | app/src/main/java/com/codingwithmitch/audiostreamer/services/MediaService.java:116-136 | with the new-playlist flag the playlist is emptied, otherwise kept; the library entry (or none) becomes the prepared media, the session is active, and exactly one `PlayFromMedia` of it is appended; the cursor becomes the explicit position when one other than -1 is given, otherwise 0 after a reset and the wrapped old cursor plus one without |
| `SessionSpec.Prepare` | app/src/main/java/com/codingwithmitch/audiostreamer/services/MediaService.java:154-167 | no engine call and no cursor move; does nothing when the cursor is negative and the playlist empty; with the cursor in range it prepares the current item's library entry and activates the session; it throws `IndexOutOfBoundsException`, changing nothing, exactly in the remaining cases |
| `SessionSpec.Play` | app/src/main/java/com/codingwithmitch/audiostreamer/services/MediaService.java:170-183 | a no-op on an empty playlist; with media prepared it appends one `PlayFromMedia` of it; with nothing prepared and the cursor in range it prepares the current item and plays that; it throws, changing nothing, exactly when nothing is prepared and the cursor is out of range |
| `SessionSpec.Pause` | app/src/main/java/com/codingwithmitch/audiostreamer/services/MediaService.java:186-188 | appends `Pause` to the engine calls and changes nothing else |
| `SessionSpec.Stop` | app/src/main/java/com/codingwithmitch/audiostreamer/services/MediaService.java:191-194 | appends `Stop` and deactivates the session; playlist, cursor and prepared media are unchanged |
| `SessionSpec.SeekTo` | app/src/main/java/com/codingwithmitch/audiostreamer/services/MediaService.java:214-216 | appends `SeekTo(position)` and changes nothing else |
| `SessionSpec.SkipToNext` | app/src/main/java/com/codingwithmitch/audiostreamer/services/MediaService.java:197-203 | on an empty playlist it throws `ArithmeticException` with the cursor already incremented (with `int` wrap-around); on a non-empty one, for every cursor, the cursor becomes j, the Java remainder of the wrapped increment by the size; when j is not negative, item j's library entry is prepared and played and the session is active; when j is negative (a cursor below -1), the play throws `IndexOutOfBoundsException` with the prepared media cleared; for a cursor from -1 up to, but not including, the largest `int`, j is (cursor + 1) mod size |
| `SessionSpec.SkipToPrevious` | app/src/main/java/com/codingwithmitch/audiostreamer/services/MediaService.java:206-211 | on an empty playlist no engine call is made, the prepared media is cleared and the cursor becomes cursor - 1 if positive, else -1; on a non-empty one the cursor becomes cursor - 1 when positive and the last position otherwise (also from a negative cursor); if that position is in range its item is prepared and played, and if it is past the end (a cursor more than one past the end) the play throws `IndexOutOfBoundsException` with the prepared media cleared |
| `SessionSpec.PlaybackComplete` | app/src/main/java/com/codingwithmitch/audiostreamer/services/MediaService.java:252-255 | exactly the skip-to-next transition, with the same clauses for every cursor: on an empty playlist the increment is stored and `ArithmeticException` is thrown; on a non-empty one the cursor becomes the Java remainder of the wrapped increment, that item is prepared and played when the remainder is not negative, and `IndexOutOfBoundsException` is thrown when it is; for a cursor from -1 up to, but not including, the largest `int`, the new cursor is (cursor + 1) mod size |
| `MediaService.MediaSessionCallback.constructor` | app/src/main/java/com/codingwithmitch/audiostreamer/services/MediaService.java:104-108 | the fields start as `SessionSpec.Initial` |
| `MediaService.MediaSessionCallback.ResetPlaylist` | app/src/main/java/com/codingwithmitch/audiostreamer/services/MediaService.java:110-113 | the new state is `SessionSpec.ResetPlaylist` of the old |
| `MediaService.MediaSessionCallback.OnPlayFromMediaId` | app/src/main/java/com/codingwithmitch/audiostreamer/services/MediaService.java:116-136 | the new state is `SessionSpec.PlayFromMediaId` of the old |
| `MediaService.MediaSessionCallback.OnAddQueueItem` | app/src/main/java/com/codingwithmitch/audiostreamer/services/MediaService.java:139-144 | the new state and outcome are `SessionSpec.AddQueueItem` of the old state, including the `IllegalArgumentException` for hash code -1 |
| `MediaService.MediaSessionCallback.OnRemoveQueueItem` | app/src/main/java/com/codingwithmitch/audiostreamer/services/MediaService.java:147-151 | the new state and outcome are `SessionSpec.RemoveQueueItem` of the old state, including the `IllegalArgumentException` for hash code -1 |
| `MediaService.MediaSessionCallback.OnPrepare` | app/src/main/java/com/codingwithmitch/audiostreamer/services/MediaService.java:154-167 | the new state and outcome are `SessionSpec.Prepare` of the old state |
| `MediaService.MediaSessionCallback.OnPlay` | app/src/main/java/com/codingwithmitch/audiostreamer/services/MediaService.java:170-183 | the new state and outcome are `SessionSpec.Play` of the old state, reached by calling `OnPrepare` when nothing is prepared |
| `MediaService.MediaSessionCallback.OnPause` | app/src/main/java/com/codingwithmitch/audiostreamer/services/MediaService.java:186-188 | the new state is `SessionSpec.Pause` of the old |
| `MediaService.MediaSessionCallback.OnStop` | app/src/main/java/com/codingwithmitch/audiostreamer/services/MediaService.java:191-194 | the new state is `SessionSpec.Stop` of the old |
| `MediaService.MediaSessionCallback.OnSkipToNext` | app/src/main/java/com/codingwithmitch/audiostreamer/services/MediaService.java:197-203 | the new state and outcome are `SessionSpec.SkipToNext` of the old state, reached through `OnPlay` |
| `MediaService.MediaSessionCallback.OnSkipToPrevious` | app/src/main/java/com/codingwithmitch/audiostreamer/services/MediaService.java:206-211 | the new state and outcome are `SessionSpec.SkipToPrevious` of the old state, reached through `OnPlay` |
| `MediaService.MediaSessionCallback.OnSeekTo` | app/src/main/java/com/codingwithmitch/audiostreamer/services/MediaService.java:214-216 | the new state is `SessionSpec.SeekTo` of the old |
| `MediaService.MediaSessionCallback.IsReadyToPlay` | app/src/main/java/com/codingwithmitch/audiostreamer/services/MediaService.java:218-220 | true exactly when the playlist is non-empty |
| `MediaService.MediaPlayerListener.OnPlaybackComplete` | app/src/main/java/com/codingwithmitch/audiostreamer/services/MediaService.java:252-255 | completion performs exactly the skip-to-next transition on the session callback |
| `MediaService.PlayOnFreshCallback` | app/src/main/java/com/codingwithmitch/audiostreamer/services/MediaService.java:170-175 | play on a new callback makes no engine call and leaves the cursor at -1 |
| `MediaService.AddTwoThenSkipToNext` | app/src/main/java/com/codingwithmitch/audiostreamer/services/MediaService.java:139-144 | after adding A and B the playlist is [A, B]; skipping to next selects position 1 and prepares and plays B's library entry |
| `MediaService.CompletionReplaysSingleton` | app/src/main/java/com/codingwithmitch/audiostreamer/services/MediaService.java:252-255 | on a one-item playlist, play then completion plays the same item twice and leaves the cursor at 0 |
| `MediaService.CompletionAfterNewPlaylist` | app/src/main/java/com/codingwithmitch/audiostreamer/services/MediaService.java:118-131 | play from a media id into a new playlist, then completion: the skip throws `ArithmeticException` after one engine call |
| `MediaService.AddWithUnknownId` | app/src/main/java/com/codingwithmitch/audiostreamer/services/MediaService.java:141 | adding a description whose hash code is -1 to a fresh callback throws `IllegalArgumentException` and leaves the playlist empty and the cursor at -1 |
| `SessionProperties.AddKeepsConsistent` | app/src/main/java/com/codingwithmitch/audiostreamer/services/MediaService.java:141-142 | adding keeps the cursor invariant, and the first item added becomes the selection |
| `SessionProperties.RemoveKeepsSelectionFlag` | app/src/main/java/com/codingwithmitch/audiostreamer/services/MediaService.java:148-149 | removal keeps "cursor is -1 exactly when the playlist is empty", so removing items one by one reaches -1 when the last goes and never before |
| `SessionProperties.TransportKeepsConsistent` | app/src/main/java/com/codingwithmitch/audiostreamer/services/MediaService.java:154-194 | from a consistent state, prepare and play return normally, and they, pause, stop and seek keep the cursor invariant |
| `SessionProperties.SkipKeepsConsistent` | app/src/main/java/com/codingwithmitch/audiostreamer/services/MediaService.java:197-211 | on a non-empty consistent playlist both skips return normally and keep the cursor invariant |
| `SessionProperties.SkipToNextTimesAdvances` | app/src/main/java/com/codingwithmitch/audiostreamer/services/MediaService.java:197-203 | k skips move the cursor to (cursor + k) mod size without throwing and without changing the playlist |
| `SessionProperties.SkipToNextFullCycle` | app/src/main/java/com/codingwithmitch/audiostreamer/services/MediaService.java:200 | as many skips as there are items bring the cursor back to its start |
| `SessionProperties.SkipToNextWrapsFromLast` | app/src/main/java/com/codingwithmitch/audiostreamer/services/MediaService.java:200 | from the last item, skipping to next selects and plays the first |
| `SessionProperties.SkipToPreviousWrapsFromFirst` | app/src/main/java/com/codingwithmitch/audiostreamer/services/MediaService.java:208 | from the first item, skipping to previous selects and plays the last |
| `SessionProperties.SkipsAreInverse` | app/src/main/java/com/codingwithmitch/audiostreamer/services/MediaService.java:197-211 | skip to previous after skip to next, and the reverse, return the cursor to its item and prepare that item again |
| `SessionProperties.SingletonSkipsReplay` | app/src/main/java/com/codingwithmitch/audiostreamer/services/MediaService.java:197-211 | on a one-item playlist both skips keep the cursor and play that item again |
| `SessionProperties.PlaybackCompleteReplaysSingleton` | app/src/main/java/com/codingwithmitch/audiostreamer/services/MediaService.java:252-255 | completion on a one-item playlist replays that item |
| `SessionProperties.RemovalDriftsCursor` | app/src/main/java/com/codingwithmitch/audiostreamer/services/MediaService.java:147-151 | on a playlist of two or more items with the last one selected, removing that last item leaves the cursor one past the end, and a following play with nothing prepared throws `IndexOutOfBoundsException` |
| `SessionProperties.RemovalBeforeCursorShiftsSelection` | app/src/main/java/com/codingwithmitch/audiostreamer/services/MediaService.java:149 | removing an item before the selection makes the unchanged cursor name the item that followed the selected one |
| `SessionProperties.PlayFromMediaIdPassesEnd` | app/src/main/java/com/codingwithmitch/audiostreamer/services/MediaService.java:129-132 | with the last item selected and no explicit position, play from a media id moves the cursor past the end, and prepare then throws |
| `SessionProperties.CompletionAfterNewPlaylistThrows` | app/src/main/java/com/codingwithmitch/audiostreamer/services/MediaService.java:118-119 | after play from a media id into a new playlist, engine completion throws `ArithmeticException` |
| `SessionProperties.SkipFromNegativeCursorThrows` | app/src/main/java/com/codingwithmitch/audiostreamer/services/MediaService.java:200 | from a cursor below -1 whose successor the size does not divide, the truncating remainder makes the cursor minus ((-(cursor + 1)) mod size), a negative value, and the play that follows throws `IndexOutOfBoundsException` |
| `SessionProperties.PlayOnFreshSessionIsNoop` | app/src/main/java/com/codingwithmitch/audiostreamer/services/MediaService.java:172-175 | play on the initial state changes nothing and makes no engine call |
| `SessionProperties.AddTwoThenSkip` | app/src/main/java/com/codingwithmitch/audiostreamer/services/MediaService.java:139-144 | adding A then B gives [A, B] with cursor 0; skipping to next selects B and makes exactly one engine call, which plays B's library entry |

## Left out

- Service lifecycle (`onCreate`, `onTaskRemoved`, `onDestroy`): they build and release Android framework objects.
- Browsing (`onGetRoot`, `onLoadChildren`): these are package-name checks and result delivery over framework types.
- `MediaPlayerListener.updateUI` and `MediaPlayerListener.onSeekTo`: they only send broadcast intents.
- `MediaPlayerListener.onPlaybackStateChange`: it only forwards the engine's state to the media session.
- `mSession.setMetadata` and `mSession.setQueue`: these mirror the state to the session and add no logic. The session is reduced to its activity flag.
- `MediaPlayerAdapter`: it is not part of this model. The engine is the log of calls made on it.
- Asynchronous delivery: transport controls and engine callbacks are modelled as synchronous method calls, and threading is not modelled.
- `Log.d` calls.
- `null` arguments (a null `extras` bundle, description or media id): each would throw `NullPointerException` in the code. The model's parameters are never null.
- `MediaDescriptionCompat.hashCode()` and `QueueItem.equals`: the Android library's code is not part of this model. They are parameters (`Platform.hashCode`, `Platform.itemEquals`), and `Platform.itemEquals` is applied as `List.remove` applies `equals`: argument first, list element second.
- Behaviour the code does not have: rejecting unknown media ids, moving the cursor on removal, and guarding against repeated auto-advance.
- `MediaService.MediaSessionCallback.OnSkipToPrevious`: requires at most 2^31-1 items, the largest size a Java list reports (the same bound is on `SessionSpec.SkipToPrevious`).
