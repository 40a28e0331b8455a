/** Values shared by the session model: the Android media types the callback handles,
    the calls it makes on the playback engine, and Java's 32-bit `int` arithmetic. */
module MediaTypes {

  datatype Option<+T> = None | Some(value: T)

  /** Java `int` and `long`. */
  const MinInt32: int := -0x8000_0000
  const MaxInt32: int := 0x7fff_ffff
  type Int32 = x: int | MinInt32 <= x <= MaxInt32
  type Int64 = x: int | -0x8000_0000_0000_0000 <= x <= 0x7fff_ffff_ffff_ffff

  /** Java's `x + 1` on an `int` (used by `x++` and `++x`): wraps from the largest to the smallest value. */
  function Inc32(x: Int32): (r: Int32)
    ensures x < MaxInt32 ==> r == x + 1
    ensures x == MaxInt32 ==> r == MinInt32
  {
    if x == MaxInt32 then MinInt32 else x + 1
  }

  // Remainders (Dafny's `%` on a positive divisor is the Euclidean one)

  /** The remainder of a non-negative dividend never exceeds the dividend. */
  lemma RemainderBounds(a: int, b: int)
    requires a >= 0 && b > 0
    ensures 0 <= a % b <= a && a % b < b
  {
  }

  lemma SmallRemainder(j: int, n: int)
    requires 0 <= j < n
    ensures j % n == j
  {
  }

  lemma MultipleBelowModulus(d: int, n: int, e: int)
    requires n > 0 && d * n == e && -n < e < n
    ensures d == 0
  {
  }

  /** A multiple of the modulus has remainder 0. */
  lemma MultipleRemainder(q: int, n: int)
    requires n > 0
    ensures (q * n) % n == 0
  {
    var x := q * n;
    assert x == x / n * n + x % n;
    assert (q - x / n) * n == x % n;
    MultipleBelowModulus(q - x / n, n, x % n);
  }

  /** Adding the modulus does not change a remainder. */
  lemma AddModulus(x: int, n: int)
    requires n > 0 && x >= 0
    ensures (x + n) % n == x % n
  {
    var q, r := x / n, x % n;
    var q', r' := (x + n) / n, (x + n) % n;
    assert x == q * n + r;
    assert x + n == q' * n + r';
    assert (q' - q - 1) * n == r - r';
    MultipleBelowModulus(q' - q - 1, n, r - r');
  }

  /** One step forward then k more is k + 1 steps forward. */
  lemma ModAddOne(i: int, k: nat, n: int)
    requires 0 <= i < n
    ensures ((i + 1) % n + k) % n == (i + 1 + k) % n
  {
    if i + 1 < n {
      SmallRemainder(i + 1, n);
    } else {
      SmallRemainder(0, n);
      AddModulus(k, n);
    }
  }

  /** Java's `a % b` for a positive divisor: the remainder takes the sign of the dividend, is smaller than the
      divisor in magnitude, and differs from the dividend by a multiple of the divisor. */
  function JavaRem(a: int, b: int): (r: int)
    requires b > 0
    ensures a >= 0 ==> r == a % b && 0 <= r <= a
    ensures a < 0 ==> a <= r <= 0 && -b < r
    ensures (a - r) % b == 0
  {
    var m := (if a >= 0 then a else -a) % b;
    var q := (if a >= 0 then a else -a) / b;
    RemainderBounds(if a >= 0 then a else -a, b);
    assert (if a >= 0 then a else -a) == q * b + m;
    if a >= 0 then
      assert a - m == q * b;
      MultipleRemainder(q, b);
      m
    else
      assert a + m == (-q) * b;
      MultipleRemainder(-q, b);
      -m
  }

  /** The media id a library entry is stored under. */
  type MediaId = string

  /** `MediaMetadataCompat`: what the library stores and the engine plays; its content is not inspected. */
  type Metadata(==)

  /** The parts of a `MediaDescriptionCompat` other than its media id; never inspected. */
  type DescriptionDetails(==)

  /** `MediaDescriptionCompat`: identifies a track by its media id. */
  datatype Description = Description(mediaId: MediaId, details: DescriptionDetails)

  /** `MediaSessionCompat.QueueItem`: a description and the queue id it was created with. */
  datatype QueueItem = QueueItem(description: Description, queueId: Int32)

  /** `MediaSessionCompat.QueueItem.UNKNOWN_ID`: the queue id the `QueueItem` constructor refuses. */
  const UnknownId: Int32 := -1

  /** The `extras` bundle of a play-from-media-id command; `None` is a key that is not in the bundle. */
  datatype Extras = Extras(newPlaylist: Option<bool>, queuePosition: Option<Int32>)
  {
    /** `extras.getBoolean(QUEUE_NEW_PLAYLIST, false)` */
    function NewPlaylist(): (b: bool)
      ensures b <==> newPlaylist == Some(true)
    {
      match newPlaylist
      case Some(v) => v
      case None => false
    }

    /** `extras.getInt(MEDIA_QUEUE_POSITION, -1)` */
    function QueuePositionOr(default: Int32): (p: Int32)
      ensures queuePosition.None? ==> p == default
      ensures queuePosition.Some? ==> p == queuePosition.value
    {
      match queuePosition
      case Some(v) => v
      case None => default
    }
  }

  /** One call made on the playback engine (`MediaPlayerAdapter`). `PlayFromMedia(None)` is a call with `null`. */
  datatype EngineCall = PlayFromMedia(media: Option<Metadata>) | Pause | Stop | SeekTo(position: Int64)

  /** Collaborators whose code is not part of the model: the media library of the application object,
      `MediaDescriptionCompat.hashCode()` and the `equals` that `List.remove` applies to queue items. */
  datatype Platform = Platform(
    library: map<MediaId, Metadata>,
    hashCode: Description -> Int32,
    itemEquals: (QueueItem, QueueItem) -> bool)
  {
    /** `getTreeMap().get(mediaId)`: `None` (Java `null`) when the id is not in the library. */
    function Lookup(mediaId: MediaId): (m: Option<Metadata>)
      ensures m.Some? <==> mediaId in library
      ensures m.Some? ==> m.value == library[mediaId]
    {
      if mediaId in library then Some(library[mediaId]) else None
    }

    /** `new MediaSessionCompat.QueueItem(description, description.hashCode())`, for a description whose
        hash code the constructor accepts (it throws `IllegalArgumentException` on `UnknownId`). */
    function ItemOf(description: Description): (item: QueueItem)
      requires hashCode(description) != UnknownId
      ensures item.description == description
      ensures item.queueId == hashCode(description)
    {
      QueueItem(description, hashCode(description))
    }
  }

  /** How a callback ends: normally, or by throwing an unchecked Java exception. */
  datatype JavaException = ArithmeticException | IndexOutOfBoundsException | IllegalArgumentException
  datatype Outcome = Returned | Threw(exception: JavaException)
}
