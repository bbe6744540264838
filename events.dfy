/** The closed `Entity` and `Event` unions of src/core/format/stream.rs and
    the accessors the core uses on them. */
module Events {
  import opened Ids

  /** A UTC instant (`DateTime<Utc>`), as an integer on a fixed time line. */
  type Instant = int

  /** A `chrono::Duration`, as its total number of nanoseconds. */
  type Duration = int

  const NanosPerSecond: int := 1_000_000_000

  /** `Duration::num_seconds`: whole seconds, truncating toward zero (Dafny's
      own `/` rounds toward negative infinity on negative numerators). */
  function NumSeconds(d: Duration): (s: int)
    ensures -NanosPerSecond < d - s * NanosPerSecond < NanosPerSecond
    ensures d >= 0 ==> 0 <= s * NanosPerSecond <= d
    ensures d <= 0 ==> d <= s * NanosPerSecond <= 0
  {
    if d >= 0 then d / NanosPerSecond else -((-d) / NanosPerSecond)
  }

  /** `Duration::seconds`: a whole number of seconds, which `NumSeconds`
      reads back unchanged. */
  function Seconds(s: int): (d: Duration)
    ensures WholeSeconds(d) && NumSeconds(d) == s
  {
    if s < 0 then
      assert -(s * NanosPerSecond) == (-s) * NanosPerSecond;
      s * NanosPerSecond
    else
      s * NanosPerSecond
  }

  predicate WholeSeconds(d: Duration) {
    d % NanosPerSecond == 0
  }

  /** Converting to whole seconds and back loses exactly the sub-second part. */
  lemma SecondsOfNumSeconds(d: Duration)
    ensures WholeSeconds(d) <==> Seconds(NumSeconds(d)) == d
  {
    if d >= 0 {
      assert d == (d / NanosPerSecond) * NanosPerSecond + d % NanosPerSecond;
    } else {
      var n := -d;
      assert n == (n / NanosPerSecond) * NanosPerSecond + n % NanosPerSecond;
      if WholeSeconds(d) {
        assert (d + n) % NanosPerSecond == 0;
        assert n % NanosPerSecond == 0;
      }
    }
  }

  datatype Entity =
    | Login(id: Id, timestamp: Instant)
    | Logout(id: Id, timestamp: Instant)
    | Break(id: Id, timestamp: Instant, duration: Duration, autoinsert: bool)
    | Activity(id: Id, timestamp: Instant, duration: Duration, value: string, autoinsert: bool)
  {
    /** The `entity_id` shared by every variant, by exhaustive match. */
    function EntityId(): Id {
      match this
      case Login(id, _) => id
      case Logout(id, _) => id
      case Break(id, _, _, _) => id
      case Activity(id, _, _, _, _) => id
    }

    /** The `timestamp` shared by every variant, by exhaustive match. */
    function Timestamp(): Instant {
      match this
      case Login(_, t) => t
      case Logout(_, t) => t
      case Break(_, t, _, _) => t
      case Activity(_, t, _, _, _) => t
    }
  }

  datatype Event =
    | Create(eventId: Id, createdAt: Instant, entity: Entity)
    | Edit(eventId: Id, createdAt: Instant, entity: Entity)
    | Delete(eventId: Id, createdAt: Instant, entityId: Id)
  {
    /** The entity id an event acts on: the entity's own id for Create and
        Edit, the `entity_id` field for Delete. */
    function Target(): Id {
      match this
      case Create(_, _, entity) => entity.EntityId()
      case Edit(_, _, entity) => entity.EntityId()
      case Delete(_, _, entityId) => entityId
    }
  }
}
