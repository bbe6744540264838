/** The append-only event stream of src/core/format/stream.rs: a vector of
    events whose `push` checks each new event against the whole history. */
module EventStream {
  import opened Ids
  import opened Wrappers
  import opened Errors
  import opened Events
  import opened Schema

  ghost predicate IsCreateOf(e: Event, id: Id) {
    e.Create? && e.entity.EntityId() == id
  }

  ghost predicate IsDeleteOf(e: Event, id: Id) {
    e.Delete? && e.entityId == id
  }

  /** Some event of `h` is a Create of `id`. */
  ghost predicate HasCreate(h: seq<Event>, id: Id) {
    exists i :: 0 <= i < |h| && IsCreateOf(h[i], id)
  }

  /** Some event of `h` is a Delete of `id`. */
  ghost predicate HasDelete(h: seq<Event>, id: Id) {
    exists i :: 0 <= i < |h| && IsDeleteOf(h[i], id)
  }

  /** `create_exists`: a scan for a Create carrying `id`; Edit and Delete
      events never match. */
  function CreateExists(h: seq<Event>, id: Id): (b: bool)
    ensures b <==> HasCreate(h, id)
  {
    if h == [] then false
    else
      var here := match h[0]
        case Create(_, _, entity) => entity.EntityId() == id
        case _ => false;
      assert here ==> IsCreateOf(h[0], id);
      assert HasCreate(h[1..], id) ==> HasCreate(h, id) by {
        if HasCreate(h[1..], id) {
          var i :| 0 <= i < |h| - 1 && IsCreateOf(h[1..][i], id);
          assert IsCreateOf(h[i + 1], id);
        }
      }
      here || CreateExists(h[1..], id)
  }

  /** `delete_exists`, named as in the source, which is the reverse of what it
      computes: true when NO Delete of `id` occurs. It scans from the newest
      event back, as `iter().rev().any(..)` does, and negates. */
  function DeleteExists(h: seq<Event>, id: Id): (b: bool)
    ensures b <==> !HasDelete(h, id)
  {
    if h == [] then true
    else
      var last := h[|h| - 1];
      var here := match last
        case Delete(_, _, entityId) => entityId == id
        case _ => false;
      assert here ==> IsDeleteOf(h[|h| - 1], id);
      assert HasDelete(h[..|h| - 1], id) ==> HasDelete(h, id) by {
        if HasDelete(h[..|h| - 1], id) {
          var i :| 0 <= i < |h| - 1 && IsDeleteOf(h[..|h| - 1][i], id);
          assert IsDeleteOf(h[i], id);
        }
      }
      if here then false else DeleteExists(h[..|h| - 1], id)
  }

  /** The outcome `push` gives for `e` against history `h`:
      a Create must not reuse the id of an earlier Create;
      an Edit needs an earlier Create (earlier Deletes are not consulted);
      a Delete needs an earlier Create, and then no earlier Delete. */
  ghost function Verdict(h: seq<Event>, e: Event): (r: Outcome<Error>)
    ensures r.Fail? ==> r.error in {EntityIdExists(e.Target()), EntityDoesNotExist(e.Target()),
                                    EntityAlreadyDeleted(e.Target())}
    ensures r.Pass? ==> HasCreate(h, e.Target()) != e.Create?
  {
    match e
    case Create(_, _, entity) =>
      if HasCreate(h, entity.EntityId()) then Fail(EntityIdExists(entity.EntityId())) else Pass
    case Edit(_, _, entity) =>
      if HasCreate(h, entity.EntityId()) then Pass else Fail(EntityDoesNotExist(entity.EntityId()))
    case Delete(_, _, entityId) =>
      if !HasCreate(h, entityId) then Fail(EntityDoesNotExist(entityId))
      else if HasDelete(h, entityId) then Fail(EntityAlreadyDeleted(entityId))
      else Pass
  }

  /** What every stream built by `push` from an empty one satisfies:
      at most one Create per entity id, every Edit and Delete preceded by a
      Create of its id, and at most one Delete per entity id. */
  ghost predicate WellFormed(h: seq<Event>) {
    && (forall i, j :: 0 <= i < j < |h| && h[i].Create? && h[j].Create? ==>
          h[i].entity.EntityId() != h[j].entity.EntityId())
    && (forall j :: 0 <= j < |h| && !h[j].Create? ==> HasCreate(h[..j], h[j].Target()))
    && (forall i, j :: 0 <= i < j < |h| && h[i].Delete? && h[j].Delete? ==> h[i].entityId != h[j].entityId)
  }

  /** An accepted push keeps a well-formed stream well-formed. */
  lemma PushPreservesWellFormed(h: seq<Event>, e: Event)
    requires WellFormed(h)
    requires Verdict(h, e) == Pass
    ensures WellFormed(h + [e])
  {
    var h' := h + [e];
    assert h'[..|h|] == h;
    forall j | 0 <= j < |h| && !h'[j].Create?
      ensures HasCreate(h'[..j], h'[j].Target())
    {
      assert h'[..j] == h[..j];
    }
    if e.Create? {
      forall i | 0 <= i < |h| && h[i].Create?
        ensures h[i].entity.EntityId() != e.entity.EntityId()
      {
        assert !IsCreateOf(h[i], e.entity.EntityId());
      }
    }
    if e.Delete? {
      forall i | 0 <= i < |h| && h[i].Delete?
        ensures h[i].entityId != e.entityId
      {
        if h[i].entityId == e.entityId {
          assert IsDeleteOf(h[i], e.entityId);
        }
      }
    }
  }

  /** Well-formedness is exactly "every event would have been accepted at the
      point where it stands": the well-formed streams are the ones `push`
      can build. */
  lemma {:induction false} WellFormedIffAccepted(h: seq<Event>)
    ensures WellFormed(h) <==> forall j :: 0 <= j < |h| ==> Verdict(h[..j], h[j]) == Pass
  {
    if WellFormed(h) {
      forall j | 0 <= j < |h|
        ensures Verdict(h[..j], h[j]) == Pass
      {
      }
    }
    if forall j :: 0 <= j < |h| ==> Verdict(h[..j], h[j]) == Pass {
      forall i, j | 0 <= i < j < |h| && h[i].Create? && h[j].Create?
        ensures h[i].entity.EntityId() != h[j].entity.EntityId()
      {
        assert Verdict(h[..j], h[j]) == Pass;
        assert h[..j][i] == h[i];
        assert !IsCreateOf(h[..j][i], h[j].entity.EntityId());
      }
      forall i, j | 0 <= i < j < |h| && h[i].Delete? && h[j].Delete?
        ensures h[i].entityId != h[j].entityId
      {
        assert Verdict(h[..j], h[j]) == Pass;
        assert h[..j][i] == h[i];
        assert !IsDeleteOf(h[..j][i], h[j].entityId);
      }
      forall j | 0 <= j < |h| && !h[j].Create?
        ensures HasCreate(h[..j], h[j].Target())
      {
        assert Verdict(h[..j], h[j]) == Pass;
      }
    }
  }

  /** Editing a deleted entity is accepted: the Edit rule looks only for an
      earlier Create. */
  lemma EditAfterDeleteAccepted(h: seq<Event>, c: Event, d: Event, e: Event)
    requires c.Create? && d.Delete? && e.Edit?
    requires d.entityId == c.entity.EntityId() && e.entity.EntityId() == c.entity.EntityId()
    ensures Verdict(h + [c] + [d], e) == Pass
  {
    assert IsCreateOf((h + [c] + [d])[|h|], e.entity.EntityId());
  }

  class Stream {
    /** The owned `Vec<Event>`, in insertion order; iterating a stream
        yields exactly this sequence. */
    var events: seq<Event>

    /** `Stream::new`: no events. */
    constructor ()
      ensures events == [] && WellFormed(events)
    {
      events := [];
    }

    /** `Stream::from_buffer`: a stream holding the decoded events, or the
        `DeserializeFailed` error. */
    static method FromBuffer(buf: Json) returns (r: Result<Stream, Error>)
      ensures DecodeStream(buf).Failure? ==> r == Failure(DecodeStream(buf).error)
      ensures r.Failure? ==> r.error.DeserializeFailed?
      ensures DecodeStream(buf).Success? ==> r.Success? && fresh(r.value) && r.value.events == DecodeStream(buf).value
    {
      var decoded := DecodeStream(buf);
      if decoded.Failure? {
        return Failure(decoded.error);
      }
      var s := new Stream();
      s.events := decoded.value;
      return Success(s);
    }

    /** `Stream::to_buffer`; serialising these types never fails, so this
        model returns the buffer itself. */
    function ToBuffer(): (buf: Json)
      reads this
      ensures buf == EncodeStream(events)
      ensures (forall i :: 0 <= i < |events| ==> EventRepresentable(events[i])) ==>
                DecodeStream(buf) == Success(events)
    {
      var whole := forall i :: 0 <= i < |events| ==> EventRepresentable(events[i]);
      assert whole ==> DecodeStream(EncodeStream(events)) == Success(events) by {
        if whole { StreamRoundTrip(events); }
      }
      EncodeStream(events)
    }

    /** `Stream::push`: validate `e` against the history, then append it.
        Every error returns before the append, so a rejected event leaves the
        stream as it was. */
    method Push(e: Event) returns (r: Outcome<Error>)
      modifies this
      ensures r == Verdict(old(events), e)
      ensures r.Pass? ==> events == old(events) + [e]
      ensures r.Fail? ==> events == old(events)
      ensures WellFormed(old(events)) ==> WellFormed(events)
    {
      match e {
        case Edit(_, _, entity) =>
          var id := entity.EntityId();
          if !CreateExists(events, id) {
            return Fail(EntityDoesNotExist(id));
          }
        case Create(_, _, entity) =>
          var id := entity.EntityId();
          // Entity ids are fresh when the program is right; a clash is a
          // logic error of the caller.
          if CreateExists(events, id) {
            return Fail(EntityIdExists(id));
          }
        case Delete(_, _, entityId) =>
          if !CreateExists(events, entityId) {
            return Fail(EntityDoesNotExist(entityId));
          }
          if !DeleteExists(events, entityId) {
            return Fail(EntityAlreadyDeleted(entityId));
          }
      }
      if WellFormed(events) {
        PushPreservesWellFormed(events, e);
      }
      events := events + [e];
      r := Pass;
    }
  }

  /** The conflicting-id case of stream.rs: a second Create of one entity id
      is refused with that id and the stream keeps its single event. */
  method CreateTwiceScenario(id: Id, e1: Id, e2: Id, c: Instant, t1: Instant, t2: Instant)
    returns (first: Outcome<Error>, second: Outcome<Error>, length: nat)
    ensures first == Pass && second == Fail(EntityIdExists(id)) && length == 1
  {
    var s := new Stream();
    first := s.Push(Create(e1, c, Login(id, t1)));
    assert IsCreateOf(s.events[0], id);
    second := s.Push(Create(e2, c, Login(id, t2)));
    length := |s.events|;
  }

  /** The delete-twice case of stream.rs: the first Delete is accepted, the
      second is refused with `EntityAlreadyDeleted`. Deleting an id that was
      never created is refused with `EntityDoesNotExist`. */
  method DeleteScenario(id: Id, other: Id, e1: Id, e2: Id, c: Instant, t: Instant)
    returns (first: Outcome<Error>, second: Outcome<Error>, unknown: Outcome<Error>)
    requires other != id
    ensures first == Pass && second == Fail(EntityAlreadyDeleted(id))
    ensures unknown == Fail(EntityDoesNotExist(other))
  {
    var s := new Stream();
    var created := s.Push(Create(e1, c, Login(id, t)));
    assert IsCreateOf(s.events[0], id);
    first := s.Push(Delete(e2, c, id));
    assert IsDeleteOf(s.events[1], id);
    second := s.Push(Delete(e2, c, id));
    unknown := s.Push(Delete(e2, c, other));
  }

  /** An Edit with no earlier Create is refused with its entity id. */
  method EditUnknownScenario(id: Id, e1: Id, c: Instant, t: Instant) returns (r: Outcome<Error>)
    ensures r == Fail(EntityDoesNotExist(id))
  {
    var s := new Stream();
    r := s.Push(Edit(e1, c, Login(id, t)));
  }
}
