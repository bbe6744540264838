/** Replay (src/core/state.rs): fold a stream into a map from entity id to the
    latest entity, then list the surviving entities ordered by timestamp. */
module Projection {
  import opened Ids
  import opened Wrappers
  import opened Events
  import opened EventStream

  /** The derived state: live entities, ordered by timestamp. `State::iter`
      yields `entities` in this order. */
  datatype State = State(entities: seq<Entity>)

  /** One step of the fold: Create and Edit overwrite the entry of their
      entity's id; Delete removes the entry, which does nothing when the id
      is absent. */
  ghost function Apply(m: map<Id, Entity>, e: Event): map<Id, Entity> {
    match e
    case Create(_, _, entity) => m[entity.EntityId() := entity]
    case Edit(_, _, entity) => m[entity.EntityId() := entity]
    case Delete(_, _, entityId) => m - {entityId}
  }

  /** A step changes only the entry of the event's target: Create and Edit
      leave it holding the event's entity, Delete leaves it absent. */
  lemma ApplyChangesOnlyTarget(m: map<Id, Entity>, e: Event)
    ensures e.Delete? <==> e.Target() !in Apply(m, e)
    ensures !e.Delete? ==> Apply(m, e)[e.Target()] == e.entity
    ensures forall k :: k in m && k != e.Target() ==> k in Apply(m, e) && Apply(m, e)[k] == m[k]
    ensures forall k :: k in Apply(m, e) && k != e.Target() ==> k in m
  {
  }

  /** The map the replay loop holds after the events `h`. Every entry is
      filed under the entity's own id. */
  ghost function Fold(h: seq<Event>): (m: map<Id, Entity>)
    ensures forall k :: k in m ==> m[k].EntityId() == k
  {
    if h == [] then map[] else Apply(Fold(h[..|h| - 1]), h[|h| - 1])
  }

  predicate Mentions(e: Event, id: Id) {
    e.Target() == id
  }

  /** The position of the last event of `h` that acts on `id`, if any. */
  function LastMention(h: seq<Event>, id: Id): (r: Option<nat>)
    ensures r.Some? ==> r.value < |h| && Mentions(h[r.value], id)
    ensures r.Some? ==> forall j :: r.value < j < |h| ==> !Mentions(h[j], id)
    ensures r.None? ==> forall j :: 0 <= j < |h| ==> !Mentions(h[j], id)
  {
    if h == [] then None
    else if Mentions(h[|h| - 1], id) then Some(|h| - 1)
    else LastMention(h[..|h| - 1], id)
  }

  /** An id is live after replay exactly when the last event acting on it is
      a Create or an Edit, and its entity is that event's entity: the last
      write wins. */
  lemma {:induction false} FoldIsLastWrite(h: seq<Event>, id: Id)
    ensures id in Fold(h) <==> LastMention(h, id).Some? && !h[LastMention(h, id).value].Delete?
    ensures id in Fold(h) ==> Fold(h)[id] == h[LastMention(h, id).value].entity
  {
    if h != [] {
      var p := h[..|h| - 1];
      FoldIsLastWrite(p, id);
      if !Mentions(h[|h| - 1], id) {
        assert LastMention(h, id) == LastMention(p, id);
        if LastMention(p, id).Some? {
          assert h[LastMention(p, id).value] == p[LastMention(p, id).value];
        }
      }
    }
  }

  /** A Delete of an id that is not live changes nothing. */
  lemma DeleteOfAbsentIsNoop(h: seq<Event>, e: Event)
    requires e.Delete? && e.entityId !in Fold(h)
    ensures Fold(h + [e]) == Fold(h)
  {
    assert (h + [e])[..|h|] == h;
  }

  /** In a well-formed stream every live id was created. */
  lemma {:induction false} LiveIdsWereCreated(h: seq<Event>, id: Id)
    requires WellFormed(h)
    requires id in Fold(h)
    ensures HasCreate(h, id)
  {
    FoldIsLastWrite(h, id);
    var j := LastMention(h, id).value;
    if !h[j].Create? {
      var p := h[..j];
      assert HasCreate(p, id);
      var i :| 0 <= i < |p| && IsCreateOf(p[i], id);
      assert h[i] == p[i];
    } else {
      assert IsCreateOf(h[j], id);
    }
  }

  predicate SortedByTimestamp(s: seq<Entity>) {
    forall i, j :: 0 <= i < j < |s| ==> s[i].Timestamp() <= s[j].Timestamp()
  }

  /** A value filed under its own id is not among the values of the other
      keys, so removing one key takes exactly one copy out of the values. */
  lemma TakeValue(m: map<Id, Entity>, k: Id)
    requires k in m
    requires forall j :: j in m ==> m[j].EntityId() == j
    ensures multiset(m.Values) == multiset((m - {k}).Values) + multiset{m[k]}
  {
    var rest := m - {k};
    assert m[k] !in rest.Values;
    forall v | v in m.Values
      ensures v in rest.Values + {m[k]}
    {
      var j :| j in m && m[j] == v;
      if j != k {
        assert rest[j] == v;
      }
    }
    assert m.Values == rest.Values + {m[k]};
  }

  /** Two equal elements at different positions occur at least twice. */
  lemma TwiceCounted(s: seq<Entity>, i: nat, j: nat)
    requires i < j < |s| && s[i] == s[j]
    ensures multiset(s)[s[i]] >= 2
  {
    assert s == s[..j] + [s[j]] + s[j + 1..];
    assert s[..j][i] == s[i];
    assert multiset(s[..j])[s[i]] >= 1;
  }

  /** A sequence with the same elements as the values of such a map carries
      at most one entity per id, and each is the map's entry for its id. */
  lemma EntriesOfValues(s: seq<Entity>, m: map<Id, Entity>)
    requires multiset(s) == multiset(m.Values)
    requires forall k :: k in m ==> m[k].EntityId() == k
    ensures forall i :: 0 <= i < |s| ==> s[i].EntityId() in m && m[s[i].EntityId()] == s[i]
    ensures forall i, j :: 0 <= i < j < |s| ==> s[i].EntityId() != s[j].EntityId()
  {
    forall i | 0 <= i < |s|
      ensures s[i].EntityId() in m && m[s[i].EntityId()] == s[i]
    {
      assert s[i] in multiset(s);
      assert s[i] in m.Values;
    }
    forall i, j | 0 <= i < j < |s|
      ensures s[i].EntityId() != s[j].EntityId()
    {
      if s[i].EntityId() == s[j].EntityId() {
        TwiceCounted(s, i, j);
      }
    }
  }

  /** `sort_by_key(timestamp)`, in place (an insertion sort). */
  method SortByTimestamp(a: array<Entity>)
    modifies a
    ensures SortedByTimestamp(a[..])
    ensures multiset(a[..]) == multiset(old(a[..]))
  {
    for i := 0 to a.Length
      invariant SortedByTimestamp(a[..i])
      invariant multiset(a[..]) == multiset(old(a[..]))
    {
      InsertLast(a, i);
    }
    assert a[..a.Length] == a[..];
  }

  /** Moves `a[i]` down into the sorted prefix `a[..i]`. */
  method InsertLast(a: array<Entity>, i: nat)
    requires i < a.Length && SortedByTimestamp(a[..i])
    modifies a
    ensures SortedByTimestamp(a[..i + 1])
    ensures multiset(a[..]) == multiset(old(a[..]))
  {
    var j := i;
    while j > 0 && a[j - 1].Timestamp() > a[j].Timestamp()
      invariant 0 <= j <= i
      invariant multiset(a[..]) == multiset(old(a[..]))
      invariant forall p, q :: 0 <= p < q <= i && p != j && q != j ==> a[p].Timestamp() <= a[q].Timestamp()
      invariant forall q :: j < q <= i ==> a[j].Timestamp() < a[q].Timestamp()
    {
      Swap(a, j - 1, j);
      j := j - 1;
    }
  }

  method Swap(a: array<Entity>, i: nat, j: nat)
    requires i < j < a.Length
    modifies a
    ensures a[i] == old(a[j]) && a[j] == old(a[i])
    ensures forall k :: 0 <= k < a.Length && k != i && k != j ==> a[k] == old(a[k])
    ensures multiset(a[..]) == multiset(old(a[..]))
  {
    a[i], a[j] := a[j], a[i];
  }

  /** `replay`: fold the events in order into a map, collect its values in
      whatever order the map yields them, and sort them by timestamp. The
      result is a permutation of the surviving entities, sorted, with one
      entity per live id. */
  method Replay(stream: Stream) returns (state: State)
    ensures multiset(state.entities) == multiset(Fold(stream.events).Values)
    ensures SortedByTimestamp(state.entities)
    ensures forall i :: 0 <= i < |state.entities| ==>
              var id := state.entities[i].EntityId();
              id in Fold(stream.events) && Fold(stream.events)[id] == state.entities[i]
    ensures forall i, j :: 0 <= i < j < |state.entities| ==>
              state.entities[i].EntityId() != state.entities[j].EntityId()
    ensures stream.events == [] ==> state.entities == []
  {
    var events := stream.events;
    var m: map<Id, Entity> := map[];
    for i := 0 to |events|
      invariant m == Fold(events[..i])
    {
      assert events[..i + 1][..i] == events[..i];
      match events[i] {
        case Create(_, _, entity) =>
          m := m[entity.EntityId() := entity];
        case Edit(_, _, entity) =>
          m := m[entity.EntityId() := entity];
        case Delete(_, _, entityId) =>
          m := m - {entityId};
      }
    }
    assert events[..|events|] == events;

    // `into_values().collect()`: the order of a HashMap is unspecified, so
    // each step takes any remaining entry.
    var rest := m;
    var values: seq<Entity> := [];
    while rest != map[]
      invariant forall k :: k in rest ==> k in m && rest[k] == m[k]
      invariant multiset(values) + multiset(rest.Values) == multiset(m.Values)
      decreases |rest|
    {
      var k :| k in rest;
      TakeValue(rest, k);
      values := values + [rest[k]];
      rest := rest - {k};
    }
    assert rest.Values == {};

    var a := new Entity[|values|](i requires 0 <= i < |values| => values[i]);
    assert a[..] == values;
    SortByTimestamp(a);
    state := State(a[..]);
    EntriesOfValues(state.entities, m);
    if events == [] {
      assert multiset(state.entities) == multiset{};
    }
  }

  /** A sequence holding one value exactly once is that value alone. */
  lemma OnlyElement(s: seq<Entity>, x: Entity)
    requires multiset(s) == multiset{x}
    ensures s == [x]
  {
    assert |s| == |multiset(s)| == 1;
    assert s[0] in multiset(s);
  }

  /** One more event is one more step of the fold. */
  /** An Edit accepted after its entity's Delete brings the entity back:
      the loop re-inserts it, so the id is live again with the Edit's
      entity. */
  lemma EditRevivesDeleted(h: seq<Event>, c: Event, d: Event, e: Event)
    requires c.Create? && d.Delete? && e.Edit?
    requires d.entityId == c.entity.EntityId() && e.entity.EntityId() == c.entity.EntityId()
    ensures c.entity.EntityId() !in Fold(h + [c] + [d])
    ensures c.entity.EntityId() in Fold(h + [c] + [d] + [e])
    ensures Fold(h + [c] + [d] + [e])[c.entity.EntityId()] == e.entity
  {
    FoldSnoc(h + [c], d);
    FoldSnoc(h + [c] + [d], e);
  }

  lemma FoldSnoc(h: seq<Event>, e: Event)
    ensures Fold(h + [e]) == Apply(Fold(h), e)
  {
    assert (h + [e])[..|h|] == h;
  }

  /** The edit cases of state.rs: after a Create and two Edits of one id the
      state is that id's entity with the last timestamp, and nothing else. */
  method EditScenario(id: Id, e1: Id, e2: Id, e3: Id, c: Instant, t1: Instant, t2: Instant, t3: Instant)
    returns (state: State)
    ensures state.entities == [Login(id, t3)]
  {
    var s := new Stream();
    var ev1, ev2, ev3 := Create(e1, c, Login(id, t1)), Edit(e2, c, Login(id, t2)), Edit(e3, c, Login(id, t3));
    var r := s.Push(ev1);
    assert s.events == [ev1] && IsCreateOf(s.events[0], id);
    r := s.Push(ev2);
    assert s.events == [ev1, ev2] && IsCreateOf(s.events[0], id);
    r := s.Push(ev3);
    assert r == Pass && s.events == [ev1, ev2, ev3];
    CreateEditEditFold(ev1, ev2, ev3);
    state := Replay(s);
    OnlyElement(state.entities, Login(id, t3));
  }

  lemma CreateEditEditFold(ev1: Event, ev2: Event, ev3: Event)
    requires ev1.Create? && ev2.Edit? && ev3.Edit?
    requires ev2.entity.EntityId() == ev1.entity.EntityId() == ev3.entity.EntityId()
    ensures multiset(Fold([ev1, ev2, ev3]).Values) == multiset{ev3.entity}
  {
    FoldSnoc([], ev1);
    FoldSnoc([ev1], ev2);
    assert [ev1] + [ev2] + [ev3] == [ev1, ev2, ev3];
    FoldSnoc([ev1, ev2], ev3);
    var m := Fold([ev1, ev2, ev3]);
    assert m == map[ev3.entity.EntityId() := ev3.entity];
    assert m.Values == {ev3.entity} by {
      assert m[ev3.entity.EntityId()] == ev3.entity;
    }
  }

  /** The delete cases of state.rs: Create, Edit, Delete of one id leaves an
      empty state. */
  method ReplayDeleteScenario(id: Id, e1: Id, e2: Id, e3: Id, c: Instant, t1: Instant, t2: Instant)
    returns (state: State)
    ensures state.entities == []
  {
    var s := new Stream();
    var ev1, ev2, ev3 := Create(e1, c, Login(id, t1)), Edit(e2, c, Login(id, t2)), Delete(e3, c, id);
    CreateEditDeleteAccepted(ev1, ev2, ev3);
    var r := s.Push(ev1);
    assert s.events == [ev1];
    r := s.Push(ev2);
    assert s.events == [ev1, ev2];
    r := s.Push(ev3);
    assert s.events == [ev1, ev2, ev3];
    CreateEditDeleteFold(ev1, ev2, ev3);
    state := Replay(s);
    var st := state.entities;
    assert |st| == |multiset(st)| == 0;
  }

  lemma CreateEditDeleteAccepted(ev1: Event, ev2: Event, ev3: Event)
    requires ev1.Create? && ev2.Edit? && ev3.Delete?
    requires ev2.entity.EntityId() == ev1.entity.EntityId() == ev3.entityId
    ensures Verdict([], ev1) == Pass && Verdict([ev1], ev2) == Pass && Verdict([ev1, ev2], ev3) == Pass
  {
    var id := ev3.entityId;
    assert IsCreateOf([ev1][0], id);
    assert IsCreateOf([ev1, ev2][0], id);
    assert !IsDeleteOf([ev1, ev2][0], id) && !IsDeleteOf([ev1, ev2][1], id);
  }

  lemma CreateEditDeleteFold(ev1: Event, ev2: Event, ev3: Event)
    requires ev1.Create? && ev2.Edit? && ev3.Delete?
    requires ev2.entity.EntityId() == ev1.entity.EntityId() == ev3.entityId
    ensures multiset(Fold([ev1, ev2, ev3]).Values) == multiset{}
  {
    FoldSnoc([], ev1);
    FoldSnoc([ev1], ev2);
    assert [ev1] + [ev2] + [ev3] == [ev1, ev2, ev3];
    FoldSnoc([ev1, ev2], ev3);
    assert Fold([ev1, ev2, ev3]) == map[];
  }

  /** Two entities created in the order 09:00, 08:00 come out as 08:00,
      09:00. */
  method SortScenario(a: Id, b: Id, e1: Id, e2: Id, c: Instant, early: Instant, late: Instant)
    returns (state: State)
    requires a != b && early < late
    ensures state.entities == [Login(b, early), Login(a, late)]
  {
    var s := new Stream();
    var x, y := Login(a, late), Login(b, early);
    var ev1, ev2 := Create(e1, c, x), Create(e2, c, y);
    var r := s.Push(ev1);
    r := s.Push(ev2);
    assert s.events == [ev1, ev2];
    TwoCreatesFold(ev1, ev2);
    state := Replay(s);
    SortedPair(state.entities, y, x);
  }

  lemma TwoCreatesFold(ev1: Event, ev2: Event)
    requires ev1.Create? && ev2.Create? && ev1.entity.EntityId() != ev2.entity.EntityId()
    ensures multiset(Fold([ev1, ev2]).Values) == multiset{ev2.entity, ev1.entity}
  {
    FoldSnoc([], ev1);
    assert [ev1] + [ev2] == [ev1, ev2];
    FoldSnoc([ev1], ev2);
    var m := Fold([ev1, ev2]);
    var x, y := ev1.entity, ev2.entity;
    assert m == map[x.EntityId() := x, y.EntityId() := y];
    assert m.Values == {x, y} by {
      assert m[x.EntityId()] == x && m[y.EntityId()] == y;
    }
  }

  /** Two distinct entities, sorted by timestamp, with the earlier first. */
  lemma SortedPair(s: seq<Entity>, early: Entity, late: Entity)
    requires multiset(s) == multiset{early, late}
    requires SortedByTimestamp(s) && early.Timestamp() < late.Timestamp()
    ensures s == [early, late]
  {
    assert |s| == |multiset(s)| == 2;
    assert s == [s[0]] + [s[1]];
    assert multiset(s) == multiset{s[0], s[1]};
  }
}
