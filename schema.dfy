/** The flat, tagged JSON layout of events (the serde attributes on `Event`
    and `Entity` in src/core/format/stream.rs), over an abstract JSON value.
    Identifiers and instants are leaves of their own (`JId`, `JTime`): their
    textual forms belong to uuid and chrono. */
module Schema {
  import opened Ids
  import opened Wrappers
  import opened Errors
  import opened Events

  datatype Json =
    | JNull
    | JBool(b: bool)
    | JInt(n: int)
    | JStr(s: string)
    | JId(id: Id)
    | JTime(t: Instant)
    | JArray(items: seq<Json>)
    | JObject(fields: map<string, Json>)

  type Object = map<string, Json>

  /** The largest number of seconds `Duration::seconds` accepts: chrono bounds
      a duration by `i64::MAX` milliseconds. It also keeps the count inside
      the `i64` that `duration_seconds::deserialize` reads. */
  const MaxDurationSeconds: int := 9_223_372_036_854_775

  /** A duration the encoding carries without loss: whole seconds, inside
      chrono's range. */
  predicate Representable(d: Duration) {
    WholeSeconds(d) && -MaxDurationSeconds <= NumSeconds(d) <= MaxDurationSeconds
  }

  predicate EntityRepresentable(ent: Entity) {
    match ent
    case Break(_, _, d, _) => Representable(d)
    case Activity(_, _, d, _, _) => Representable(d)
    case _ => true
  }

  predicate EventRepresentable(e: Event) {
    match e
    case Create(_, _, ent) => EntityRepresentable(ent)
    case Edit(_, _, ent) => EntityRepresentable(ent)
    case Delete(_, _, _) => true
  }

  /** The entity's own keys, with its `type` tag; `duration` is written as
      whole seconds (`duration_seconds::serialize`). */
  function EncodeEntity(ent: Entity): (o: Object)
    ensures "entity_id" in o && o["entity_id"] == JId(ent.EntityId())
    ensures "timestamp" in o && o["timestamp"] == JTime(ent.Timestamp())
    ensures "op" !in o && "event_id" !in o && "created_at" !in o
  {
    match ent
    case Login(id, t) =>
      map["type" := JStr("login"), "entity_id" := JId(id), "timestamp" := JTime(t)]
    case Logout(id, t) =>
      map["type" := JStr("logout"), "entity_id" := JId(id), "timestamp" := JTime(t)]
    case Break(id, t, d, a) =>
      map["type" := JStr("break"), "entity_id" := JId(id), "timestamp" := JTime(t),
          "duration" := JInt(NumSeconds(d)), "autoinsert" := JBool(a)]
    case Activity(id, t, d, v, a) =>
      map["type" := JStr("activity"), "entity_id" := JId(id), "timestamp" := JTime(t),
          "duration" := JInt(NumSeconds(d)), "value" := JStr(v), "autoinsert" := JBool(a)]
  }

  /** One event as one flat object: the `op` tag, `event_id`, `created_at`,
      and for Create and Edit the entity's keys inlined (`serde(flatten)`). */
  function EncodeEvent(e: Event): (o: Object)
    ensures "op" in o && "event_id" in o && "created_at" in o && "entity_id" in o
    ensures o["event_id"] == JId(e.eventId) && o["created_at"] == JTime(e.createdAt)
    ensures o["entity_id"] == JId(e.Target())
  {
    match e
    case Create(eid, c, ent) =>
      EncodeEntity(ent)["op" := JStr("create")]["event_id" := JId(eid)]["created_at" := JTime(c)]
    case Edit(eid, c, ent) =>
      EncodeEntity(ent)["op" := JStr("edit")]["event_id" := JId(eid)]["created_at" := JTime(c)]
    case Delete(eid, c, id) =>
      map["op" := JStr("delete"), "event_id" := JId(eid), "created_at" := JTime(c), "entity_id" := JId(id)]
  }

  function Missing(key: string): Error {
    DeserializeFailed("missing field `" + key + "`")
  }

  function Invalid(key: string): Error {
    DeserializeFailed("invalid value for `" + key + "`")
  }

  function GetStr(o: Object, key: string): (r: Result<string, Error>)
    ensures r.Success? <==> key in o && o[key].JStr?
    ensures r.Success? ==> o[key] == JStr(r.value)
  {
    if key !in o then Failure(Missing(key))
    else if o[key].JStr? then Success(o[key].s)
    else Failure(Invalid(key))
  }

  function GetId(o: Object, key: string): (r: Result<Id, Error>)
    ensures r.Success? <==> key in o && o[key].JId?
    ensures r.Success? ==> o[key] == JId(r.value)
  {
    if key !in o then Failure(Missing(key))
    else if o[key].JId? then Success(o[key].id)
    else Failure(Invalid(key))
  }

  function GetTime(o: Object, key: string): (r: Result<Instant, Error>)
    ensures r.Success? <==> key in o && o[key].JTime?
    ensures r.Success? ==> o[key] == JTime(r.value)
  {
    if key !in o then Failure(Missing(key))
    else if o[key].JTime? then Success(o[key].t)
    else Failure(Invalid(key))
  }

  function GetBool(o: Object, key: string): (r: Result<bool, Error>)
    ensures r.Success? <==> key in o && o[key].JBool?
    ensures r.Success? ==> o[key] == JBool(r.value)
  {
    if key !in o then Failure(Missing(key))
    else if o[key].JBool? then Success(o[key].b)
    else Failure(Invalid(key))
  }

  /** `duration_seconds::deserialize`: an integer count of seconds, turned
      into a duration by `Duration::seconds`. */
  function GetDuration(o: Object, key: string): (r: Result<Duration, Error>)
    ensures r.Success? <==> key in o && o[key].JInt? && -MaxDurationSeconds <= o[key].n <= MaxDurationSeconds
    ensures r.Success? ==> Representable(r.value) && o[key] == JInt(NumSeconds(r.value))
  {
    if key !in o then Failure(Missing(key))
    else if !o[key].JInt? then Failure(Invalid(key))
    else
      var secs := o[key].n;
      if secs < -MaxDurationSeconds || MaxDurationSeconds < secs then Failure(Invalid(key))
      else
        Success(Seconds(secs))
  }

  /** Whatever decodes re-encodes to the same values under every key of the
      layout: decoding accepts no value the encoding would write differently. */
  function DecodeEntity(o: Object): (r: Result<Entity, Error>)
    ensures r.Failure? ==> r.error.DeserializeFailed?
    ensures r.Success? ==> forall k :: k in EncodeEntity(r.value) ==> k in o && o[k] == EncodeEntity(r.value)[k]
  {
    var tag :- GetStr(o, "type");
    var id :- GetId(o, "entity_id");
    var t :- GetTime(o, "timestamp");
    if tag == "login" then
      Success(Login(id, t))
    else if tag == "logout" then
      Success(Logout(id, t))
    else if tag == "break" then
      var d :- GetDuration(o, "duration");
      var a :- GetBool(o, "autoinsert");
      Success(Break(id, t, d, a))
    else if tag == "activity" then
      var d :- GetDuration(o, "duration");
      var v :- GetStr(o, "value");
      var a :- GetBool(o, "autoinsert");
      Success(Activity(id, t, d, v, a))
    else
      Failure(Invalid("type"))
  }

  /** Keys that the event's own variant does not name are ignored, as serde
      does without `deny_unknown_fields`. */
  function DecodeEvent(o: Object): (r: Result<Event, Error>)
    ensures r.Failure? ==> r.error.DeserializeFailed?
    ensures r.Success? ==> forall k :: k in EncodeEvent(r.value) ==> k in o && o[k] == EncodeEvent(r.value)[k]
  {
    var op :- GetStr(o, "op");
    var eid :- GetId(o, "event_id");
    var c :- GetTime(o, "created_at");
    if op == "create" then
      var ent :- DecodeEntity(o);
      Success(Create(eid, c, ent))
    else if op == "edit" then
      var ent :- DecodeEntity(o);
      Success(Edit(eid, c, ent))
    else if op == "delete" then
      var id :- GetId(o, "entity_id");
      Success(Delete(eid, c, id))
    else
      Failure(Invalid("op"))
  }

  /** The keys of every encoded event: the common three, the entity's keys
      for Create and Edit, and only `entity_id` besides for Delete. */
  lemma EncodeLayout(e: Event)
    ensures var o := EncodeEvent(e);
      && "op" in o && "event_id" in o && "created_at" in o
      && o["event_id"] == JId(e.eventId) && o["created_at"] == JTime(e.createdAt)
      && o["entity_id"] == JId(e.Target())
      && (e.Create? ==> o["op"] == JStr("create"))
      && (e.Edit? ==> o["op"] == JStr("edit"))
      && (e.Delete? ==> o["op"] == JStr("delete") && o.Keys == {"op", "event_id", "created_at", "entity_id"})
      && (!e.Delete? ==> o.Keys == EncodeEntity(e.entity).Keys + {"op", "event_id", "created_at"})
  {
  }

  /** The entity keys per variant, and the duration as whole seconds. */
  lemma EncodeEntityLayout(ent: Entity)
    ensures var o := EncodeEntity(ent);
      && (ent.Login? ==> o.Keys == {"type", "entity_id", "timestamp"} && o["type"] == JStr("login"))
      && (ent.Logout? ==> o.Keys == {"type", "entity_id", "timestamp"} && o["type"] == JStr("logout"))
      && (ent.Break? ==> o.Keys == {"type", "entity_id", "timestamp", "duration", "autoinsert"}
                         && o["type"] == JStr("break") && o["duration"] == JInt(NumSeconds(ent.duration)))
      && (ent.Activity? ==> o.Keys == {"type", "entity_id", "timestamp", "duration", "value", "autoinsert"}
                            && o["type"] == JStr("activity") && o["duration"] == JInt(NumSeconds(ent.duration)))
  {
  }

  /** Decoding an encoded entity gives it back when its duration is whole
      seconds in chrono's range. */
  lemma {:induction false} EntityRoundTrip(ent: Entity)
    requires EntityRepresentable(ent)
    ensures DecodeEntity(EncodeEntity(ent)) == Success(ent)
  {
    match ent
    case Break(_, _, d, _) =>
      SecondsOfNumSeconds(d);
    case Activity(_, _, d, _, _) =>
      SecondsOfNumSeconds(d);
    case _ =>
  }

  /** Decoding an encoded event gives it back. */
  lemma {:induction false} EventRoundTrip(e: Event)
    requires EventRepresentable(e)
    ensures DecodeEvent(EncodeEvent(e)) == Success(e)
  {
    if !e.Delete? {
      var o := EncodeEvent(e);
      var inner := EncodeEntity(e.entity);
      EntityRoundTrip(e.entity);
      CarrierExtendsEntity(e);
      DecodeEntityIgnoresEventKeys(inner, o);
      DecodeCarrier(o, e.eventId, e.createdAt, e.Create?);
    }
  }

  /** A Create or Edit object is the entity's object plus the three common
      keys, which the entity object does not use. */
  lemma CarrierExtendsEntity(e: Event)
    requires !e.Delete?
    ensures var o, inner := EncodeEvent(e), EncodeEntity(e.entity);
      && (forall k :: k in inner ==> k in o && o[k] == inner[k])
      && (forall k :: k in o && k !in inner ==> k in {"op", "event_id", "created_at"})
      && o["op"] == JStr(if e.Create? then "create" else "edit")
      && o["event_id"] == JId(e.eventId) && o["created_at"] == JTime(e.createdAt)
  {
    var inner := EncodeEntity(e.entity);
    assert "op" !in inner && "event_id" !in inner && "created_at" !in inner;
  }

  /** How a Create or Edit object decodes, given its three common keys. */
  lemma DecodeCarrier(o: Object, eid: Id, c: Instant, create: bool)
    requires "op" in o && o["op"] == JStr(if create then "create" else "edit")
    requires "event_id" in o && o["event_id"] == JId(eid)
    requires "created_at" in o && o["created_at"] == JTime(c)
    requires DecodeEntity(o).Success?
    ensures DecodeEvent(o) == Success(if create then Create(eid, c, DecodeEntity(o).value)
                                      else Edit(eid, c, DecodeEntity(o).value))
  {
  }

  /** The keys some variant's layout names; the decoders read no others. */
  const LayoutKeys: set<string> :=
    {"op", "event_id", "created_at", "type", "entity_id", "timestamp", "duration", "value", "autoinsert"}

  /** A key outside every layout changes nothing: unknown fields are ignored,
      as serde does without `deny_unknown_fields`. */
  lemma DecodeEventIgnoresOtherKeys(o: Object, k: string, v: Json)
    requires k !in LayoutKeys
    ensures DecodeEntity(o[k := v]) == DecodeEntity(o)
    ensures DecodeEvent(o[k := v]) == DecodeEvent(o)
  {
    var o' := o[k := v];
    AgreeAt(o', o, "type");
    AgreeAt(o', o, "entity_id");
    AgreeAt(o', o, "timestamp");
    AgreeAt(o', o, "duration");
    AgreeAt(o', o, "value");
    AgreeAt(o', o, "autoinsert");
    assert DecodeEntity(o') == DecodeEntity(o);
    AgreeAt(o', o, "op");
    AgreeAt(o', o, "event_id");
    AgreeAt(o', o, "created_at");
  }

  /** The entity decoder reads only the entity's keys. */
  lemma DecodeEntityIgnoresEventKeys(inner: Object, outer: Object)
    requires forall k :: k in inner ==> k in outer && outer[k] == inner[k]
    requires forall k :: k in outer && k !in inner ==> k in {"op", "event_id", "created_at"}
    ensures DecodeEntity(outer) == DecodeEntity(inner)
  {
    AgreeAt(outer, inner, "type");
    AgreeAt(outer, inner, "entity_id");
    AgreeAt(outer, inner, "timestamp");
    AgreeAt(outer, inner, "duration");
    AgreeAt(outer, inner, "value");
    AgreeAt(outer, inner, "autoinsert");
  }

  /** Two objects that agree at a key give the same reading of it. */
  lemma AgreeAt(o1: Object, o2: Object, key: string)
    requires key in o1 <==> key in o2
    requires key in o1 ==> o1[key] == o2[key]
    ensures GetStr(o1, key) == GetStr(o2, key) && GetId(o1, key) == GetId(o2, key)
    ensures GetTime(o1, key) == GetTime(o2, key) && GetBool(o1, key) == GetBool(o2, key)
    ensures GetDuration(o1, key) == GetDuration(o2, key)
  {
  }

  /** `to_buffer`: the events as one JSON array, in stream order. */
  function EncodeStream(events: seq<Event>): (j: Json)
    ensures j.JArray? && |j.items| == |events|
    ensures forall i :: 0 <= i < |events| ==> j.items[i] == JObject(EncodeEvent(events[i]))
  {
    JArray(seq(|events|, i requires 0 <= i < |events| => JObject(EncodeEvent(events[i]))))
  }

  /** Every element must be an object that decodes to an event. */
  function DecodeAll(items: seq<Json>): (r: Result<seq<Event>, Error>)
    ensures r.Success? <==> forall i :: 0 <= i < |items| ==> items[i].JObject? && DecodeEvent(items[i].fields).Success?
    ensures r.Success? ==> |r.value| == |items|
    ensures r.Success? ==> forall i :: 0 <= i < |items| ==> DecodeEvent(items[i].fields) == Success(r.value[i])
    ensures r.Failure? ==> r.error.DeserializeFailed?
  {
    if items == [] then Success([])
    else if !items[0].JObject? then Failure(DeserializeFailed("expected an event object"))
    else
      var e :- DecodeEvent(items[0].fields);
      var rest :- DecodeAll(items[1..]);
      Success([e] + rest)
  }

  /** `from_buffer`: the buffer must be an array of events. Every failure is
      reported as `DeserializeFailed`. */
  function DecodeStream(j: Json): (r: Result<seq<Event>, Error>)
    ensures r.Failure? ==> r.error.DeserializeFailed?
  {
    if j.JArray? then DecodeAll(j.items)
    else Failure(DeserializeFailed("expected an array of events"))
  }

  /** `from_buffer(to_buffer(s))` reproduces the event sequence, in order and
      field by field, when every duration is whole seconds. */
  lemma StreamRoundTrip(events: seq<Event>)
    requires forall i :: 0 <= i < |events| ==> EventRepresentable(events[i])
    ensures DecodeStream(EncodeStream(events)) == Success(events)
  {
    var j := EncodeStream(events);
    forall i | 0 <= i < |events|
      ensures DecodeEvent(j.items[i].fields) == Success(events[i])
    {
      EventRoundTrip(events[i]);
    }
    var r := DecodeAll(j.items);
    assert r.Success?;
    assert forall i :: 0 <= i < |events| ==> r.value[i] == events[i];
    assert r.value == events;
  }
}
