# skuff event log: a Dafny model

skuff is a personal time-tracking log. Logins, logouts, breaks and
activities are recorded as events in a named, append-only stream, and the
current state is rebuilt by replaying that stream. This project models the
core of that system and proves its properties:

- the `Entity` and `Event` unions, with their exhaustive id and timestamp
  accessors;
- the stream, a class over a sequence of events. `Stream::push` checks each
  new event against the whole history before it appends it;
- the flat, tagged JSON key layout of events, over an abstract JSON value.
  Durations are written as whole seconds;
- `replay`: this folds the stream into a map from entity id to entity, then
  lists the surviving entities sorted by timestamp;
- the configuration precedence merge (`Config::coalesce`);
- the stream-name validator (`validate_stream`);
- the storage layout: which root is chosen, and the fixed path templates
  under it.

Files:
- `ids.dfy`: the opaque `Id` of src/core/id.rs.
- `wrappers.dfy`: Option, Result and Outcome.
- `errors.dfy`: the `Error` enum of src/core/error.rs, plus the
  `EntityAlreadyDeleted` variant that src/core/format/stream.rs:61 returns.
- `events.dfy`, `schema.dfy` and `stream.dfy`: src/core/format/stream.rs.
- `state.dfy`: src/core/state.rs.
- `config.dfy`: src/core/format/config.rs.
- `util.dfy`: `validate_stream` of src/core/util.rs.
- `layout.dfy`: src/core/layout/storage.rs.

Modelling choices:
- `Id` is an abstract type with equality only.
- Instants are integers.
- A chrono `Duration` is an integer count of nanoseconds. `NumSeconds`
  truncates toward zero, as `num_seconds` does.
- The `HOME`-derived default storage root is a parameter of
  `StorageLayout.Coalesce`.
- The order in which `HashMap::into_values` yields values is unspecified.
  `Replay` models it with a nondeterministic choice of the next entry, and
  then sorts the values in place in an array.

Four points where the code's behaviour is easy to misread:
- src/core/error.rs declares no `EntityAlreadyDeleted`, but `push` returns
  it at src/core/format/stream.rs:61, so the model's `Error` includes it.
- Equal timestamps have no fixed order after replay, because the values come
  out of a `HashMap` in unspecified order. The model promises only a sorted
  permutation, not an order by insertion.
- A Delete is refused when ANY earlier Delete of its id exists: the check
  scans the whole history in reverse (src/core/format/stream.rs:71-76), not
  only the events after the id's Create. A well-formed stream has at most
  one Delete per id, so no later event of that id can follow its Delete
  except an Edit.
- An Edit after its entity's Delete is accepted, since the Edit rule looks
  only for an earlier Create (src/core/format/stream.rs:38), and replay
  re-inserts the entity (src/core/state.rs:20-27), so the deleted id is live
  again with the Edit's entity.

## Model

| member | source | states |
|---|---|---|
| Events.NumSeconds | src/core/format/stream.rs:172-177 | whole seconds of a duration, rounded toward zero: the remainder is under one second and has the duration's sign |
| Events.Seconds | src/core/format/stream.rs:179-185 | `Duration::seconds`: the duration is whole seconds and `NumSeconds` reads back the count it was given |
| Events.SecondsOfNumSeconds | src/core/format/stream.rs:172-185 | writing a duration as seconds and reading it back is the identity exactly for whole-second durations |
| Events.Entity.EntityId | src/core/format/stream.rs:32-37 | no contract of its own: the exhaustive match over the four variants; `EncodeEntity` states that it is the value written under `entity_id` |
| Events.Entity.Timestamp | src/core/state.rs:36-41 | no contract of its own: the exhaustive match over the four variants; `EncodeEntity` states that it is the value written under `timestamp`, and `SortByTimestamp` sorts by it |
| Events.Event.Target | src/core/format/stream.rs:30-57 | no contract of its own: the id an event acts on; `EncodeEvent` states that it is the value written under `entity_id` |
| Schema.EncodeEntity | src/core/format/stream.rs:132-163 | the entity's object holds its `EntityId` under `entity_id` and its `Timestamp` under `timestamp`, and none of the event's own keys `op`, `event_id`, `created_at` |
| Schema.EncodeEvent | src/core/format/stream.rs:107-130 | every event's object holds `op`, `event_id` and `created_at`, carrying its event id and creation instant, and holds its target id under `entity_id`; `EventRoundTrip` is its inverse |
| Schema.EncodeStream | src/core/format/stream.rs:24-26 | `to_buffer` gives one array, with one flat object per event, in stream order; `StreamRoundTrip` proves `DecodeStream` its inverse |
| Schema.GetDuration | src/core/format/stream.rs:179-185 | a duration decodes exactly when the key holds an integer within chrono's range; the decoded value is whole seconds and re-encodes to the same integer |
| Schema.DecodeEntity | src/core/format/stream.rs:132-163 | a decoded entity re-encodes to the same value under every key of its layout; every failure is `DeserializeFailed` |
| Schema.DecodeEvent | src/core/format/stream.rs:107-130 | a decoded event re-encodes to the same value under every key of its layout; every failure is `DeserializeFailed` |
| Schema.DecodeEventIgnoresOtherKeys | src/core/format/stream.rs:107-163 | adding or changing a key outside every layout leaves the decoding of the entity and of the event unchanged, as serde ignores unknown fields without `deny_unknown_fields` |
| Schema.EncodeLayout | src/core/format/stream.rs:107-130 | every event has `op`, `event_id` and `created_at`; Create/Edit add the entity's keys inline; Delete has exactly `op`, `event_id`, `created_at` and `entity_id` |
| Schema.EncodeEntityLayout | src/core/format/stream.rs:132-163 | the exact key set and `type` tag of each entity variant; `duration` is an integer number of seconds |
| Schema.DecodeEntityIgnoresEventKeys | src/core/format/stream.rs:114-122 | the flattened entity reads only its own keys, so the event's `op`, `event_id` and `created_at` do not affect it |
| Schema.EntityRoundTrip | src/core/format/stream.rs:132-186 | decoding an encoded entity gives it back when its duration is whole seconds within range |
| Schema.EventRoundTrip | src/core/format/stream.rs:107-186 | decoding an encoded event gives it back under the same condition |
| Schema.DecodeAll | src/core/format/stream.rs:17-22 | in the object layout the program writes, an array decodes exactly when every element is an object that decodes; the result has one event per element, in order; every failure is `DeserializeFailed` |
| Schema.DecodeStream | src/core/format/stream.rs:17-22 | every failure, a non-array buffer included, is `DeserializeFailed`, as the `map_err` of `from_buffer` gives; `StreamRoundTrip` proves it inverts `EncodeStream` |
| Schema.StreamRoundTrip | src/core/format/stream.rs:17-26 | `from_buffer(to_buffer(s))` reproduces the event sequence, in order and field by field, for whole-second durations |
| EventStream.CreateExists | src/core/format/stream.rs:78-89 | true exactly when some event is a Create with that entity id; Edits and Deletes never match |
| EventStream.DeleteExists | src/core/format/stream.rs:70-76 | despite its name, true exactly when NO Delete of that id exists |
| EventStream.Verdict | src/core/format/stream.rs:30-64 | every refusal names the event's target id, as `EntityIdExists`, `EntityDoesNotExist` or `EntityAlreadyDeleted`; an accepted Create has no earlier Create of its id, an accepted Edit or Delete has one. `Push` is proved to return it |
| EventStream.PushPreservesWellFormed | src/core/format/stream.rs:29-68 | an accepted event keeps the three stream invariants: one Create per id, every Edit/Delete after a Create of its id, at most one Delete per id |
| EventStream.WellFormedIffAccepted | src/core/format/stream.rs:29-68 | a sequence satisfies the three invariants exactly when each of its events would have been accepted by `push` at its position |
| EventStream.EditAfterDeleteAccepted | src/core/format/stream.rs:31-41 | an Edit after the entity's Delete is accepted, because Edit consults only earlier Creates |
| EventStream.Stream.constructor | src/core/format/stream.rs:13-15 | `new()` holds no events, and the empty stream satisfies the invariants |
| EventStream.Stream.FromBuffer | src/core/format/stream.rs:17-22 | a fresh stream holding the decoded events, not re-validated, or the decoder's error, which is always `DeserializeFailed` |
| EventStream.Stream.ToBuffer | src/core/format/stream.rs:24-26 | the buffer is the stream's events in the wire layout (`EncodeStream`), and it decodes back to the events when durations are whole seconds |
| EventStream.Stream.Push | src/core/format/stream.rs:29-68 | Create fails with `EntityIdExists(id)` exactly when an earlier Create has the id; Edit fails with `EntityDoesNotExist(id)` unless an earlier Create has it; Delete fails with `EntityDoesNotExist` without an earlier Create, otherwise with `EntityAlreadyDeleted` after an earlier Delete. On success the event is appended and nothing earlier changes; on error the stream is unchanged; the invariants are preserved |
| EventStream.CreateTwiceScenario | src/core/format/stream.rs:641-670 | a second Create of one id fails with `EntityIdExists(id)` and leaves one event |
| EventStream.DeleteScenario | src/core/format/stream.rs:672-737 | a Delete after a Create succeeds, a second Delete fails with `EntityAlreadyDeleted(id)`, and a Delete of an uncreated id fails with `EntityDoesNotExist` |
| EventStream.EditUnknownScenario | src/core/format/stream.rs:604-623 | an Edit on an empty stream fails with `EntityDoesNotExist(id)` |
| Projection.Apply | src/core/state.rs:19-32 | no contract of its own: one step of the loop, `insert` for Create and Edit, `remove` for Delete; `ApplyChangesOnlyTarget` states what it changes |
| Projection.ApplyChangesOnlyTarget | src/core/state.rs:19-32 | after Create or Edit the target id holds the event's entity, after Delete the target id is absent, and every other id keeps its entry or its absence |
| Projection.Fold | src/core/state.rs:16-33 | the map after the loop files every entity under its own id |
| Projection.LastMention | src/core/state.rs:18-33 | the position of the last event acting on an id: no later event acts on it; none means no event does |
| Projection.FoldIsLastWrite | src/core/state.rs:18-33 | an id is live exactly when the last event acting on it is a Create or an Edit, and its entity is that event's entity (last write wins) |
| Projection.DeleteOfAbsentIsNoop | src/core/state.rs:29-31 | a Delete of an id that is not in the map changes nothing |
| Projection.LiveIdsWereCreated | src/core/state.rs:15-33 | in a well-formed stream every live id has a Create |
| Projection.TakeValue | src/core/state.rs:34 | moving one entry out of the map moves exactly one copy of its value |
| Projection.EntriesOfValues | src/core/state.rs:34 | a sequence that is a permutation of the map's values has at most one entity per id, and each is the map's entry for its id |
| Projection.SortByTimestamp | src/core/state.rs:36-41 | the array ends sorted non-decreasingly by timestamp, as a permutation of its old contents |
| Projection.Replay | src/core/state.rs:15-44 | the state is a permutation of the surviving entities of the fold, sorted by timestamp, with one entity per id, each the fold's entry for its id; the empty stream gives the empty state |
| Projection.EditScenario | src/core/state.rs:57-135 | Create then two Edits of one id: the state is exactly that id's entity with the last timestamp |
| Projection.EditRevivesDeleted | src/core/state.rs:19-32 | after a Create and a Delete of an id the id is absent; an Edit of it that follows makes it live again, holding the Edit's entity |
| Projection.ReplayDeleteScenario | src/core/state.rs:137-202 | Create, Edit, Delete of one id: the state is empty |
| Projection.SortScenario | src/core/state.rs:36-41 | entities created at 09:00 then 08:00 are listed 08:00 first |
| StreamConfig.FirstSet | src/core/format/config.rs:23-32 | reference merge: the option of the first layer that sets it, or the fallback |
| StreamConfig.Config.RCoalesce | src/core/format/config.rs:34-43 | an absent layer returns `self` unchanged; a present one takes its `stream_order` when set and keeps `self`'s otherwise; a set option is never unset |
| StreamConfig.Config.Coalesce | src/core/format/config.rs:23-32 | explicit > local > global > default precedence; the result always has `stream_order` set; no set layer gives the default |
| StreamConfig.CoalesceIsFirstSet | src/core/format/config.rs:23-43 | the merge equals the reference merge over [explicit, local, global] with `LastUsed` as fallback |
| StreamConfig.Config.Default | src/core/format/config.rs:15-21 | no contract of its own: `CoalesceOfNothing` states that its order is `LastUsed` |
| StreamConfig.CoalesceOfNothing | src/core/format/config.rs:15-32 | `coalesce(None, None, None)` is the default, whose order is `LastUsed` |
| Util.IsAsciiAlphanumeric | src/core/util.rs:59 | no contract of its own: `is_ascii_alphanumeric`, the ASCII letters and digits |
| Util.IsStreamChar | src/core/util.rs:59 | no contract of its own: the closure passed to `all`, an ASCII letter or digit, `-` or `_`; `ValidNameIsOneComponent` states it admits neither `/` nor `.` |
| Util.AllStreamChars | src/core/util.rs:57-59 | true exactly when every character is an ASCII letter or digit, `-` or `_` |
| Util.ValidateStream | src/core/util.rs:56-66 | succeeds exactly when every character is allowed, returning the input itself; otherwise fails with the fixed message |
| Util.EmptyStreamNameAccepted | src/core/util.rs:57-62 | the empty name is accepted |
| Util.ValidNameIsOneComponent | src/core/util.rs:56-62 | an accepted name holds no `/` and no `.` |
| Layout.Join | src/core/layout/storage.rs:24-38 | the joined path starts with the base and ends with the relative part |
| Layout.StorageLayout.Coalesce | src/core/layout/storage.rs:16-22 | the explicit root wins; otherwise the settings root; otherwise the default |
| Layout.StorageLayout.StreamPath | src/core/layout/storage.rs:24-26 | no contract of its own: the template `streams/<s>/stream.json` joined to the root; `StreamFilesShareDirectory`, `StreamPathInjective` and `PathsUnderRoot` state its properties |
| Layout.StorageLayout.StreamsPath | src/core/layout/storage.rs:28-30 | no contract of its own: `streams` joined to the root; `PathsUnderRoot` states it lies under the root and holds every stream directory |
| Layout.StorageLayout.ConfigPath | src/core/layout/storage.rs:32-34 | no contract of its own: the template `streams/<s>/config.json` joined to the root; `StreamFilesShareDirectory` and `StreamPathIsNotConfigPath` state its properties |
| Layout.StorageLayout.CurrentStreamPath | src/core/layout/storage.rs:36-38 | no contract of its own: `CURRENT_STREAM` joined to the root; `PathsUnderRoot` states it lies under the root |
| Layout.StreamFilesShareDirectory | src/core/layout/storage.rs:24-34 | `stream_path(s)` is root/streams/s/stream.json and `config_path(s)` is root/streams/s/config.json, in the shared directory root/streams/s |
| Layout.StreamPathInjective | src/core/layout/storage.rs:24-26 | different names that `validate_stream` accepts give different stream files |
| Layout.StreamPathIsNotConfigPath | src/core/layout/storage.rs:24-34 | no stream file is any stream's config file |
| Layout.PathsUnderRoot | src/core/layout/storage.rs:24-38 | every path lies under the root, and each stream directory lies under root/streams |

## Left out

- Filesystem I/O (src/core/io/storage.rs, src/core/io/util.rs, src/core/io/settings.rs): reading, writing and listing files. `stream_append` ignores the result of `push` and writes the file anyway, so the model makes no claim that the application rejects invalid appends end to end.
- Settings and the `HOME` environment variable (src/core/layout/settings.rs, and the `lazy_static` default root): the default root is a parameter instead.
- Byte-level JSON (serde_json): the model works on an abstract JSON value and does not cover key order, whitespace, the textual forms of `Id` (UUID) and `DateTime` (RFC 3339), or the wording of serde's error messages. `DeserializeFailed` carries a message of the model's own.
- `SerializeFailed`: serialising these types cannot fail, so `ToBuffer` returns the buffer itself.
- Schema.GetDuration: `Duration::seconds` panics for counts beyond chrono's range. The model reports such a count as `DeserializeFailed`.
- Durations that are not whole seconds: `num_seconds` truncates them, and the round-trip lemmas exclude them.
- Equal timestamps: `sort_by_key` is stable, but its input order comes from a `HashMap`, so neither the source nor the model fixes the order of equal timestamps.
- `State::iter` and iteration over a stream: these read the `entities` and `events` sequences directly, with no member of their own.
- Id generation (src/core/id.rs): random UUID v4 generation and `Display`.
- Clock and date parsing (`today`, `clock`, `parse_time`, `parse_date`, `from_naive`), and `parse_existing_file`, `storage` and `config` in src/core/util.rs: these depend on the local clock, the time zone or the filesystem.
- Terminal output (src/core/log.rs), command-line glue (src/cmd/*.rs, src/main.rs) and the serde form of `Config`.
- Layout.StreamPathInjective: paths are compared as strings, while Rust's `PathBuf` compares them component by component, dropping repeated separators and interior `.`. The lemma is therefore stated for accepted names only, which hold no `/` and no `.` (so at most one component; the accepted empty name has none). For other names, such as `a` and `a/`, the model tells apart paths that Rust treats as one file. This matters because `in`, `out` and `rm` take `--stream` without `validate_stream` (src/cmd/in.rs:25-26, src/cmd/out.rs:28-29, src/cmd/rm.rs:18-19) and pass it on to `stream_append`.
- Schema.DecodeAll: the decoders accept only the object layout the program writes. serde's derived deserializers also accept other shapes that are not modelled: a Delete given as a sequence of its fields with the tag first, and possibly an integer variant index as the `type` tag of a flattened entity. The "exactly when" of its contract holds for the object layout only.
- Layout.Join: models `PathBuf::join` only for the relative, `/`-separated paths the templates produce. An absolute second argument and other platforms' separators are not modelled.
