/** What the event documents and the log operations mean, key by key and event by
    event. */
module EventMeaning {
  import opened Utf8
  import opened JsonCodec
  import JsonGrammar
  import JsonReading
  import opened AgentEvents
  import opened EventCodec
  import opened LogScan
  import opened LogCrash
  import opened EventStore

  // ----- documents -----

  predicate NonBlank(t: Text) {
    exists i :: 0 <= i < |t| && !IsSpaceCode(t[i])
  }

  /** The key holds this text. */
  predicate HoldsText(d: Fields, key: string, t: Text) {
    Get(d, Ascii(key)) == Some(Str(t)) && NonBlank(t)
  }

  /** The key holds this text; or it is null or absent, and there is none. */
  predicate HoldsOptional(d: Fields, key: string, t: Option<Text>) {
    if t.Some? then HoldsText(d, key, t.value) else Get(d, Ascii(key)) == None || Get(d, Ascii(key)) == Some(Null)
  }

  predicate IsKnownKey(x: Text) {
    || x == Ascii("event_id") || x == Ascii("run_id") || x == Ascii("runtime_id") || x == Ascii("kind") || x == Ascii("payload")
    || x == Ascii("session_id") || x == Ascii("turn_id") || x == Ascii("timestamp") || x == Ascii("sequence")
    || x == Ascii("schema_version") || x == Ascii("requirement_id") || x == Ascii("task_id") || x == Ascii("execution_id")
  }

  /** The document says of every field of the event what the event says, under the
      field's own key, and everything else is the event's extra. */
  ghost predicate Describes(iso: IsoTime, d: Fields, e: AgentEvent) {
    && HoldsText(d, "event_id", e.eventId) && HoldsText(d, "run_id", e.runId) && HoldsText(d, "runtime_id", e.runtimeId)
    && HoldsText(d, "kind", e.kind) && HoldsText(d, "timestamp", e.timestamp) && iso(e.timestamp)
    && HoldsOptional(d, "session_id", e.sessionId) && HoldsOptional(d, "turn_id", e.turnId)
    && HoldsOptional(d, "requirement_id", e.requirementId) && HoldsOptional(d, "task_id", e.taskId)
    && HoldsOptional(d, "execution_id", e.executionId)
    && Get(d, Ascii("payload")) == Some(Obj(e.payload))
    && e.sequence >= 0 && (Get(d, Ascii("sequence")) == Some(Int(e.sequence)) || (Get(d, Ascii("sequence")) == None && e.sequence == 0))
    && Get(d, Ascii("schema_version")) == Some(Int(1)) && e.schemaVersion == 1
    && Sorted(e.extra) && forall x :: Get(e.extra, x) == if IsKnownKey(x) then None else Get(d, x)
  }

  lemma NamesAreKnown(k: Key)
    ensures IsKnownKey(Name(k))
  {
    hide Ascii;
  }

  lemma KnownHasKey(x: Text) returns (k: Key)
    requires IsKnownKey(x)
    ensures Name(k) == x
  {
    hide Ascii;
    k := if x == Ascii("event_id") then EventId
         else if x == Ascii("run_id") then RunId
         else if x == Ascii("runtime_id") then RuntimeId
         else if x == Ascii("kind") then Kind
         else if x == Ascii("payload") then Payload
         else if x == Ascii("session_id") then SessionId
         else if x == Ascii("turn_id") then TurnId
         else if x == Ascii("timestamp") then Timestamp
         else if x == Ascii("sequence") then Sequence
         else if x == Ascii("schema_version") then SchemaVersion
         else if x == Ascii("requirement_id") then RequirementId
         else if x == Ascii("task_id") then TaskId
         else ExecutionId;
  }

  lemma KnownIs(x: Text)
    ensures IsKnown(x, KEYS) <==> IsKnownKey(x)
  {
    hide IsKnownKey, Name;
    if IsKnown(x, KEYS) {
      var k :| k in KEYS && Name(k) == x;
      NamesAreKnown(k);
    }
    if IsKnownKey(x) {
      var k := KnownHasKey(x);
      AllKeys(k);
    }
  }

  lemma NameIs(v: Option<Json>, t: Text)
    ensures IsName(v) && NameOf(v) == t <==> v == Some(Str(t)) && NonBlank(t)
    ensures IsNullableName(v) && NullableOf(v) == Some(t) <==> v == Some(Str(t)) && NonBlank(t)
    ensures IsNullableName(v) && NullableOf(v) == None <==> v == None || v == Some(Null)
  {
    hide IsSpaceCode;
  }

  lemma ExtraIs(d: Fields, extra: Fields)
    requires Sorted(d)
    ensures extra == Unknown(d) <==> Sorted(extra) && forall x :: Get(extra, x) == if IsKnownKey(x) then None else Get(d, x)
  {
    hide IsKnownKey, IsKnown, Sorted, Get, Unknown;
    forall x ensures Get(Unknown(d), x) == if IsKnownKey(x) then None else Get(d, x) {
      KnownIs(x);
      GetUnknown(d, x);
    }
    GetUnknown(d, []);
    if Sorted(extra) && forall x :: Get(extra, x) == if IsKnownKey(x) then None else Get(d, x) { SameFields(extra, Unknown(d)); }
  }

  /** from_dict reads a document as an event exactly when the document describes
      that event. */
  lemma FromDictIs(iso: IsoTime, d: Fields, e: AgentEvent)
    requires Sorted(d)
    ensures FromDict(iso, d) == Some(e) <==> Describes(iso, d, e)
  {
    hide Unknown, Get, Sorted, IsKnownKey, HoldsText, HoldsOptional, ReadsText, ReadsOptional, Name, Ascii, FromDict;
    NameTable();
    ExtraIs(d, e.extra);
    FromDictReads(iso, d, e);
    TextIs(d, EventId, "event_id", e.eventId);
    TextIs(d, RunId, "run_id", e.runId);
    TextIs(d, RuntimeId, "runtime_id", e.runtimeId);
    TextIs(d, Kind, "kind", e.kind);
    TextIs(d, Timestamp, "timestamp", e.timestamp);
    OptionalIs(d, SessionId, "session_id", e.sessionId);
    OptionalIs(d, TurnId, "turn_id", e.turnId);
    OptionalIs(d, RequirementId, "requirement_id", e.requirementId);
    OptionalIs(d, TaskId, "task_id", e.taskId);
    OptionalIs(d, ExecutionId, "execution_id", e.executionId);
  }

  predicate ReadsText(d: Fields, k: Key, t: Text) {
    IsName(Get(d, Name(k))) && NameOf(Get(d, Name(k))) == t
  }

  predicate ReadsOptional(d: Fields, k: Key, t: Option<Text>) {
    IsNullableName(Get(d, Name(k))) && NullableOf(Get(d, Name(k))) == t
  }

  /** The fields one by one. */
  lemma FromDictReads(iso: IsoTime, d: Fields, e: AgentEvent)
    ensures FromDict(iso, d) == Some(e)
            <==> && ReadsText(d, EventId, e.eventId) && ReadsText(d, RunId, e.runId) && ReadsText(d, RuntimeId, e.runtimeId)
                 && ReadsText(d, Kind, e.kind) && ReadsText(d, Timestamp, e.timestamp) && iso(e.timestamp)
                 && ReadsOptional(d, SessionId, e.sessionId) && ReadsOptional(d, TurnId, e.turnId)
                 && ReadsOptional(d, RequirementId, e.requirementId) && ReadsOptional(d, TaskId, e.taskId)
                 && ReadsOptional(d, ExecutionId, e.executionId)
                 && Get(d, Ascii("payload")) == Some(Obj(e.payload)) && e.sequence >= 0
                 && (Get(d, Ascii("sequence")) == Some(Int(e.sequence)) || (Get(d, Ascii("sequence")) == None && e.sequence == 0))
                 && Get(d, Ascii("schema_version")) == Some(Int(1)) && e.schemaVersion == 1
                 && e.extra == Unknown(d)
  {
    hide Unknown, Get, IsName, IsNullableName, NameOf, NullableOf, Name;
    NameTable();
  }

  lemma NameTable()
    ensures Name(EventId) == Ascii("event_id") && Name(RunId) == Ascii("run_id") && Name(RuntimeId) == Ascii("runtime_id")
    ensures Name(Kind) == Ascii("kind") && Name(Payload) == Ascii("payload") && Name(SessionId) == Ascii("session_id")
    ensures Name(TurnId) == Ascii("turn_id") && Name(Timestamp) == Ascii("timestamp") && Name(Sequence) == Ascii("sequence")
    ensures Name(SchemaVersion) == Ascii("schema_version") && Name(RequirementId) == Ascii("requirement_id") && Name(TaskId) == Ascii("task_id")
    ensures Name(ExecutionId) == Ascii("execution_id")
  {
    hide Ascii;
  }

  lemma TextIs(d: Fields, k: Key, key: string, t: Text)
    requires Name(k) == Ascii(key)
    ensures ReadsText(d, k, t) <==> HoldsText(d, key, t)
  {
    hide NonBlank, Get, IsName, NameOf, Name, Ascii;
    NameIs(Get(d, Ascii(key)), t);
  }

  lemma OptionalIs(d: Fields, k: Key, key: string, t: Option<Text>)
    requires Name(k) == Ascii(key)
    ensures ReadsOptional(d, k, t) <==> HoldsOptional(d, key, t)
  {
    hide NonBlank, Get, IsNullableName, NullableOf, Name, Ascii;
    NameIs(Get(d, Ascii(key)), if t.Some? then t.value else []);
  }

  /** to_dict writes every field under its own key, null where there is none, and
      every other key is the extra's. */
  lemma ToDictIs(e: AgentEvent, x: Text)
    requires Sorted(e.extra)
    ensures var d := ToDict(e);
            && Sorted(d)
            && Get(d, Ascii("event_id")) == Some(Str(e.eventId)) && Get(d, Ascii("run_id")) == Some(Str(e.runId))
            && Get(d, Ascii("runtime_id")) == Some(Str(e.runtimeId)) && Get(d, Ascii("kind")) == Some(Str(e.kind))
            && Get(d, Ascii("payload")) == Some(Obj(e.payload)) && Get(d, Ascii("timestamp")) == Some(Str(e.timestamp))
            && Get(d, Ascii("sequence")) == Some(Int(e.sequence)) && Get(d, Ascii("schema_version")) == Some(Int(e.schemaVersion))
            && Get(d, Ascii("session_id")) == Some(if e.sessionId.Some? then Str(e.sessionId.value) else Null)
            && Get(d, Ascii("turn_id")) == Some(if e.turnId.Some? then Str(e.turnId.value) else Null)
            && Get(d, Ascii("requirement_id")) == Some(if e.requirementId.Some? then Str(e.requirementId.value) else Null)
            && Get(d, Ascii("task_id")) == Some(if e.taskId.Some? then Str(e.taskId.value) else Null)
            && Get(d, Ascii("execution_id")) == Some(if e.executionId.Some? then Str(e.executionId.value) else Null)
            && (!IsKnownKey(x) ==> Get(d, x) == Get(e.extra, x))
  {
    hide Ascii, ToDict, Get, Sorted, IsKnownKey, IsKnown;
    KnownIs(x);
    WritesUnknown(e, x);
    GetKnown(e, EventId); GetKnown(e, RunId); GetKnown(e, RuntimeId); GetKnown(e, Kind); GetKnown(e, Payload);
    GetKnown(e, SessionId); GetKnown(e, TurnId); GetKnown(e, Timestamp); GetKnown(e, Sequence); GetKnown(e, SchemaVersion);
    GetKnown(e, RequirementId); GetKnown(e, TaskId); GetKnown(e, ExecutionId);
  }

  lemma WritesUnknown(e: AgentEvent, x: Text)
    requires Sorted(e.extra)
    ensures Sorted(ToDict(e)) && (!IsKnown(x, KEYS) ==> Get(ToDict(e), x) == Get(e.extra, x))
  {
    hide Name;
    GetUpdate(e.extra, e, KEYS, x);
  }

  // ----- lines -----

  /** The bytes encode a JSON object that describes the event. */
  ghost predicate Tells(iso: IsoTime, line: Bytes, s: Text, d: Fields, e: AgentEvent) {
    AllScalar(s) && line == Encode(s) && JsonGrammar.Writes(s, Obj(d)) && Describes(iso, d, e)
  }

  /** A line is read as an event exactly when it is the UTF-8 encoding of a spelling of
      a JSON object that describes the event. */
  lemma LineIs(iso: IsoTime, line: Bytes, e: AgentEvent)
    ensures DecodeEvent(iso, line) == Event(e) <==> exists s, d :: Tells(iso, line, s, d, e)
  {
    hide JsonGrammar.Writes, Describes, FromDict, DecodeJson, Encode, AllScalar;
    forall v ensures DecodeJson(line) == Document(v) <==> exists s :: AllScalar(s) && line == Encode(s) && JsonGrammar.Writes(s, v) {
      JsonGrammar.BytesAre(line, v);
    }
    if DecodeEvent(iso, line) == Event(e) {
      var d := DecodeJson(line).v.fields;
      var s :| AllScalar(s) && line == Encode(s) && JsonGrammar.Writes(s, Obj(d));
      ReadSorted(line, d);
      FromDictIs(iso, d, e);
      assert Tells(iso, line, s, d, e);
    }
    if s, d :| Tells(iso, line, s, d, e) {
      assert DecodeJson(line) == Document(Obj(d));
      ReadSorted(line, d);
      FromDictIs(iso, d, e);
    }
  }

  lemma ReadSorted(line: Bytes, d: Fields)
    requires DecodeJson(line) == Document(Obj(d))
    ensures Sorted(d) && WellFormedFields(d)
  {
    hide DecodeText, Decode;
    JsonReading.ReadWellFormed(Decode(line).value, Obj(d));
  }

  /** Whatever line an event was read from, the log can hold it unless a text in it
      has half of a surrogate pair, and then it is read from there as the same
      event. */
  lemma ReadIsStorable(iso: IsoTime, line: Bytes, e: AgentEvent)
    requires DecodeEvent(iso, line) == Event(e)
    ensures Storable(iso, e) <==> ScalarEvent(e)
    ensures ScalarEvent(e) ==> EncodeEvent(e).Some? && DecodeEvent(iso, EncodeEvent(e).value) == Event(e)
  {
    hide DecodeJson, Valid, Name, Unknown, ScalarEvent, WellFormedFields, Get, EncodeJson;
    var d := DecodeJson(line).v.fields;
    ReadSorted(line, d);
    ReadIsValid(iso, d);
    GetWellFormed(d, Name(Payload));
    UnknownWellFormed(d);
    GetUnknown(d, []);
    assert JsonValued(e);
    EncodableEvent(iso, e);
    if ScalarEvent(e) { EventRoundTrip(iso, e); }
  }

  // ----- appending -----

  /** Two events are the same but for their numbers. */
  predicate SameContent(a: AgentEvent, b: AgentEvent) {
    && a.eventId == b.eventId && a.runId == b.runId && a.runtimeId == b.runtimeId && a.kind == b.kind && a.payload == b.payload
    && a.sessionId == b.sessionId && a.turnId == b.turnId && a.timestamp == b.timestamp && a.schemaVersion == b.schemaVersion
    && a.extra == b.extra && a.requirementId == b.requirementId && a.taskId == b.taskId && a.executionId == b.executionId
  }

  /** A new id is stored under the next number, everything else as it came. A
      repetition of a stored event is answered with the stored one; the same id
      with any other content is refused. */
  lemma AppendAnswers(g: Log, events: seq<AgentEvent>, incoming: AgentEvent)
    requires IsLog(g, events) && Storable(g.iso, incoming)
    ensures match Decide(events, incoming)
            case Assigned(e) => SameContent(e, incoming) && e.sequence == |events| + 1 && forall x | x in events :: x.eventId != incoming.eventId
            case Existing(e) => SameContent(e, incoming) && e in events
            case Conflict => exists x :: x in events && x.eventId == incoming.eventId && !SameContent(x, incoming)
  {
    hide Storable, Identity;
    var i := Find(events, incoming.eventId);
    if i < |events| {
      StoredAt(g, events, i);
      IdentityIsContent(g.iso, events[i], incoming);
      assert events[i] in events;
    }
  }

  lemma StoredAt(g: Log, events: seq<AgentEvent>, i: nat)
    requires IsLog(g, events) && i < |events|
    ensures Storable(g.iso, events[i])
  {
    hide Storable;
  }

  // ----- queries -----

  /** The conditions a query asks of an event. */
  predicate Asked(f: Filter, e: AgentEvent) {
    && (f.requirementId == None || e.requirementId == f.requirementId)
    && (f.taskId == None || e.taskId == f.taskId)
    && (f.executionId == None || e.executionId == f.executionId)
    && (f.runtimeId == None || Some(e.runtimeId) == f.runtimeId)
    && (f.sessionId == None || e.sessionId == f.sessionId)
  }

  /** A query answers with all events of the log that meet its conditions and with
      no others, in the order of their numbers. */
  lemma {:induction false} SelectedAre(g: Log, f: Filter, events: seq<AgentEvent>)
    requires Numbered(g, events)
    ensures var found := Select(f, events);
            && (forall e :: e in found <==> e in events && Asked(f, e))
            && (forall i, j | 0 <= i < j < |found| :: found[i].sequence < found[j].sequence)
    decreases |events|
  {
    if events != [] {
      var front, last := events[..|events| - 1], events[|events| - 1];
      assert events == front + [last];
      SelectedAre(g, f, front);
      assert forall e | e in front :: e.sequence < last.sequence;
    }
  }

  // ----- run ids -----

  predicate LetterOrDigit(c: Code) {
    'A' as int <= c <= 'Z' as int || 'a' as int <= c <= 'z' as int || '0' as int <= c <= '9' as int
  }

  /** A run id is one to 128 letters, digits, dots, dashes and underscores, the
      first a letter or digit. */
  lemma RunIdIs(id: Text)
    ensures SafeRunId(id) <==> && 1 <= |id| <= 128 && LetterOrDigit(id[0])
                               && forall i | 1 <= i < |id| :: LetterOrDigit(id[i]) || id[i] in Ascii("-._")
  {
    var marks := Ascii("-._");
    assert marks[0] == 45 && marks[1] == 46 && marks[2] == 95 && |marks| == 3;
    assert forall c: Code :: c in marks <==> c == 45 || c == 46 || c == 95;
  }
}
