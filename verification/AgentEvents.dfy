/** The event record and its JSON document: thirteen known fields, strictly
    read, and any other field carried through unchanged. */
module AgentEvents {
  import opened Utf8
  import opened JsonCodec
  import opened JsonTheorems

  datatype AgentEvent = AgentEvent(
    eventId: Text, runId: Text, runtimeId: Text, kind: Text, payload: Fields,
    sessionId: Option<Text>, turnId: Option<Text>, timestamp: Text, sequence: int,
    schemaVersion: int, extra: Fields,
    requirementId: Option<Text>, taskId: Option<Text>, executionId: Option<Text>)

  /** Which texts `datetime.fromisoformat` reads as a time with a zone. */
  type IsoTime = Text -> bool

  datatype Key =
    | EventId | RunId | RuntimeId | Kind | Payload | SessionId | TurnId | Timestamp | Sequence
    | SchemaVersion | RequirementId | TaskId | ExecutionId

  /** The order in which to_dict sets the known fields. */
  const KEYS: seq<Key> := [EventId, RunId, RuntimeId, Kind, Payload, SessionId, TurnId, Timestamp,
                           Sequence, SchemaVersion, RequirementId, TaskId, ExecutionId]

  function Name(k: Key): (t: Text) {
    match k
    case EventId => Ascii("event_id")
    case RunId => Ascii("run_id")
    case RuntimeId => Ascii("runtime_id")
    case Kind => Ascii("kind")
    case Payload => Ascii("payload")
    case SessionId => Ascii("session_id")
    case TurnId => Ascii("turn_id")
    case Timestamp => Ascii("timestamp")
    case Sequence => Ascii("sequence")
    case SchemaVersion => Ascii("schema_version")
    case RequirementId => Ascii("requirement_id")
    case TaskId => Ascii("task_id")
    case ExecutionId => Ascii("execution_id")
  }

  function Nullable(v: Option<Text>): Json {
    if v.Some? then Str(v.value) else Null
  }

  function ValueOf(e: AgentEvent, k: Key): Json {
    match k
    case EventId => Str(e.eventId)
    case RunId => Str(e.runId)
    case RuntimeId => Str(e.runtimeId)
    case Kind => Str(e.kind)
    case Payload => Obj(e.payload)
    case SessionId => Nullable(e.sessionId)
    case TurnId => Nullable(e.turnId)
    case Timestamp => Str(e.timestamp)
    case Sequence => Int(e.sequence)
    case SchemaVersion => Int(e.schemaVersion)
    case RequirementId => Nullable(e.requirementId)
    case TaskId => Nullable(e.taskId)
    case ExecutionId => Nullable(e.executionId)
  }

  predicate IsKnown(x: Text, keys: seq<Key>) {
    exists k | k in keys :: Name(k) == x
  }

  /** dict.update with the known fields listed. */
  function Update(f: Fields, e: AgentEvent, keys: seq<Key>): Fields {
    if keys == [] then f
    else Put(Update(f, e, keys[..|keys| - 1]), Name(keys[|keys| - 1]), ValueOf(e, keys[|keys| - 1]))
  }

  /** AgentEvent.to_dict */
  function ToDict(e: AgentEvent): Fields {
    Update(e.extra, e, KEYS)
  }

  /** The fields with an unknown key. */
  function Unknown(f: Fields): (g: Fields)
    ensures forall x | x in Keys(g) :: x in Keys(f)
  {
    match f
    case NoField => NoField
    case Field(k, v, tail) => if IsKnown(k, KEYS) then Unknown(tail) else Field(k, v, Unknown(tail))
  }

  /** not s.strip() */
  predicate BlankText(s: Text) {
    forall i | 0 <= i < |s| :: IsSpaceCode(s[i])
  }

  predicate IsName(v: Option<Json>) {
    v.Some? && v.value.Str? && !BlankText(v.value.s)
  }

  predicate IsNullableName(v: Option<Json>) {
    v == None || v.value.Null? || IsName(v)
  }

  function NameOf(v: Option<Json>): Text
    requires IsName(v)
  {
    v.value.s
  }

  function NullableOf(v: Option<Json>): Option<Text>
    requires IsNullableName(v)
  {
    if v.Some? && v.value.Str? then Some(v.value.s) else None
  }

  /** The checks of from_dict. */
  predicate Readable(iso: IsoTime, d: Fields) {
    && IsName(Get(d, Name(EventId)))
    && IsName(Get(d, Name(RunId)))
    && IsName(Get(d, Name(RuntimeId)))
    && IsName(Get(d, Name(Kind)))
    && IsName(Get(d, Name(Timestamp)))
    && IsNullableName(Get(d, Name(SessionId)))
    && IsNullableName(Get(d, Name(TurnId)))
    && IsNullableName(Get(d, Name(RequirementId)))
    && IsNullableName(Get(d, Name(TaskId)))
    && IsNullableName(Get(d, Name(ExecutionId)))
    && (var s := Get(d, Name(Sequence)); s == None || (s.value.Int? && s.value.n >= 0))
    && Get(d, Name(SchemaVersion)) == Some(Int(1))
    && (var p := Get(d, Name(Payload)); p.Some? && p.value.Obj?)
    && iso(NameOf(Get(d, Name(Timestamp))))
  }

  /** AgentEvent.from_dict; None is its ValueError or TypeError. */
  function FromDict(iso: IsoTime, d: Fields): Option<AgentEvent> {
    if !Readable(iso, d) then None
    else
      var s := Get(d, Name(Sequence));
      Some(AgentEvent(
        NameOf(Get(d, Name(EventId))), NameOf(Get(d, Name(RunId))),
        NameOf(Get(d, Name(RuntimeId))), NameOf(Get(d, Name(Kind))),
        Get(d, Name(Payload)).value.fields,
        NullableOf(Get(d, Name(SessionId))), NullableOf(Get(d, Name(TurnId))),
        NameOf(Get(d, Name(Timestamp))),
        if s.Some? then s.value.n else 0, 1,
        Unknown(d),
        NullableOf(Get(d, Name(RequirementId))), NullableOf(Get(d, Name(TaskId))),
        NullableOf(Get(d, Name(ExecutionId)))))
  }

  predicate ValidName(v: Option<Text>) {
    v.Some? ==> !BlankText(v.value)
  }

  /** An event that from_dict can return. */
  predicate Valid(iso: IsoTime, e: AgentEvent) {
    && !BlankText(e.eventId) && !BlankText(e.runId) && !BlankText(e.runtimeId) && !BlankText(e.kind) && !BlankText(e.timestamp)
    && ValidName(e.sessionId) && ValidName(e.turnId)
    && ValidName(e.requirementId) && ValidName(e.taskId) && ValidName(e.executionId)
    && e.sequence >= 0 && e.schemaVersion == 1 && iso(e.timestamp)
    && Sorted(e.extra) && (forall x | x in Keys(e.extra) :: !IsKnown(x, KEYS))
  }

  // ----- proofs -----

  lemma NameInjective(j: Key, k: Key)
    requires Name(j) == Name(k)
    ensures j == k
  {
    assert Name(EventId)[0] == 101 && Name(Sequence)[0] == 115;
    assert Name(RuntimeId)[0] == 114 && Name(SessionId)[0] == 115;
    assert Name(Payload)[0] == 112 && Name(TurnId)[0] == 116 && Name(TurnId)[1] == 117;
    assert Name(TaskId)[0] == 116 && Name(TaskId)[1] == 97;
    assert Name(SchemaVersion)[0] == 115 && Name(RequirementId)[0] == 114;
  }

  lemma {:induction false} GetUpdate(f: Fields, e: AgentEvent, keys: seq<Key>, x: Text)
    requires Sorted(f)
    ensures Sorted(Update(f, e, keys))
    ensures !IsKnown(x, keys) ==> Get(Update(f, e, keys), x) == Get(f, x)
    ensures forall k | k in keys && Name(k) == x :: Get(Update(f, e, keys), x) == Some(ValueOf(e, k))
  {
    if keys != [] {
      var init := keys[..|keys| - 1];
      var last := keys[|keys| - 1];
      assert keys == init + [last];
      GetUpdate(f, e, init, x);
      PutSorted(Update(f, e, init), Name(last), ValueOf(e, last));
      GetPut(Update(f, e, init), Name(last), ValueOf(e, last), x);
      forall k | k in keys && Name(k) == x ensures Get(Update(f, e, keys), x) == Some(ValueOf(e, k)) {
        if Name(last) == x { NameInjective(k, last); }
      }
    }
  }

  lemma AllKeys(k: Key)
    ensures k in KEYS
  {
    assert KEYS[0] == EventId && KEYS[1] == RunId && KEYS[2] == RuntimeId && KEYS[3] == Kind && KEYS[4] == Payload
        && KEYS[5] == SessionId && KEYS[6] == TurnId && KEYS[7] == Timestamp && KEYS[8] == Sequence
        && KEYS[9] == SchemaVersion && KEYS[10] == RequirementId && KEYS[11] == TaskId && KEYS[12] == ExecutionId;
  }

  /** to_dict stores every known field under its name. */
  lemma GetKnown(e: AgentEvent, k: Key)
    requires Sorted(e.extra)
    ensures Get(ToDict(e), Name(k)) == Some(ValueOf(e, k))
  {
    AllKeys(k);
    GetUpdate(e.extra, e, KEYS, Name(k));
  }

  lemma {:induction false} GetUnknown(f: Fields, x: Text)
    requires Sorted(f)
    ensures Get(Unknown(f), x) == if IsKnown(x, KEYS) then None else Get(f, x)
    ensures Sorted(Unknown(f))
  {
    if f.Field? {
      GetUnknown(f.tail, x);
      SortedKeysAbove(f.tail, f.key);
      assert Unknown(f.tail).Field? ==> Unknown(f.tail).key in Keys(Unknown(f.tail));
    }
  }

  lemma ExtraKept(e: AgentEvent)
    requires Sorted(e.extra) && forall x | x in Keys(e.extra) :: !IsKnown(x, KEYS)
    ensures Sorted(ToDict(e)) && Unknown(ToDict(e)) == e.extra
  {
    var d := ToDict(e);
    GetUpdate(e.extra, e, KEYS, []);
    GetUnknown(d, []);
    forall x ensures Get(Unknown(d), x) == Get(e.extra, x) {
      GetUnknown(d, x);
      GetUpdate(e.extra, e, KEYS, x);
    }
    SameFields(Unknown(d), e.extra);
  }

  /** Writing an event and reading it back loses nothing, unknown fields
      included. */
  lemma FromToDict(iso: IsoTime, e: AgentEvent)
    requires Valid(iso, e)
    ensures FromDict(iso, ToDict(e)) == Some(e)
  {
    hide Name, Update, Unknown, BlankText, Get, ToDict, IsKnown;
    ExtraKept(e);
    GetKnown(e, EventId); GetKnown(e, RunId); GetKnown(e, RuntimeId); GetKnown(e, Kind);
    GetKnown(e, Payload); GetKnown(e, SessionId); GetKnown(e, TurnId); GetKnown(e, Timestamp);
    GetKnown(e, Sequence); GetKnown(e, SchemaVersion); GetKnown(e, RequirementId);
    GetKnown(e, TaskId); GetKnown(e, ExecutionId);
  }

  /** The value an absent optional field is written with. */
  function Default(k: Key): Json {
    if k == Sequence then Int(0) else Null
  }

  lemma KnownKept(iso: IsoTime, d: Fields, k: Key)
    requires FromDict(iso, d).Some?
    ensures ValueOf(FromDict(iso, d).value, k) == if Get(d, Name(k)).Some? then Get(d, Name(k)).value else Default(k)
  {
    hide Name, BlankText, Unknown, Get;
  }

  lemma ReadIsValid(iso: IsoTime, d: Fields)
    requires Sorted(d) && FromDict(iso, d).Some?
    ensures Valid(iso, FromDict(iso, d).value)
  {
    hide Name, Unknown, BlankText, IsKnown, Get, Keys, Sorted;
    GetUnknown(d, []);
    forall x | x in Keys(Unknown(d)) ensures !IsKnown(x, KEYS) { GetUnknown(d, x); }
  }

  /** Reading a document keeps every field it has: writing the event again
      changes no field and only adds the defaults of the absent ones. */
  lemma ToFromDict(iso: IsoTime, d: Fields, x: Text)
    requires Sorted(d) && FromDict(iso, d).Some?
    ensures var w := Get(ToDict(FromDict(iso, d).value), x);
            if Get(d, x).Some? then w == Get(d, x)
            else w.Some? ==> exists k :: Name(k) == x && w.value == Default(k)
  {
    var e := FromDict(iso, d).value;
    ReadIsValid(iso, d);
    if IsKnown(x, KEYS) {
      var k :| k in KEYS && Name(k) == x;
      GetKnown(e, k);
      KnownKept(iso, d, k);
    } else {
      GetUpdate(e.extra, e, KEYS, x);
      GetUnknown(d, x);
    }
  }
}
