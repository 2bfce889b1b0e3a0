/** Events as the bytes of one log line. */
module EventCodec {
  import opened Utf8
  import opened JsonCodec
  import opened JsonTheorems
  import opened AgentEvents

  /** An event, a line that is not JSON yet, or JSON that is not an event. */
  datatype EventRead = Event(e: AgentEvent) | NotJson | Invalid

  /** _encode(event.to_dict()) */
  function EncodeEvent(e: AgentEvent): Option<Bytes> {
    EncodeJson(Obj(ToDict(e)))
  }

  /** _decode_json then _event_from_document */
  function DecodeEvent(iso: IsoTime, line: Bytes): EventRead {
    match DecodeJson(line)
    case Broken => NotJson
    case Refused => Invalid
    case Document(v) =>
      if !v.Obj? then Invalid
      else
        match FromDict(iso, v.fields)
        case None => Invalid
        case Some(e) => Event(e)
  }

  function Remove(f: Fields, k: Text): (g: Fields)
  {
    match f
    case NoField => NoField
    case Field(key, v, tail) => if key == k then Remove(tail, k) else Field(key, v, Remove(tail, k))
  }

  /** _identity: everything but the sequence number. */
  function Identity(e: AgentEvent): Option<Bytes> {
    EncodeJson(Obj(Remove(ToDict(e), Name(Sequence))))
  }

  /** An event the log can hold: readable, and made of JSON values. */
  predicate Storable(iso: IsoTime, e: AgentEvent) {
    && Valid(iso, e)
    && JsonValued(e)
    && EncodeEvent(e).Some?
  }

  // ----- proofs -----

  lemma {:induction false} UpdateKeeps(f: Fields, e: AgentEvent, keys: seq<Key>)
    requires WellFormedFields(f) && Sorted(e.payload) && WellFormedFields(e.payload)
    ensures WellFormedFields(Update(f, e, keys))
  {
    hide Name, ValueOf, WellFormed, WellFormedFields, Put;
    if keys != [] {
      ValueWellFormed(e, keys[|keys| - 1]);
      UpdateKeeps(f, e, keys[..|keys| - 1]);
      PutKeeps(Update(f, e, keys[..|keys| - 1]), Name(keys[|keys| - 1]), ValueOf(e, keys[|keys| - 1]));
    }
  }

  /** Dictionaries kept in key order, as this model keeps them. */
  predicate JsonValued(e: AgentEvent) {
    Sorted(e.extra) && Sorted(e.payload) && WellFormedFields(e.payload) && WellFormedFields(e.extra)
  }

  lemma DictWellFormed(e: AgentEvent)
    requires JsonValued(e)
    ensures Sorted(ToDict(e)) && WellFormed(Obj(ToDict(e)))
  {
    hide Name;
    GetUpdate(e.extra, e, KEYS, []);
    UpdateKeeps(e.extra, e, KEYS);
  }

  /** A stored line reads back as the event it was written for. */
  lemma EventRoundTrip(iso: IsoTime, e: AgentEvent)
    requires Storable(iso, e)
    ensures DecodeEvent(iso, EncodeEvent(e).value) == Event(e)
    ensures 10 !in EncodeEvent(e).value
  {
    hide Name, ToDict, Valid;
    DictWellFormed(e);
    DecodeUndoesEncode(Obj(ToDict(e)));
    NoRawNewline(Obj(ToDict(e)));
    FromToDict(iso, e);
  }

  /** A stored line cut short at any byte is not JSON. */
  lemma EventTorn(iso: IsoTime, e: AgentEvent, n: nat)
    requires Storable(iso, e) && n < |EncodeEvent(e).value|
    ensures DecodeEvent(iso, EncodeEvent(e).value[..n]) == NotJson
  {
    hide Name, ToDict, Valid;
    DictWellFormed(e);
    NoProperPrefixDecodes(Obj(ToDict(e)), n);
  }

  lemma {:induction false} GetRemove(f: Fields, k: Text, x: Text)
    ensures Get(Remove(f, k), x) == if x == k then None else Get(f, x)
    ensures forall y | y in Keys(Remove(f, k)) :: y in Keys(f)
    ensures WellFormedFields(f) ==> WellFormedFields(Remove(f, k))
    ensures ScalarFields(f) ==> ScalarFields(Remove(f, k))
  {
    if f.Field? { GetRemove(f.tail, k, x); }
  }

  lemma {:induction false} RemoveSorted(f: Fields, k: Text)
    requires Sorted(f)
    ensures Sorted(Remove(f, k))
  {
    if f.Field? {
      RemoveSorted(f.tail, k);
      SortedKeysAbove(f.tail, f.key);
      GetRemove(f.tail, k, k);
      assert Remove(f.tail, k).Field? ==> Remove(f.tail, k).key in Keys(Remove(f.tail, k));
    }
  }

  /** The dictionary behind an identity can be encoded and has no sequence. */
  lemma IdentityDefined(iso: IsoTime, e: AgentEvent)
    requires Storable(iso, e)
    ensures Identity(e).Some? && WellFormed(Obj(Remove(ToDict(e), Name(Sequence))))
  {
    hide Name, ToDict, Valid;
    var d := ToDict(e);
    DictWellFormed(e);
    EncodableText(Obj(d));
    GetRemove(d, Name(Sequence), []);
    RemoveSorted(d, Name(Sequence));
    EncodableText(Obj(Remove(d, Name(Sequence))));
  }

  /** An event without the number the log assigns. */
  function Content(e: AgentEvent): AgentEvent {
    e.(sequence := 0)
  }

  lemma SameLookups(a: AgentEvent, b: AgentEvent, x: Text)
    requires Sorted(a.extra) && Content(a) == Content(b)
    ensures Get(Remove(ToDict(a), Name(Sequence)), x) == Get(Remove(ToDict(b), Name(Sequence)), x)
  {
    hide Name, Update;
    GetRemove(ToDict(a), Name(Sequence), x);
    GetRemove(ToDict(b), Name(Sequence), x);
    GetUpdate(a.extra, a, KEYS, x);
    GetUpdate(b.extra, b, KEYS, x);
    if x != Name(Sequence) && IsKnown(x, KEYS) {
      var k :| k in KEYS && Name(k) == x;
      GetKnown(a, k);
      GetKnown(b, k);
      SameValueOf(a, b, k);
    }
  }

  lemma SameValueOf(a: AgentEvent, b: AgentEvent, k: Key)
    requires Content(a) == Content(b) && k != Sequence
    ensures ValueOf(a, k) == ValueOf(b, k)
  {
  }

  /** Two stored events are the same to the log exactly when they agree on
      everything but their sequence number. */
  lemma IdentityIsContent(iso: IsoTime, a: AgentEvent, b: AgentEvent)
    requires Storable(iso, a) && Storable(iso, b)
    ensures Identity(a) == Identity(b) <==> Content(a) == Content(b)
  {
    hide Name, Valid, WellFormed, EncodeJson;
    IdentityDefined(iso, a);
    IdentityDefined(iso, b);
    var da := Remove(ToDict(a), Name(Sequence));
    var db := Remove(ToDict(b), Name(Sequence));
    ExtraKeptBy(iso, a);
    ExtraKeptBy(iso, b);
    if Identity(a) == Identity(b) {
      EncodeInjective(Obj(da), Obj(db));
      SameExtra(iso, a, b);
      SameKnown(a, b);
    }
    if Content(a) == Content(b) {
      forall x ensures Get(da, x) == Get(db, x) { SameLookups(a, b, x); }
      SameFields(da, db);
    }
  }

  lemma ExtraKeptBy(iso: IsoTime, e: AgentEvent)
    requires Valid(iso, e)
    ensures Sorted(e.extra) && Sorted(ToDict(e)) && Sorted(Remove(ToDict(e), Name(Sequence)))
    ensures Unknown(ToDict(e)) == e.extra
  {
    hide Name, ToDict;
    ExtraKept(e);
    RemoveSorted(ToDict(e), Name(Sequence));
  }

  lemma SameValue(a: AgentEvent, b: AgentEvent, k: Key)
    requires Sorted(a.extra) && Sorted(b.extra) && k != Sequence
    requires Remove(ToDict(a), Name(Sequence)) == Remove(ToDict(b), Name(Sequence))
    ensures ValueOf(a, k) == ValueOf(b, k)
  {
    assert Name(k) != Name(Sequence) by { if Name(k) == Name(Sequence) { NameInjective(k, Sequence); } }
    hide Name, ToDict;
    GetRemove(ToDict(a), Name(Sequence), Name(k));
    GetRemove(ToDict(b), Name(Sequence), Name(k));
    GetKnown(a, k);
    GetKnown(b, k);
  }

  lemma SameKnown(a: AgentEvent, b: AgentEvent)
    requires Sorted(a.extra) && Sorted(b.extra) && a.extra == b.extra
    requires Remove(ToDict(a), Name(Sequence)) == Remove(ToDict(b), Name(Sequence))
    ensures Content(a) == Content(b)
  {
    hide Name, ToDict;
    SameValue(a, b, EventId); SameValue(a, b, RunId); SameValue(a, b, RuntimeId); SameValue(a, b, Kind);
    SameValue(a, b, Payload); SameValue(a, b, SessionId); SameValue(a, b, TurnId); SameValue(a, b, Timestamp);
    SameValue(a, b, SchemaVersion); SameValue(a, b, RequirementId); SameValue(a, b, TaskId); SameValue(a, b, ExecutionId);
  }

  lemma SameExtra(iso: IsoTime, a: AgentEvent, b: AgentEvent)
    requires Valid(iso, a) && Valid(iso, b)
    requires Remove(ToDict(a), Name(Sequence)) == Remove(ToDict(b), Name(Sequence))
    ensures a.extra == b.extra
  {
    AllKeys(Sequence);
    hide Name, ToDict, Valid;
    ExtraKeptBy(iso, a);
    ExtraKeptBy(iso, b);
    forall x ensures Get(a.extra, x) == Get(b.extra, x) {
      GetUnknown(ToDict(a), x);
      GetUnknown(ToDict(b), x);
      GetRemove(ToDict(a), Name(Sequence), x);
      GetRemove(ToDict(b), Name(Sequence), x);
    }
    SameFields(a.extra, b.extra);
  }

  /** Numbering an event is `document["sequence"] = n`. */
  lemma RenumberedDict(iso: IsoTime, e: AgentEvent, n: nat)
    requires Valid(iso, e)
    ensures ToDict(e.(sequence := n)) == Put(ToDict(e), Name(Sequence), Int(n))
  {
    hide Name, Update;
    var f := e.(sequence := n);
    GetUpdate(e.extra, e, KEYS, []);
    GetUpdate(e.extra, f, KEYS, []);
    PutSorted(ToDict(e), Name(Sequence), Int(n));
    forall x ensures Get(ToDict(f), x) == Get(Put(ToDict(e), Name(Sequence), Int(n)), x) {
      GetPut(ToDict(e), Name(Sequence), Int(n), x);
      GetRemove(ToDict(e), Name(Sequence), x);
      GetRemove(ToDict(f), Name(Sequence), x);
      SameLookups(e, f, x);
      GetKnown(f, Sequence);
    }
    SameFields(ToDict(f), Put(ToDict(e), Name(Sequence), Int(n)));
  }

  lemma RenumberedEncodes(iso: IsoTime, e: AgentEvent, n: nat)
    requires Storable(iso, e) && Valid(iso, e.(sequence := n))
    ensures EncodeEvent(e.(sequence := n)).Some?
  {
    assert AllScalar(Name(Sequence));
    hide Name, ToDict, Valid;
    var f := e.(sequence := n);
    DictWellFormed(e);
    DictWellFormed(f);
    EncodableText(Obj(ToDict(e)));
    EncodableText(Obj(ToDict(f)));
    RenumberedDict(iso, e, n);
    PutKeeps(ToDict(e), Name(Sequence), Int(n));
  }

  /** Assigning a sequence number keeps an event storable. */
  lemma Renumbered(iso: IsoTime, e: AgentEvent, n: nat)
    requires Storable(iso, e)
    ensures Storable(iso, e.(sequence := n))
  {
    hide Name, ToDict, BlankText, IsKnown;
    RenumberedEncodes(iso, e, n);
  }

  lemma {:induction false} GetWellFormed(f: Fields, k: Text)
    requires WellFormedFields(f) && Get(f, k).Some?
    ensures WellFormed(Get(f, k).value)
  {
    if f.key != k { GetWellFormed(f.tail, k); }
  }

  lemma {:induction false} UnknownWellFormed(f: Fields)
    requires WellFormedFields(f)
    ensures WellFormedFields(Unknown(f))
  {
    hide IsKnown;
    if f.Field? { UnknownWellFormed(f.tail); }
  }

  /** Reading a complete document and writing it again gives the same one. */
  lemma Rewritten(iso: IsoTime, e: AgentEvent, i: AgentEvent)
    requires Sorted(e.extra) && FromDict(iso, ToDict(e)) == Some(i)
    ensures Valid(iso, i) && ToDict(i) == ToDict(e)
  {
    hide Name, Readable, FromDict;
    var d := ToDict(e);
    GetUpdate(e.extra, e, KEYS, []);
    ReadIsValid(iso, d);
    GetUpdate(i.extra, i, KEYS, []);
    forall x ensures Get(ToDict(i), x) == Get(d, x) {
      ToFromDict(iso, d, x);
      if Get(d, x) == None && Get(ToDict(i), x).Some? {
        var k :| Name(k) == x && Get(ToDict(i), x).value == Default(k);
        GetKnown(e, k);
      }
    }
    SameFields(ToDict(i), d);
  }

  /** What append copies its argument through: `_decode_event(_encode(...))`. */
  function Copied(iso: IsoTime, e: AgentEvent): Option<AgentEvent> {
    match EncodeEvent(e)
    case None => None
    case Some(bs) =>
      match DecodeEvent(iso, bs)
      case Event(i) => Some(i)
      case _ => None
  }

  lemma CopiedIsRead(iso: IsoTime, e: AgentEvent)
    requires JsonValued(e) && EncodeEvent(e).Some?
    ensures Copied(iso, e) == FromDict(iso, ToDict(e))
  {
    hide Name, ToDict, FromDict;
    DictWellFormed(e);
    DecodeUndoesEncode(Obj(ToDict(e)));
  }

  /** The copy is storable, is encoded as the argument is, and is the argument
      itself when that was readable. */
  lemma CopyFacts(iso: IsoTime, e: AgentEvent, i: AgentEvent)
    requires JsonValued(e) && Copied(iso, e) == Some(i)
    ensures Storable(iso, i) && EncodeEvent(i) == EncodeEvent(e)
    ensures Valid(iso, e) ==> i == e
  {
    hide Name, Valid, Update, EncodeJson, Get, Unknown;
    CopiedIsRead(iso, e);
    Rewritten(iso, e, i);
    DictWellFormed(e);
    GetWellFormed(ToDict(e), Name(Payload));
    UnknownWellFormed(ToDict(e));
    GetUnknown(ToDict(e), []);
    if Valid(iso, e) { FromToDict(iso, e); }
  }

  // ----- which events can be encoded -----

  predicate ScalarEvent(e: AgentEvent) {
    ScalarFields(e.extra) && forall k: Key :: Scalars(ValueOf(e, k))
  }

  lemma ValueWellFormed(e: AgentEvent, k: Key)
    requires Sorted(e.payload) && WellFormedFields(e.payload)
    ensures WellFormed(ValueOf(e, k))
  {
  }

  lemma NameScalar(k: Key)
    ensures AllScalar(Name(k))
  {
  }

  lemma {:induction false} UpdateScalar(f: Fields, e: AgentEvent, keys: seq<Key>)
    requires WellFormedFields(f) && Sorted(e.payload) && WellFormedFields(e.payload)
    requires ScalarFields(f) && forall k: Key :: Scalars(ValueOf(e, k))
    ensures ScalarFields(Update(f, e, keys))
  {
    hide Name, ValueOf;
    if keys != [] {
      var k := keys[|keys| - 1];
      NameScalar(k);
      ValueWellFormed(e, k);
      UpdateScalar(f, e, keys[..|keys| - 1]);
      UpdateKeeps(f, e, keys[..|keys| - 1]);
      PutKeeps(Update(f, e, keys[..|keys| - 1]), Name(k), ValueOf(e, k));
    }
  }

  lemma {:induction false} GetScalar(f: Fields, k: Text)
    requires ScalarFields(f) && Get(f, k).Some?
    ensures Scalars(Get(f, k).value)
  {
    if f.key != k { GetScalar(f.tail, k); }
  }

  lemma {:induction false} UnknownScalar(f: Fields)
    requires ScalarFields(f)
    ensures ScalarFields(Unknown(f))
  {
    hide IsKnown;
    if f.Field? { UnknownScalar(f.tail); }
  }

  /** An event is written unless some text in it holds a lone surrogate. */
  lemma EncodableEvent(iso: IsoTime, e: AgentEvent)
    requires Valid(iso, e) && JsonValued(e)
    ensures EncodeEvent(e).Some? <==> ScalarEvent(e)
  {
    hide Name, Update, Unknown;
    DictWellFormed(e);
    EncodableText(Obj(ToDict(e)));
    if ScalarEvent(e) { UpdateScalar(e.extra, e, KEYS); }
    if ScalarFields(ToDict(e)) {
      ExtraKept(e);
      UnknownScalar(ToDict(e));
      forall k: Key ensures Scalars(ValueOf(e, k)) {
        GetKnown(e, k);
        GetScalar(ToDict(e), Name(k));
      }
    }
  }
}
