/** What can be read is what can be written again. */
module JsonReading {
  import opened Utf8
  import opened JsonCodec
  import opened JsonTheorems
  import opened JsonGrammar

  lemma {:induction false} SpeltWellFormed(s: Text, v: Json, rest: Text)
    requires Spells(s, v, rest)
    ensures WellFormed(v)
    decreases |s|, 0
  {
    hide White, EndsHere, SpellsFloat, FromPairs, DictOf;
    match v
    case Float(x) => FloatTokens(x);
    case Arr(items) =>
      if items != NoItem {
        var next :| White(s[1..], next) && |next| < |s| && SpellsItems(next, items, rest);
        SpeltItems(next, items, rest);
      }
    case Obj(d) =>
      var next, pairs :|
        White(s[1..], next) && |next| < |s| && DictOf(pairs, d)
        && if pairs == NoField then Begins(next, '}') && rest == next[1..] else SpellsFields(next, pairs, rest);
      if pairs != NoField { SpeltFields(next, pairs, rest); }
      DictIs(pairs, d);
      PairsAre(pairs);
      PairsKeep(pairs);
    case _ =>
  }

  lemma {:induction false} SpeltItems(s: Text, items: Items, rest: Text)
    requires SpellsItems(s, items, rest)
    ensures WellFormedItems(items)
    decreases |s|, 1
  {
    hide White, EndsHere, WellFormed, Spells;
    var after, mark :| Spells(s, items.head, after) && White(after, mark) && |mark| < |s| && ItemsGoOn(|s|, mark, items.tail, rest);
    SpeltWellFormed(s, items.head, after);
    if items.tail != NoItem {
      var next :| White(mark[1..], next) && |next| < |s| && SpellsItems(next, items.tail, rest);
      SpeltItems(next, items.tail, rest);
    }
  }

  lemma {:induction false} SpeltFields(s: Text, pairs: Fields, rest: Text)
    requires SpellsFields(s, pairs, rest)
    ensures WellFormedFields(pairs)
    decreases |s|, 1
  {
    hide White, EndsHere, WellFormed, Spells, Body;
    var after, colon, value :|
      Body(s[1..], pairs.key, after) && White(after, colon) && Begins(colon, ':') && White(colon[1..], value) && |value| < |s|
      && exists end, mark :: Spells(value, pairs.value, end) && White(end, mark) && |mark| < |s| && FieldsGoOn(|s|, mark, pairs.tail, rest);
    var end, mark :| Spells(value, pairs.value, end) && White(end, mark) && |mark| < |s| && FieldsGoOn(|s|, mark, pairs.tail, rest);
    SpeltWellFormed(value, pairs.value, end);
    if pairs.tail != NoField {
      var next :| White(mark[1..], next) && |next| < |s| && SpellsFields(next, pairs.tail, rest);
      SpeltFields(next, pairs.tail, rest);
    }
  }

  lemma {:induction false} PairsKeep(pairs: Fields)
    requires WellFormedFields(pairs) && FromPairs(pairs).Some?
    ensures WellFormedFields(FromPairs(pairs).value)
  {
    hide WellFormed;
    if pairs.Field? {
      PairsKeep(pairs.tail);
      PutKeeps(FromPairs(pairs.tail).value, pairs.key, pairs.value);
    }
  }

  /** The values the codec's laws are about are those that some text is read as, no
      more and no fewer. */
  lemma WellFormedIs(v: Json)
    ensures WellFormed(v) <==> exists s :: DecodeText(s) == Document(v)
  {
    hide WellFormed, DecodeText, Writes;
    if WellFormed(v) { TextReads(v); }
    if s :| DecodeText(s) == Document(v) { ReadWellFormed(s, v); }
  }

  lemma TextReads(v: Json)
    requires WellFormed(v)
    ensures DecodeText(EncodeText(v)) == Document(v)
  {
    hide WellFormed, ParseValue, EncodeText;
    var t := EncodeText(v);
    TextStart(v);
    NoSkip(t);
    ValueRoundTrip(v, []);
    assert t + [] == t;
  }

  lemma ReadWellFormed(s: Text, v: Json)
    requires DecodeText(s) == Document(v)
    ensures WellFormed(v)
  {
    hide WellFormed, DecodeText, Spells, White;
    DocumentIs(s, v);
    var start, end :| White(s, start) && Spells(start, v, end) && White(end, []);
    SpeltWellFormed(start, v, end);
  }

  /** Whatever bytes a document was read from, written again it is read as the same
      document; it can be written unless a text in it holds half of a surrogate
      pair. */
  lemma ReadAgain(bs: Bytes, v: Json)
    requires DecodeJson(bs) == Document(v)
    ensures EncodeJson(v).Some? <==> Scalars(v)
    ensures Scalars(v) ==> DecodeJson(EncodeJson(v).value) == Document(v)
  {
    hide WellFormed, DecodeText, Scalars, EncodeText, Decode;
    ReadWellFormed(Decode(bs).value, v);
    EncodableText(v);
    if EncodeJson(v).Some? { DecodeUndoesEncode(v); }
  }

  /** A text can be written exactly when no character of it is half of a surrogate
      pair. */
  lemma HalvesAre(t: Text)
    ensures AllScalar(t) <==> forall c | c in t :: !High(c) && !LowHalf(c)
  {
    forall c: Code ensures Scalar(c) <==> !High(c) && !LowHalf(c) {}
  }
}
