/** What the event log needs of its codec: decoding undoes encoding, no proper
    byte prefix of an encoded object decodes, and no raw newline is written. */
module JsonTheorems {
  import opened Utf8
  import opened JsonNumbers
  import opened JsonStrings
  import opened JsonCodec

  /** What may follow a value inside a document. */
  predicate Delimited(rest: Text) {
    rest == [] || rest[0] == 44 || rest[0] == 93 || rest[0] == 125
  }

  lemma CutConcat(a: Text, b: Text, n: nat)
    requires n <= |a| + |b|
    ensures n <= |a| ==> (a + b)[..n] == a[..n]
    ensures n >= |a| ==> (a + b)[..n] == a + b[..n - |a|]
  {
  }

  lemma CutAfterFirst(c: Code, t: Text, n: nat)
    requires 0 < n <= |t| + 1
    ensures ([c] + t)[..n] == [c] + t[..n - 1]
    ensures ([c] + t)[..n][1..] == t[..n - 1]
  {
  }

  lemma NoSkip(s: Text)
    requires s == [] || !IsWs(s[0])
    ensures SkipWs(s) == s
  {
  }

  lemma TextStart(v: Json)
    requires WellFormed(v)
    ensures var t := EncodeText(v); t != [] && !IsWs(t[0]) && t[0] != 93
  {
    match v
    case Int(n) => EncodedIntIsLexeme(n); LexemeChars(EncodeInt(n));
    case Float(x) => LexemeChars(x);
    case _ =>
  }

  /** A value that starts like a number is scanned as one. */
  lemma NumberStart(s: Text)
    requires s != [] && NumberChar(s[0])
    ensures ParseValue(s) == ParseNumber(s)
  {
    hide ParseObject, ParseArray, ParseChars, ParseNumber, FromPairs;
    assert s[0] != NULL[0] && !StartsWith(s, NULL);
    assert s[0] != TRUE[0] && !StartsWith(s, TRUE);
    assert s[0] != FALSE[0] && !StartsWith(s, FALSE);
  }

  lemma NumberRoundTrip(x: Text, rest: Text)
    requires IsIntLexeme(x) || IsFloatLexeme(x)
    requires Delimited(rest)
    ensures ParseValue(x + rest) == Ok(if IsIntLexeme(x) then Int(IntValue(x)) else Float(x), rest)
  {
    LexemeChars(x);
    ScanStops(x, rest);
    var s := x + rest;
    assert s[0] == x[0];
    NumberStart(s);
    assert s[..|x|] == x && s[|x|..] == rest;
  }

  lemma WordRoundTrip(v: Json, rest: Text)
    requires v.Null? || v.Bool?
    ensures ParseValue(EncodeText(v) + rest) == Ok(v, rest)
  {
    var t := EncodeText(v);
    var s := t + rest;
    assert s[0] == t[0] && s[|t|..] == rest;
    assert NULL[0] == 110 && TRUE[0] == 116 && FALSE[0] == 102;
  }

  lemma {:induction false} ValueRoundTrip(v: Json, rest: Text)
    requires WellFormed(v) && Delimited(rest)
    ensures ParseValue(EncodeText(v) + rest) == Ok(v, rest)
    decreases v, 1
  {
    match v
    case Null => WordRoundTrip(v, rest);
    case Bool(_) => WordRoundTrip(v, rest);
    case Int(n) =>
      EncodedIntIsLexeme(n);
      NumberRoundTrip(EncodeInt(n), rest);
    case Float(x) => NumberRoundTrip(x, rest);
    case Str(t) =>
      assert (EncodeStr(t) + rest)[1..] == EncodeChars(t) + rest;
      CharsRoundTrip(t, rest);
    case Arr(items) => ArrayRoundTrip(items, rest);
    case Obj(fields) => ObjectRoundTrip(fields, rest);
  }

  lemma ArrayRead(items: Items, body: Text, rest: Text)
    requires body != [] && !IsWs(body[0])
    requires if body[0] == 93 then items == NoItem && rest == body[1..] else ParseItem(body) == Ok(items, rest)
    ensures ParseValue([91] + body) == Ok(Arr(items), rest)
  {
    assert ([91] + body)[1..] == body;
    NoSkip(body);
  }

  lemma {:induction false} ArrayRoundTrip(items: Items, rest: Text)
    requires WellFormedItems(items)
    ensures ParseValue(EncodeText(Arr(items)) + rest) == Ok(Arr(items), rest)
    decreases items, 2
  {
    hide EncodeItems, ParseItem, SkipWs, ParseValue;
    match items
    case NoItem =>
      assert EncodeText(Arr(items)) + rest == [91] + ([93] + rest);
      ArrayRead(items, [93] + rest, rest);
    case Item(v, tail) =>
      TextStart(v);
      ItemsBody(v, tail);
      var body := EncodeText(v) + (EncodeItems(tail) + rest);
      assert EncodeText(Arr(items)) + rest == [91] + body;
      ItemRoundTrip(v, tail, rest);
      ArrayRead(items, body, rest);
  }

  lemma {:induction false} ItemRoundTrip(v: Json, tail: Items, rest: Text)
    requires WellFormed(v) && WellFormedItems(tail)
    ensures ParseItem(EncodeText(v) + (EncodeItems(tail) + rest)) == Ok(Item(v, tail), rest)
    decreases Item(v, tail), 1
  {
    hide EncodeText, EncodeItems, ParseValue, ParseItems, WellFormed, WellFormedItems, AllNumberChars;
    ValueRoundTrip(v, EncodeItems(tail) + rest);
    ItemsRoundTrip(tail, rest);
  }

  lemma {:induction false} ItemsRoundTrip(items: Items, rest: Text)
    requires WellFormedItems(items)
    ensures ParseItems(EncodeItems(items) + rest) == Ok(items, rest)
    decreases items, 2
  {
    hide EncodeText, ParseItem, SkipWs;
    var s := EncodeItems(items) + rest;
    NoSkip(s);
    match items
    case NoItem => assert s[1..] == rest;
    case Item(v, tail) =>
      TextStart(v);
      var u := EncodeText(v) + (EncodeItems(tail) + rest);
      ItemsBody(v, tail);
      assert s[1..] == u;
      NoSkip(u);
      ItemRoundTrip(v, tail, rest);
  }

  lemma ObjectText(k: Text, v: Json, tail: Fields, rest: Text)
    ensures EncodeText(Obj(Field(k, v, tail))) + rest
            == [123] + (EncodeStr(k) + ([58] + (EncodeText(v) + (EncodeFields(tail) + rest))))
  {
    hide EncodeFields, EncodeStr;
  }

  /** An object is its fields, read and then keyed. */
  lemma ObjectRead(fields: Fields, body: Text, rest: Text)
    requires Sorted(fields) && ParseObject(body) == Ok(fields, rest)
    ensures ParseValue([123] + body) == Ok(Obj(fields), rest)
  {
    assert ([123] + body)[1..] == body;
    SortedPairs(fields);
  }

  lemma {:induction false} ObjectRoundTrip(fields: Fields, rest: Text)
    requires Sorted(fields) && WellFormedFields(fields)
    ensures ParseValue(EncodeText(Obj(fields)) + rest) == Ok(Obj(fields), rest)
    decreases fields, 2
  {
    hide EncodeFields, EncodeStr, ParseField, SkipWs, ParseValue;
    match fields
    case NoField =>
      assert ([125] + rest)[1..] == rest;
      assert EncodeText(Obj(fields)) + rest == [123] + ([125] + rest);
      NoSkip([125] + rest);
      ObjectRead(fields, [125] + rest, rest);
    case Field(k, v, tail) =>
      var body := EncodeStr(k) + ([58] + (EncodeText(v) + (EncodeFields(tail) + rest)));
      ObjectText(k, v, tail, rest);
      FieldRoundTrip(k, v, tail, rest);
      NoSkip(body);
      ObjectRead(fields, body, rest);
  }

  lemma {:induction false} FieldRoundTrip(k: Text, v: Json, tail: Fields, rest: Text)
    requires WellFormed(v) && WellFormedFields(tail)
    ensures ParseField(EncodeStr(k) + ([58] + (EncodeText(v) + (EncodeFields(tail) + rest)))) == Ok(Field(k, v, tail), rest)
    decreases Field(k, v, tail), 1
  {
    hide EncodeText, EncodeFields, EncodeStr, ParseValue, ParseField, ParseFields, SkipWs;
    var value := EncodeText(v) + (EncodeFields(tail) + rest);
    var colon := [58] + value;
    KeyRead(k, colon);
    NoSkip(colon);
    assert colon[1..] == value;
    TextStart(v);
    NoSkip(value);
    ValueRoundTrip(v, EncodeFields(tail) + rest);
    FieldsRoundTrip(tail, rest);
  }

  lemma FieldsText(k: Text, v: Json, tail: Fields, rest: Text)
    ensures EncodeFields(Field(k, v, tail)) + rest
            == [44] + (EncodeStr(k) + ([58] + (EncodeText(v) + (EncodeFields(tail) + rest))))
  {
    hide EncodeText, EncodeStr;
  }

  lemma {:induction false} FieldsRoundTrip(fields: Fields, rest: Text)
    requires WellFormedFields(fields)
    ensures ParseFields(EncodeFields(fields) + rest) == Ok(fields, rest)
    decreases fields, 2
  {
    hide EncodeText, EncodeStr, ParseField, SkipWs;
    var s := EncodeFields(fields) + rest;
    NoSkip(s);
    match fields
    case NoField => assert s[1..] == rest;
    case Field(k, v, tail) =>
      var u := EncodeStr(k) + ([58] + (EncodeText(v) + (EncodeFields(tail) + rest)));
      FieldsText(k, v, tail, rest);
      assert s[1..] == u;
      NoSkip(u);
      FieldRoundTrip(k, v, tail, rest);
  }

  // ----- texts cut short -----

  /** Reading a cut value: an error, or a shorter number with only number
      characters left over. */
  predicate Cut(r: Parsed<Json>) {
    r.Syntax? || (r.Ok? && AllNumberChars(r.rest))
  }

  lemma NoConstant(s: Text)
    requires s == [] || s[0] == 110 || s[0] == 116 || s[0] == 102 || AllNumberChars(s)
    ensures ParseNumber(s) != Rejected
  {
    var infinity: Text := [73, 110, 102, 105, 110, 105, 116, 121];
    var negative: Text := [45, 73, 110, 102, 105, 110, 105, 116, 121];
    var nan: Text := [78, 97, 78];
    assert infinity[0] == 73 && negative[0] == 45 && negative[1] == 73 && nan[0] == 78;
  }

  lemma NumberTorn(p: Text)
    requires AllNumberChars(p)
    ensures Cut(ParseValue(p))
  {
    if p != [] {
      NumberStart(p);
      NoConstant(p);
    }
  }

  lemma WordTorn(v: Json, n: nat)
    requires v.Null? || v.Bool?
    requires n < |EncodeText(v)|
    ensures ParseValue(EncodeText(v)[..n]) == Syntax
  {
    var t := EncodeText(v);
    var p := t[..n];
    if n > 0 {
      assert p[0] == t[0];
      assert NULL[0] == 110 && TRUE[0] == 116 && FALSE[0] == 102;
      NoConstant(p);
    }
  }

  lemma {:induction false} ValueTorn(v: Json, n: nat)
    requires WellFormed(v) && n < |EncodeText(v)|
    ensures Cut(ParseValue(EncodeText(v)[..n]))
    ensures v.Obj? ==> ParseValue(EncodeText(v)[..n]) == Syntax
    decreases v, 1
  {
    match v
    case Null => WordTorn(v, n);
    case Bool(_) => WordTorn(v, n);
    case Int(i) =>
      EncodedIntIsLexeme(i);
      LexemeChars(EncodeInt(i));
      NumberTorn(EncodeInt(i)[..n]);
    case Float(x) =>
      LexemeChars(x);
      NumberTorn(x[..n]);
    case Str(t) => StrTorn(t, n);
    case Arr(items) => if n > 0 { ArrayTorn(items, n); }
    case Obj(fields) => if n > 0 { ObjectTorn(fields, n); }
  }

  lemma StrTorn(t: Text, n: nat)
    requires n < |EncodeStr(t)|
    ensures ParseValue(EncodeStr(t)[..n]) == Syntax
  {
    if n > 0 {
      assert EncodeStr(t)[..n][1..] == EncodeChars(t)[..n - 1];
      CharsTorn(t, n - 1);
    }
  }

  lemma ArrayCut(body: Text)
    requires body == [] || (!IsWs(body[0]) && body[0] != 93 && ParseItem(body) == Syntax)
    ensures ParseValue([91] + body) == Syntax
  {
    assert ([91] + body)[1..] == body;
    NoSkip(body);
    assert ParseValue([]) == Syntax;
  }

  lemma {:induction false} ArrayTorn(items: Items, n: nat)
    requires WellFormedItems(items) && 0 < n < |EncodeText(Arr(items))|
    ensures ParseValue(EncodeText(Arr(items))[..n]) == Syntax
    decreases items, 2
  {
    hide EncodeItems, ParseItem, SkipWs;
    match items
    case NoItem =>
      CutAfterFirst(91, [93], n);
      assert EncodeText(Arr(items))[..n] == [91] + [];
      ArrayCut([]);
    case Item(v, tail) =>
      TextStart(v);
      var body := EncodeText(v) + EncodeItems(tail);
      ItemsBody(v, tail);
      CutAfterFirst(91, body, n);
      ItemTorn(v, tail, n - 1);
      ArrayCut(body[..n - 1]);
  }

  /** After a shortened number comes neither a separator nor an end. */
  lemma StuckItems(r: Parsed<Json>)
    requires Cut(r) && r.Ok?
    ensures ParseItems(r.rest) == Syntax
  {
    NoSkip(r.rest);
  }

  lemma StuckFields(r: Parsed<Json>)
    requires Cut(r) && r.Ok?
    ensures ParseFields(r.rest) == Syntax
  {
    NoSkip(r.rest);
  }

  lemma {:induction false} ItemTorn(v: Json, tail: Items, n: nat)
    requires WellFormed(v) && WellFormedItems(tail)
    requires n < |EncodeText(v) + EncodeItems(tail)|
    ensures ParseItem((EncodeText(v) + EncodeItems(tail))[..n]) == Syntax
    decreases Item(v, tail), 1
  {
    hide EncodeText, EncodeItems, ParseValue, ParseItems, WellFormed, WellFormedItems, AllNumberChars;
    var head := EncodeText(v);
    var rest := EncodeItems(tail);
    CutConcat(head, rest, n);
    if n < |head| {
      ValueTorn(v, n);
      if ParseValue(head[..n]).Ok? { StuckItems(ParseValue(head[..n])); }
    } else {
      ValueRoundTrip(v, rest[..n - |head|]);
      ItemsTorn(tail, n - |head|);
    }
  }

  lemma ItemsBody(v: Json, tail: Items)
    ensures EncodeItems(Item(v, tail)) == [44] + (EncodeText(v) + EncodeItems(tail))
    ensures EncodeText(Arr(Item(v, tail))) == [91] + (EncodeText(v) + EncodeItems(tail))
  {
  }

  lemma {:induction false} ItemsTorn(items: Items, n: nat)
    requires WellFormedItems(items) && n < |EncodeItems(items)|
    ensures ParseItems(EncodeItems(items)[..n]) == Syntax
    decreases items, 2
  {
    hide EncodeText, ParseItem, SkipWs;
    var s := EncodeItems(items)[..n];
    NoSkip(s);
    if n > 0 {
      match items
      case NoItem =>
      case Item(v, tail) =>
        TextStart(v);
        var body := EncodeText(v) + EncodeItems(tail);
        ItemsBody(v, tail);
        CutAfterFirst(44, body, n);
        NoSkip(body[..n - 1]);
        ItemTorn(v, tail, n - 1);
    }
  }

  lemma {:induction false} ObjectTorn(fields: Fields, n: nat)
    requires WellFormedFields(fields) && 0 < n < |EncodeText(Obj(fields))|
    ensures ParseValue(EncodeText(Obj(fields))[..n]) == Syntax
    decreases fields, 2
  {
    hide EncodeFields, EncodeStr, ParseField, SkipWs, ParseValue;
    match fields
    case NoField =>
      CutAfterFirst(123, [125], n);
      assert EncodeText(Obj(fields))[..n] == [123] + [];
      ObjectCut([]);
    case Field(k, v, tail) =>
      var body := EncodeStr(k) + ([58] + (EncodeText(v) + EncodeFields(tail)));
      ObjectBody(k, v, tail);
      CutAfterFirst(123, body, n);
      FieldTorn(k, v, tail, n - 1);
      ObjectCut(body[..n - 1]);
  }

  lemma ObjectBody(k: Text, v: Json, tail: Fields)
    ensures EncodeText(Obj(Field(k, v, tail))) == [123] + (EncodeStr(k) + ([58] + (EncodeText(v) + EncodeFields(tail))))
  {
  }

  lemma ObjectCut(body: Text)
    requires body == [] || (body[0] == QUOTE && ParseField(body) == Syntax)
    ensures ParseValue([123] + body) == Syntax
  {
    assert ([123] + body)[1..] == body;
    assert ParseField([]) == Syntax;
    NoSkip(body);
  }

  lemma KeyRead(k: Text, after: Text)
    ensures ParseField(EncodeStr(k) + after) ==
            if SkipWs(after) == [] || SkipWs(after)[0] != 58 then Syntax
            else ParseFieldValue(k, SkipWs(SkipWs(after)[1..]))
  {
    assert (EncodeStr(k) + after)[1..] == EncodeChars(k) + after;
    CharsRoundTrip(k, after);
  }

  lemma KeyTorn(k: Text, n: nat)
    requires n < |EncodeStr(k)|
    ensures ParseField(EncodeStr(k)[..n]) == Syntax
  {
    if n > 0 {
      assert EncodeStr(k)[..n][1..] == EncodeChars(k)[..n - 1];
      CharsTorn(k, n - 1);
    }
  }

  lemma {:induction false} FieldTorn(k: Text, v: Json, tail: Fields, n: nat)
    requires WellFormed(v) && WellFormedFields(tail)
    requires n < |EncodeStr(k) + ([58] + (EncodeText(v) + EncodeFields(tail)))|
    ensures ParseField((EncodeStr(k) + ([58] + (EncodeText(v) + EncodeFields(tail))))[..n]) == Syntax
    decreases Field(k, v, tail), 1
  {
    hide EncodeText, EncodeFields, EncodeStr, ParseField, ParseFieldValue, SkipWs;
    var head := EncodeStr(k);
    var value := EncodeText(v) + EncodeFields(tail);
    CutConcat(head, [58] + value, n);
    if n < |head| {
      KeyTorn(k, n);
    } else {
      var m := n - |head|;
      var after := ([58] + value)[..m];
      KeyRead(k, after);
      if m > 0 {
        CutAfterFirst(58, value, m);
        NoSkip(after);
        TextStart(v);
        NoSkip(value[..m - 1]);
        FieldValueTorn(k, v, tail, m - 1);
      } else {
        NoSkip(after);
      }
    }
  }

  lemma {:induction false} FieldValueTorn(k: Text, v: Json, tail: Fields, n: nat)
    requires WellFormed(v) && WellFormedFields(tail)
    requires n < |EncodeText(v) + EncodeFields(tail)|
    ensures ParseFieldValue(k, (EncodeText(v) + EncodeFields(tail))[..n]) == Syntax
    decreases Field(k, v, tail), 0
  {
    hide EncodeText, EncodeFields, ParseValue, ParseFields, WellFormed, WellFormedFields, Sorted, AllNumberChars;
    var head := EncodeText(v);
    var rest := EncodeFields(tail);
    CutConcat(head, rest, n);
    if n < |head| {
      ValueTorn(v, n);
      if ParseValue(head[..n]).Ok? { StuckFields(ParseValue(head[..n])); }
    } else {
      ValueRoundTrip(v, rest[..n - |head|]);
      FieldsTorn(tail, n - |head|);
    }
  }

  lemma FieldsBody(k: Text, v: Json, tail: Fields)
    ensures EncodeFields(Field(k, v, tail)) == [44] + (EncodeStr(k) + ([58] + (EncodeText(v) + EncodeFields(tail))))
  {
  }

  lemma {:induction false} FieldsTorn(fields: Fields, n: nat)
    requires WellFormedFields(fields) && n < |EncodeFields(fields)|
    ensures ParseFields(EncodeFields(fields)[..n]) == Syntax
    decreases fields, 2
  {
    hide EncodeText, EncodeStr, ParseField, SkipWs;
    var s := EncodeFields(fields)[..n];
    NoSkip(s);
    if n > 0 {
      match fields
      case NoField =>
      case Field(k, v, tail) =>
        var body := EncodeStr(k) + ([58] + (EncodeText(v) + EncodeFields(tail)));
        FieldsBody(k, v, tail);
        CutAfterFirst(44, body, n);
        NoSkip(body[..n - 1]);
        FieldTorn(k, v, tail, n - 1);
    }
  }

  // ----- bytes -----

  predicate Printable(t: Text) {
    forall i | 0 <= i < |t| :: t[i] >= 32
  }

  lemma {:induction false} NoControlCharacter(v: Json)
    requires WellFormed(v)
    ensures Printable(EncodeText(v))
    decreases v, 2
  {
    hide EncodeInt, EncodeChars, EncodeItems, EncodeFields, IsIntLexeme, IsFloatLexeme;
    match v
    case Arr(items) => NoControlArray(items);
    case Obj(fields) => NoControlObject(fields);
    case Int(n) =>
      EncodedIntIsLexeme(n);
      LexemeChars(EncodeInt(n));
    case Float(x) => LexemeChars(x);
    case Str(s) => NoControl(s);
    case Null =>
    case Bool(_) =>
  }

  lemma {:induction false} NoControlArray(items: Items)
    requires WellFormedItems(items)
    ensures Printable(EncodeText(Arr(items)))
    decreases items, 1
  {
    if items.Item? {
      NoControlCharacter(items.head);
      NoControlItems(items.tail);
      Joined([91], EncodeText(items.head), EncodeItems(items.tail));
    }
  }

  lemma {:induction false} NoControlObject(fields: Fields)
    requires WellFormedFields(fields)
    ensures Printable(EncodeText(Obj(fields)))
    decreases fields, 1
  {
    if fields.Field? {
      NoControl(fields.key);
      NoControlCharacter(fields.value);
      NoControlFields(fields.tail);
      Joined([123], EncodeStr(fields.key), [58]);
      Joined([123] + EncodeStr(fields.key) + [58], EncodeText(fields.value), EncodeFields(fields.tail));
    }
  }

  lemma Joined(a: Text, b: Text, c: Text)
    requires Printable(a) && Printable(b) && Printable(c)
    ensures Printable(a + b + c)
  {
  }

  lemma {:induction false} NoControlItems(items: Items)
    requires WellFormedItems(items)
    ensures Printable(EncodeItems(items))
    decreases items, 0
  {
    if items.Item? {
      NoControlCharacter(items.head);
      NoControlItems(items.tail);
    }
  }

  lemma {:induction false} NoControlFields(fields: Fields)
    requires WellFormedFields(fields)
    ensures Printable(EncodeFields(fields))
    decreases fields, 0
  {
    if fields.Field? {
      NoControl(fields.key);
      NoControlCharacter(fields.value);
      NoControlFields(fields.tail);
    }
  }

  lemma {:induction false} ScalarChars(s: Text)
    ensures AllScalar(EncodeChars(s)) <==> AllScalar(s)
  {
    if s != [] {
      ScalarChars(s[1..]);
      assert s == [s[0]] + s[1..];
      ScalarJoin(EscapeCode(s[0]), EncodeChars(s[1..]));
      assert Scalar(s[0]) <==> AllScalar(EscapeCode(s[0])) by {
        if EscapeCode(s[0]) == [s[0]] { assert EscapeCode(s[0])[0] == s[0]; }
      }
    }
  }

  lemma ScalarJoin(a: Text, b: Text)
    ensures AllScalar(a + b) <==> AllScalar(a) && AllScalar(b)
  {
    if AllScalar(a + b) {
      assert forall i | 0 <= i < |a| :: a[i] == (a + b)[i];
      assert forall i | 0 <= i < |b| :: b[i] == (a + b)[|a| + i];
    }
  }

  lemma ScalarField(k: Text, a: Text, b: Text, c: Text)
    ensures AllScalar(a + EncodeStr(k) + [58] + b + c)
        <==> AllScalar(a) && AllScalar(k) && AllScalar(b) && AllScalar(c)
  {
    ScalarChars(k);
    ScalarJoin([QUOTE], EncodeChars(k));
    ScalarJoin(a, EncodeStr(k));
    ScalarJoin(a + EncodeStr(k), [58]);
    ScalarJoin(a + EncodeStr(k) + [58], b);
    ScalarJoin(a + EncodeStr(k) + [58] + b, c);
  }

  lemma ScalarNumber(x: Text)
    requires AllNumberChars(x)
    ensures AllScalar(x)
  {
  }

  /** Encoding fails exactly on a lone surrogate. */
  lemma {:induction false} EncodableText(v: Json)
    requires WellFormed(v)
    ensures AllScalar(EncodeText(v)) <==> Scalars(v)
    decreases v, 2
  {
    match v
    case Arr(items) => EncodableArray(items);
    case Obj(fields) => EncodableObject(fields);
    case Int(n) =>
      EncodedIntIsLexeme(n);
      LexemeChars(EncodeInt(n));
      ScalarNumber(EncodeInt(n));
    case Float(x) =>
      LexemeChars(x);
      ScalarNumber(x);
    case Str(s) =>
      ScalarChars(s);
      ScalarJoin([QUOTE], EncodeChars(s));
    case Null =>
    case Bool(_) =>
  }

  lemma {:induction false} EncodableArray(items: Items)
    requires WellFormedItems(items)
    ensures AllScalar(EncodeText(Arr(items))) <==> ScalarItems(items)
    decreases items, 1
  {
    if items.Item? {
      EncodableText(items.head);
      EncodableItems(items.tail);
      ScalarJoin([91], EncodeText(items.head));
      ScalarJoin([91] + EncodeText(items.head), EncodeItems(items.tail));
    }
  }

  lemma {:induction false} EncodableItems(items: Items)
    requires WellFormedItems(items)
    ensures AllScalar(EncodeItems(items)) <==> ScalarItems(items)
    decreases items, 0
  {
    if items.Item? {
      EncodableText(items.head);
      EncodableItems(items.tail);
      ScalarJoin([44], EncodeText(items.head));
      ScalarJoin([44] + EncodeText(items.head), EncodeItems(items.tail));
    }
  }

  lemma {:induction false} EncodableObject(fields: Fields)
    requires WellFormedFields(fields)
    ensures AllScalar(EncodeText(Obj(fields))) <==> ScalarFields(fields)
    decreases fields, 1
  {
    if fields.Field? {
      EncodableText(fields.value);
      EncodableFields(fields.tail);
      ScalarField(fields.key, [123], EncodeText(fields.value), EncodeFields(fields.tail));
    }
  }

  lemma {:induction false} EncodableFields(fields: Fields)
    requires WellFormedFields(fields)
    ensures AllScalar(EncodeFields(fields)) <==> ScalarFields(fields)
    decreases fields, 0
  {
    if fields.Field? {
      EncodableText(fields.value);
      EncodableFields(fields.tail);
      ScalarField(fields.key, [44], EncodeText(fields.value), EncodeFields(fields.tail));
    }
  }

  /** An encoded document is one line. */
  lemma NoRawNewline(v: Json)
    requires WellFormed(v) && EncodeJson(v).Some?
    ensures 10 !in EncodeJson(v).value
  {
    NoControlCharacter(v);
    AsciiByte(EncodeText(v), 10);
  }

  lemma DecodeUndoesEncode(v: Json)
    requires WellFormed(v) && EncodeJson(v).Some?
    ensures DecodeJson(EncodeJson(v).value) == Document(v)
  {
    var t := EncodeText(v);
    Utf8.RoundTrip(t);
    TextStart(v);
    NoSkip(t);
    ValueRoundTrip(v, []);
    assert t + [] == t;
  }

  lemma EncodeInjective(v: Json, w: Json)
    requires WellFormed(v) && WellFormed(w)
    requires EncodeJson(v).Some? && EncodeJson(v) == EncodeJson(w)
    ensures v == w
  {
    DecodeUndoesEncode(v);
    DecodeUndoesEncode(w);
  }

  /** Whatever byte a write stops at, what is left of an object is broken
      JSON: never another document, never a refusal. */
  lemma NoProperPrefixDecodes(v: Json, n: nat)
    requires WellFormed(v) && v.Obj? && EncodeJson(v).Some?
    requires n < |EncodeJson(v).value|
    ensures DecodeJson(EncodeJson(v).value[..n]) == Broken
  {
    hide EncodeText, WellFormed, Utf8.Encode, Utf8.Decode, ParseValue, SkipWs;
    var t := EncodeText(v);
    Utf8.Torn(t, n);
    var s := Utf8.Decode(Utf8.Encode(t)[..n]);
    if s.Some? {
      var m := |s.value|;
      assert t[..|t|] == t;
      TextStart(v);
      NoSkip(t[..m]);
      ValueTorn(v, m);
    }
  }

  lemma {:induction false} PutKeeps(f: Fields, k: Text, v: Json)
    requires WellFormedFields(f) && WellFormed(v)
    ensures WellFormedFields(Put(f, k, v))
    ensures ScalarFields(f) && AllScalar(k) && Scalars(v) ==> ScalarFields(Put(f, k, v))
  {
    if f.Field? { PutKeeps(f.tail, k, v); }
  }
}
