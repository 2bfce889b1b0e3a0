/** JSON documents, the one text `json.dumps(ensure_ascii=False, sort_keys=True,
    separators=(",", ":"))` gives each of them, and the scanner that reads
    arbitrary text back. Recursion follows the documents, so nesting is
    unbounded. */
module JsonCodec {
  import opened Utf8
  import opened JsonNumbers
  import opened JsonStrings

  /** A Python dict is its fields in key order; a finite float is the token
      that denotes it. */
  datatype Json =
    | Null
    | Bool(b: bool)
    | Int(n: int)
    | Float(lexeme: Text)
    | Str(s: Text)
    | Arr(items: Items)
    | Obj(fields: Fields)

  datatype Items = NoItem | Item(head: Json, tail: Items)

  datatype Fields = NoField | Field(key: Text, value: Json, tail: Fields)

  // ----- key order and dictionaries -----

  /** Python's `<` on str: by code point, a proper prefix first. */
  predicate Less(a: Text, b: Text)
    decreases |a|
  {
    b != [] && (a == [] || a[0] < b[0] || (a[0] == b[0] && Less(a[1..], b[1..])))
  }

  lemma {:induction false} LessIrreflexive(a: Text)
    ensures !Less(a, a)
    decreases |a|
  {
    if a != [] { LessIrreflexive(a[1..]); }
  }

  lemma {:induction false} LessTransitive(a: Text, b: Text, c: Text)
    requires Less(a, b) && Less(b, c)
    ensures Less(a, c)
    decreases |a|
  {
    if a != [] && a[0] == b[0] && b[0] == c[0] { LessTransitive(a[1..], b[1..], c[1..]); }
  }

  lemma {:induction false} LessTotal(a: Text, b: Text)
    requires a != b
    ensures Less(a, b) || Less(b, a)
    decreases |a|
  {
    if a != [] && b != [] && a[0] == b[0] {
      assert a == [a[0]] + a[1..] && b == [b[0]] + b[1..];
      LessTotal(a[1..], b[1..]);
    }
  }

  predicate Sorted(f: Fields) {
    match f
    case NoField => true
    case Field(k, _, tail) => (tail.Field? ==> Less(k, tail.key)) && Sorted(tail)
  }

  function Keys(f: Fields): (ks: set<Text>) {
    match f
    case NoField => {}
    case Field(k, _, tail) => {k} + Keys(tail)
  }

  /** dict.get */
  function Get(f: Fields, k: Text): (v: Option<Json>)
    ensures v.Some? <==> k in Keys(f)
  {
    match f
    case NoField => None
    case Field(key, value, tail) => if key == k then Some(value) else Get(tail, k)
  }

  /** d[k] = v */
  function Put(f: Fields, k: Text, v: Json): (g: Fields)
    ensures Keys(g) == Keys(f) + {k}
  {
    match f
    case NoField => Field(k, v, NoField)
    case Field(key, value, tail) =>
      if key == k then Field(k, v, tail)
      else if Less(k, key) then Field(k, v, f)
      else Field(key, value, Put(tail, k, v))
  }

  /** object_pairs_hook: the dict of a list of pairs, None on a repeated key. */
  function FromPairs(pairs: Fields): (d: Option<Fields>)
    ensures d.Some? ==> Keys(d.value) == Keys(pairs)
  {
    match pairs
    case NoField => Some(NoField)
    case Field(k, v, tail) =>
      match FromPairs(tail)
      case None => None
      case Some(rest) => if k in Keys(rest) then None else Some(Put(rest, k, v))
  }

  lemma {:induction false} SortedKeysAbove(f: Fields, k: Text)
    requires Sorted(f) && (f.Field? ==> Less(k, f.key))
    ensures forall x | x in Keys(f) :: Less(k, x)
    ensures k !in Keys(f)
  {
    if f.Field? {
      if f.tail.Field? { LessTransitive(k, f.key, f.tail.key); }
      SortedKeysAbove(f.tail, k);
      LessIrreflexive(k);
    }
  }

  lemma {:induction false} PutSorted(f: Fields, k: Text, v: Json)
    requires Sorted(f)
    ensures Sorted(Put(f, k, v))
  {
    if f.Field? && f.key != k && !Less(k, f.key) {
      LessTotal(f.key, k);
      PutSorted(f.tail, k, v);
    }
  }

  lemma {:induction false} GetPut(f: Fields, k: Text, v: Json, x: Text)
    requires Sorted(f)
    ensures Get(Put(f, k, v), x) == if x == k then Some(v) else Get(f, x)
  {
    if f.Field? { GetPut(f.tail, k, v, x); }
  }

  /** A dict is determined by its lookups. */
  lemma {:induction false} SameFields(f: Fields, g: Fields)
    requires Sorted(f) && Sorted(g)
    requires forall x :: Get(f, x) == Get(g, x)
    ensures f == g
  {
    assert f.Field? ==> Get(f, f.key) == Get(g, f.key);
    assert g.Field? ==> Get(f, g.key) == Get(g, g.key);
    if f.Field? {
      SortedKeysAbove(f.tail, f.key);
      SortedKeysAbove(g.tail, g.key);
      if f.key != g.key {
        LessTransitive(f.key, g.key, f.key);
        LessIrreflexive(f.key);
      }
      forall x ensures Get(f.tail, x) == Get(g.tail, x) {
        assert Get(f, x) == Get(g, x);
      }
      SameFields(f.tail, g.tail);
    }
  }

  lemma {:induction false} SortedPairs(f: Fields)
    requires Sorted(f)
    ensures FromPairs(f) == Some(f)
  {
    if f.Field? {
      SortedPairs(f.tail);
      SortedKeysAbove(f.tail, f.key);
    }
  }

  // ----- documents -----

  /** Dictionaries in key order, floats as single float tokens. */
  predicate WellFormed(v: Json) {
    match v
    case Float(x) => IsFloatLexeme(x)
    case Arr(items) => WellFormedItems(items)
    case Obj(fields) => Sorted(fields) && WellFormedFields(fields)
    case _ => true
  }

  predicate WellFormedItems(items: Items) {
    match items
    case NoItem => true
    case Item(v, tail) => WellFormed(v) && WellFormedItems(tail)
  }

  predicate WellFormedFields(fields: Fields) {
    match fields
    case NoField => true
    case Field(_, v, tail) => WellFormed(v) && WellFormedFields(tail)
  }

  /** Every string and key can be written in UTF-8. */
  predicate Scalars(v: Json) {
    match v
    case Str(s) => AllScalar(s)
    case Arr(items) => ScalarItems(items)
    case Obj(fields) => ScalarFields(fields)
    case _ => true
  }

  predicate ScalarItems(items: Items) {
    match items
    case NoItem => true
    case Item(v, tail) => Scalars(v) && ScalarItems(tail)
  }

  predicate ScalarFields(fields: Fields) {
    match fields
    case NoField => true
    case Field(k, v, tail) => AllScalar(k) && Scalars(v) && ScalarFields(tail)
  }

  function EncodeStr(s: Text): (t: Text)
    ensures t != [] && t[0] == QUOTE
  {
    [QUOTE] + EncodeChars(s)
  }

  const NULL: Text := [110, 117, 108, 108]
  const TRUE: Text := [116, 114, 117, 101]
  const FALSE: Text := [102, 97, 108, 115, 101]

  function EncodeText(v: Json): (t: Text) {
    match v
    case Null => NULL
    case Bool(b) => if b then TRUE else FALSE
    case Int(n) => EncodeInt(n)
    case Float(x) => x
    case Str(s) => EncodeStr(s)
    case Arr(NoItem) => [91, 93]
    case Arr(Item(v, tail)) => [91] + EncodeText(v) + EncodeItems(tail)
    case Obj(NoField) => [123, 125]
    case Obj(Field(k, v, tail)) => [123] + EncodeStr(k) + [58] + EncodeText(v) + EncodeFields(tail)
  }

  /** The items after the first, and the closing bracket. */
  function EncodeItems(items: Items): (t: Text)
    ensures t != [] && (t[0] == 44 || t[0] == 93)
  {
    match items
    case NoItem => [93]
    case Item(v, tail) => [44] + EncodeText(v) + EncodeItems(tail)
  }

  /** The fields after the first, and the closing brace. */
  function EncodeFields(fields: Fields): (t: Text)
    ensures t != [] && (t[0] == 44 || t[0] == 125)
  {
    match fields
    case NoField => [125]
    case Field(k, v, tail) => [44] + EncodeStr(k) + [58] + EncodeText(v) + EncodeFields(tail)
  }

  // ----- scanner -----

  predicate IsWs(c: Code) {
    c == 32 || c == 9 || c == 10 || c == 13
  }

  function SkipWs(s: Text): (r: Text)
    ensures |r| <= |s|
    ensures r == [] || !IsWs(r[0])
  {
    if s != [] && IsWs(s[0]) then SkipWs(s[1..]) else s
  }

  predicate StartsWith(s: Text, p: Text) {
    |p| <= |s| && forall i | 0 <= i < |p| :: s[i] == p[i]
  }

  /** A number, or one of the constants `parse_constant` refuses. */
  function ParseNumber(s: Text): (r: Parsed<Json>)
    ensures r.Ok? ==> |r.rest| < |s|
  {
    match Scan(s)
    case Token(whole, total) =>
      Ok(if whole == total then Int(IntValue(s[..total])) else Float(s[..total]), s[total..])
    case NoToken =>
      if StartsWith(s, [78, 97, 78])                                             // NaN
         || StartsWith(s, [73, 110, 102, 105, 110, 105, 116, 121])               // Infinity
         || StartsWith(s, [45, 73, 110, 102, 105, 110, 105, 116, 121])           // -Infinity
      then Rejected else Syntax
  }

  /** A value starting exactly here. */
  function ParseValue(s: Text): (r: Parsed<Json>)
    ensures r.Ok? ==> |r.rest| < |s|
    decreases |s|, 0
  {
    if s == [] then Syntax
    else if s[0] == QUOTE then
      (match ParseChars(s[1..])
       case Ok(t, rest) => Ok(Str(t), rest)
       case _ => Syntax)
    else if s[0] == 123 then
      (match ParseObject(s[1..])
       case Ok(pairs, rest) =>
         (match FromPairs(pairs)
          case None => Rejected
          case Some(d) => Ok(Obj(d), rest))
       case Syntax => Syntax
       case Rejected => Rejected)
    else if s[0] == 91 then
      (match ParseArray(s[1..])
       case Ok(items, rest) => Ok(Arr(items), rest)
       case Syntax => Syntax
       case Rejected => Rejected)
    else if StartsWith(s, NULL) then Ok(Null, s[4..])
    else if StartsWith(s, TRUE) then Ok(Bool(true), s[4..])
    else if StartsWith(s, FALSE) then Ok(Bool(false), s[5..])
    else ParseNumber(s)
  }

  function ParseArray(s: Text): (r: Parsed<Items>)
    ensures r.Ok? ==> |r.rest| < |s|
    decreases |s|, 2
  {
    var t := SkipWs(s);
    if t != [] && t[0] == 93 then Ok(NoItem, t[1..]) else ParseItem(t)
  }

  function ParseItem(s: Text): (r: Parsed<Items>)
    ensures r.Ok? ==> |r.rest| < |s|
    decreases |s|, 1
  {
    match ParseValue(s)
    case Ok(v, rest) =>
      (match ParseItems(rest)
       case Ok(tail, rest') => Ok(Item(v, tail), rest')
       case other => other)
    case Syntax => Syntax
    case Rejected => Rejected
  }

  function ParseItems(s: Text): (r: Parsed<Items>)
    ensures r.Ok? ==> |r.rest| < |s|
    decreases |s|, 2
  {
    var t := SkipWs(s);
    if t == [] then Syntax
    else if t[0] == 93 then Ok(NoItem, t[1..])
    else if t[0] != 44 then Syntax
    else ParseItem(SkipWs(t[1..]))
  }

  function ParseObject(s: Text): (r: Parsed<Fields>)
    ensures r.Ok? ==> |r.rest| < |s|
    decreases |s|, 2
  {
    var t := SkipWs(s);
    if t != [] && t[0] == 125 then Ok(NoField, t[1..]) else ParseField(t)
  }

  function ParseField(s: Text): (r: Parsed<Fields>)
    ensures r.Ok? ==> |r.rest| < |s|
    decreases |s|, 1
  {
    if s == [] || s[0] != QUOTE then Syntax
    else
      match ParseChars(s[1..])
      case Ok(k, rest) =>
        var t := SkipWs(rest);
        if t == [] || t[0] != 58 then Syntax
        else ParseFieldValue(k, SkipWs(t[1..]))
      case _ => Syntax
  }

  function ParseFieldValue(k: Text, s: Text): (r: Parsed<Fields>)
    ensures r.Ok? ==> |r.rest| < |s|
    decreases |s|, 1
  {
    match ParseValue(s)
    case Ok(v, rest) =>
      (match ParseFields(rest)
       case Ok(tail, rest') => Ok(Field(k, v, tail), rest')
       case other => other)
    case Syntax => Syntax
    case Rejected => Rejected
  }

  function ParseFields(s: Text): (r: Parsed<Fields>)
    ensures r.Ok? ==> |r.rest| < |s|
    decreases |s|, 2
  {
    var t := SkipWs(s);
    if t == [] then Syntax
    else if t[0] == 125 then Ok(NoField, t[1..])
    else if t[0] != 44 then Syntax
    else ParseField(SkipWs(t[1..]))
  }

  /** A document, UnicodeDecodeError or JSONDecodeError, or a hook's refusal. */
  datatype Decoded = Document(v: Json) | Broken | Refused

  /** json.loads */
  function DecodeText(s: Text): Decoded {
    match ParseValue(SkipWs(s))
    case Ok(v, rest) => if SkipWs(rest) == [] then Document(v) else Broken
    case Syntax => Broken
    case Rejected => Refused
  }

  /** _decode_json */
  function DecodeJson(bs: Bytes): Decoded {
    match Utf8.Decode(bs)
    case None => Broken
    case Some(s) => DecodeText(s)
  }

  /** _encode; None is the UnicodeEncodeError of a lone surrogate. */
  function EncodeJson(v: Json): (bs: Option<Bytes>) {
    var t := EncodeText(v);
    if AllScalar(t) then Some(Utf8.Encode(t)) else None
  }
}
