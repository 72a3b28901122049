/** An independent reader of the canonical text of src/signature.ts: a JSON parser with its own
    tables, as strict as sections 3.2.2 and 3.2.3 of RFC 8785, and the proof that it finds in the
    text what was put in. */
module JcsReader {
  import opened Base
  import opened Canonical

  // ---------- the reader ----------

  /** A JSON text as it stands: the members of an object in the order they are written. */
  datatype Doc =
    | DNull
    | DBool(b: bool)
    | DNumber(text: NumberText)
    | DString(s: Text)
    | DArray(items: seq<Doc>)
    | DObject(keys: seq<Text>, values: seq<Doc>)

  /** The JSON value a document denotes; of a repeated key the last one counts. */
  function Value(d: Doc): Json {
    match d
    case DNull => JNull
    case DBool(b) => JBool(b)
    case DNumber(text) => JNumber(text)
    case DString(s) => JString(s)
    case DArray(items) => JArray(Values(items))
    case DObject(keys, values) => JObject(MembersOf(keys, values))
  }

  function Values(items: seq<Doc>): seq<Json> { if items == [] then [] else [Value(items[0])] + Values(items[1..]) }

  function MembersOf(keys: seq<Text>, values: seq<Doc>): map<Text, Json>
    decreases values
  {
    if keys == [] || values == [] then map[]
    else map[keys[0] := Value(values[0])] + MembersOf(keys[1..], values[1..])
  }

  predicate At(t: Text, c: char) { t != [] && t[0] == c as int }

  /** The value of a lower-case hexadecimal digit, or -1. */
  function Digit(c: CodeUnit): int {
    if '0' as int <= c <= '9' as int then c - '0' as int
    else if 'a' as int <= c <= 'f' as int then c - 'a' as int + 10 else -1
  }

  predicate FourDigits(t: Text) {
    |t| >= 4 && Digit(t[0]) >= 0 && Digit(t[1]) >= 0 && Digit(t[2]) >= 0 && Digit(t[3]) >= 0
  }

  /** A control character without a letter of its own, or half of a surrogate pair: what section
      3.2.2.2 of RFC 8785 writes with four digits. */
  predicate NeedsDigits(c: CodeUnit) { c < 8 || c == 11 || 14 <= c < 32 || 0xD800 <= c < 0xE000 }

  /** What a letter after a backslash stands for, or -1. */
  function Letter(c: CodeUnit): int {
    if c == 'b' as int then 8
    else if c == 't' as int then 9
    else if c == 'n' as int then 10
    else if c == 'f' as int then 12
    else if c == 'r' as int then 13
    else if c == '"' as int || c == '\\' as int then c
    else -1
  }

  datatype Read<T> = NoRead | Read(value: T, rest: Text)

  /** The units of a string up to and with the closing quote. Only the shortest form of each unit is
      accepted, and raw surrogates only in pairs. */
  function ReadUnits(t: Text): (r: Read<Text>)
    ensures r.Read? ==> |r.rest| < |t|
  {
    if t == [] then NoRead
    else if At(t, '"') then Read([], t[1..])
    else if At(t, '\\') then
      if |t| > 1 && Letter(t[1]) >= 0 then Prepend([Letter(t[1])], ReadUnits(t[2..]))
      else if |t| > 1 && t[1] == 'u' as int && FourDigits(t[2..]) then
        var c := Digit(t[2]) * 4096 + Digit(t[3]) * 256 + Digit(t[4]) * 16 + Digit(t[5]);
        if NeedsDigits(c) then Prepend([c], ReadUnits(t[6..])) else NoRead
      else NoRead
    else if |t| > 1 && 0xD800 <= t[0] < 0xDC00 && 0xDC00 <= t[1] < 0xE000 then Prepend(t[..2], ReadUnits(t[2..]))
    else if t[0] < 32 || 0xD800 <= t[0] < 0xE000 then NoRead
    else Prepend(t[..1], ReadUnits(t[1..]))
  }

  function Prepend(units: Text, r: Read<Text>): Read<Text> {
    if r.NoRead? then r else Read(units + r.value, r.rest)
  }

  /** How far the characters of a number go. */
  function NumberEnd(t: Text): (n: nat)
    ensures n <= |t|
  {
    if t != [] && IsNumberUnit(t[0]) then 1 + NumberEnd(t[1..]) else 0
  }

  function ReadValue(t: Text): (r: Read<Doc>)
    ensures r.Read? ==> |r.rest| < |t|
    decreases |t|, 2
  {
    if Lit("null") <= t then Read(DNull, t[4..])
    else if Lit("true") <= t then Read(DBool(true), t[4..])
    else if Lit("false") <= t then Read(DBool(false), t[5..])
    else if At(t, '"') then
      match ReadUnits(t[1..]) case NoRead => NoRead case Read(s, rest) => Read(DString(s), rest)
    else if At(t, '[') then
      if At(t[1..], ']') then Read(DArray([]), t[2..])
      else match ReadItems(t[1..]) case NoRead => NoRead case Read(items, rest) => Read(DArray(items), rest)
    else if At(t, '{') then
      if At(t[1..], '}') then Read(DObject([], []), t[2..])
      else match ReadMembers(t[1..])
        case NoRead => NoRead
        case Read(members, rest) => Read(DObject(members.0, members.1), rest)
    else
      var n := NumberEnd(t);
      if IsNumberText(t[..n]) then Read(DNumber(t[..n]), t[n..]) else NoRead
  }

  /** One item or more, and the closing bracket. */
  function ReadItems(t: Text): (r: Read<seq<Doc>>)
    ensures r.Read? ==> |r.rest| < |t|
    decreases |t|, 3
  {
    match ReadValue(t)
    case NoRead => NoRead
    case Read(d, rest) =>
      if At(rest, ']') then Read([d], rest[1..])
      else if At(rest, ',') then
        match ReadItems(rest[1..]) case NoRead => NoRead case Read(others, last) => Read([d] + others, last)
      else NoRead
  }

  /** One member or more, and the closing brace. */
  function ReadMembers(t: Text): (r: Read<(seq<Text>, seq<Doc>)>)
    ensures r.Read? ==> |r.rest| < |t|
    decreases |t|, 1
  {
    if !At(t, '"') then NoRead
    else match ReadUnits(t[1..])
      case NoRead => NoRead
      case Read(k, afterKey) =>
        if !At(afterKey, ':') then NoRead
        else match ReadValue(afterKey[1..])
          case NoRead => NoRead
          case Read(d, rest) =>
            if At(rest, '}') then Read(([k], [d]), rest[1..])
            else if At(rest, ',') then
              match ReadMembers(rest[1..])
              case NoRead => NoRead
              case Read(others, last) => Read(([k] + others.0, [d] + others.1), last)
            else NoRead
  }

  // ---------- the canonical text is read back, in canonical order ----------

  /** By UTF-16 code units: the first difference decides, and a proper beginning comes first. */
  ghost predicate KeyBefore(a: Text, b: Text) {
    exists n: nat | n <= |a| && n < |b| && a[..n] == b[..n] :: n == |a| || a[n] < b[n]
  }

  lemma {:induction false} LeGivesOrder(a: Text, b: Text)
    requires Le(a, b) && a != b
    ensures KeyBefore(a, b)
  {
    if a == [] || a[0] != b[0] {
      assert a[..0] == b[..0];
    } else {
      assert a == [a[0]] + a[1..] && b == [b[0]] + b[1..];
      LeGivesOrder(a[1..], b[1..]);
      var n: nat :| n <= |a| - 1 && n < |b| - 1 && a[1..][..n] == b[1..][..n] &&
          (n == |a| - 1 || a[1..][n] < b[1..][n]);
      assert a[..n + 1] == [a[0]] + a[1..][..n] && b[..n + 1] == [b[0]] + b[1..][..n];
    }
  }

  lemma {:induction false} OrderGivesLe(a: Text, b: Text, n: nat)
    requires n <= |a| && n < |b| && a[..n] == b[..n] && (n == |a| || a[n] < b[n])
    ensures Le(a, b) && a != b
  {
    if n > 0 {
      assert a[0] == a[..n][0] == b[..n][0] == b[0];
      assert a[1..][..n - 1] == a[..n][1..] && b[1..][..n - 1] == b[..n][1..];
      OrderGivesLe(a[1..], b[1..], n - 1);
    }
  }

  lemma LeIsKeyOrder(a: Text, b: Text)
    ensures Le(a, b) && a != b <==> KeyBefore(a, b)
  {
    if Le(a, b) && a != b { LeGivesOrder(a, b); }
    if KeyBefore(a, b) {
      var n: nat :| n <= |a| && n < |b| && a[..n] == b[..n] && (n == |a| || a[n] < b[n]);
      OrderGivesLe(a, b, n);
    }
  }

  /** Keys in canonical order, at every depth. */
  ghost predicate InOrder(d: Doc) {
    match d
    case DArray(items) => forall i | 0 <= i < |items| :: InOrder(items[i])
    case DObject(keys, values) =>
      && |keys| == |values|
      && (forall i, j | 0 <= i < j < |keys| :: KeyBefore(keys[i], keys[j]))
      && forall i | 0 <= i < |values| :: InOrder(values[i])
    case _ => true
  }

  ghost function DocOf(v: Json): Doc
    decreases v, 2
  {
    match v
    case JNull => DNull
    case JBool(b) => DBool(b)
    case JNumber(text) => DNumber(text)
    case JString(s) => DString(s)
    case JArray(items) => DArray(DocsOf(items))
    case JObject(members) => DObject(SortedKeys(members.Keys), MemberDocs(v, SortedKeys(members.Keys)))
  }

  ghost function DocsOf(items: seq<Json>): seq<Doc> {
    if items == [] then [] else [DocOf(items[0])] + DocsOf(items[1..])
  }

  ghost function MemberDocs(v: Json, ks: seq<Text>): (docs: seq<Doc>)
    requires v.JObject? && forall k | k in ks :: k in v.members
    ensures |docs| == |ks|
    decreases v, 1, |ks|
  {
    if ks == [] then [] else [DocOf(v.members[ks[0]])] + MemberDocs(v, ks[1..])
  }

  lemma {:induction false} DocsAre(items: seq<Json>)
    ensures Values(DocsOf(items)) == items && forall i | 0 <= i < |DocsOf(items)| :: InOrder(DocsOf(items)[i])
    decreases items
  {
    if items != [] {
      DocIs(items[0]);
      DocsAre(items[1..]);
    }
  }

  lemma {:induction false} MemberDocsAre(v: Json, ks: seq<Text>)
    requires v.JObject? && forall k | k in ks :: k in v.members
    ensures MembersOf(ks, MemberDocs(v, ks)) == map k | k in ks :: v.members[k]
    ensures forall i | 0 <= i < |ks| :: InOrder(MemberDocs(v, ks)[i])
    decreases v, 0, |ks|
  {
    if ks != [] {
      DocIs(v.members[ks[0]]);
      MemberDocsAre(v, ks[1..]);
    }
  }

  lemma SortedKeysAre(members: map<Text, Json>)
    ensures var ks := SortedKeys(members.Keys);
      && (forall k | k in ks :: k in members) && (map k | k in ks :: members[k]) == members
      && forall i, j | 0 <= i < j < |ks| :: KeyBefore(ks[i], ks[j])
  {
    var ks := SortedKeys(members.Keys);
    assert forall k :: k in ks <==> k in Elements(ks);
    forall i, j | 0 <= i < j < |ks| ensures KeyBefore(ks[i], ks[j]) { LeIsKeyOrder(ks[i], ks[j]); }
  }

  /** The canonical document of a value denotes that value, and its keys are in order. */
  lemma {:induction false} DocIs(v: Json)
    ensures Value(DocOf(v)) == v && InOrder(DocOf(v))
    decreases v, 1
  {
    match v
    case JArray(items) => DocsAre(items);
    case JObject(members) =>
      MemberDocsAre(v, SortedKeys(members.Keys));
      SortedKeysAre(members);
    case _ =>
  }

  lemma HexDigitIsRead(n: int)
    requires 0 <= n < 16
    ensures Digit(HexDigit(n)) == n
  {}

  lemma HexIsRead(c: CodeUnit)
    ensures FourDigits(Hex4(c))
    ensures c == Digit(Hex4(c)[0]) * 4096 + Digit(Hex4(c)[1]) * 256 + Digit(Hex4(c)[2]) * 16 + Digit(Hex4(c)[3])
  {
    HexValue(c);
    HexDigitIsRead(c / 4096);
    HexDigitIsRead(c / 256 % 16);
    HexDigitIsRead(c / 16 % 16);
    HexDigitIsRead(c % 16);
  }

  lemma ShortEscapeIsRead(c: CodeUnit, rest: Text)
    requires ShortEscape(c) != 0
    ensures ReadUnits([BACKSLASH, ShortEscape(c)] + rest) == Prepend([c], ReadUnits(rest))
  {
    var t := [BACKSLASH, ShortEscape(c)] + rest;
    assert t[0] == BACKSLASH && t[1] == ShortEscape(c) && t[2..] == rest;
  }

  lemma DigitsAreRead(c: CodeUnit, rest: Text)
    requires NeedsDigits(c)
    ensures ReadUnits([BACKSLASH, 117] + Hex4(c) + rest) == Prepend([c], ReadUnits(rest))
  {
    var t := [BACKSLASH, 117] + Hex4(c) + rest;
    assert t[0] == BACKSLASH && t[1] == 117 && t[2..][..4] == Hex4(c) && t[6..] == rest;
    assert t[2] == Hex4(c)[0] && t[3] == Hex4(c)[1] && t[4] == Hex4(c)[2] && t[5] == Hex4(c)[3];
    HexIsRead(c);
  }

  lemma PlainUnitIsRead(c: CodeUnit, rest: Text)
    requires ShortEscape(c) == 0 && !NeedsDigits(c)
    ensures ReadUnits([c] + rest) == Prepend([c], ReadUnits(rest))
  {
    var t := [c] + rest;
    assert t[0] == c && t[1..] == rest && t[..1] == [c];
  }

  /** Reading one unit of a string. */
  lemma EscapeIsRead(c: CodeUnit, rest: Text)
    ensures ReadUnits(Escape(c) + rest) == Prepend([c], ReadUnits(rest))
  {
    if ShortEscape(c) != 0 { ShortEscapeIsRead(c, rest); }
    else if c < 32 || IsHigh(c) || IsLow(c) { DigitsAreRead(c, rest); }
    else { PlainUnitIsRead(c, rest); }
  }

  lemma PairIsRead(high: CodeUnit, low: CodeUnit, rest: Text)
    requires IsHigh(high) && IsLow(low)
    ensures ReadUnits([high, low] + rest) == Prepend([high, low], ReadUnits(rest))
  {
    var t := [high, low] + rest;
    assert t[0] == high && t[1] == low && t[2..] == rest && t[..2] == [high, low];
  }

  lemma {:induction false} UnitsAreRead(s: Text, rest: Text)
    ensures ReadUnits(EmitUnits(s, [QUOTE] + rest)) == Read(s, rest)
  {
    if s == [] {
      assert ([QUOTE] + rest)[1..] == rest;
    } else if |s| > 1 && IsHigh(s[0]) && IsLow(s[1]) {
      UnitsAreRead(s[2..], rest);
      PairIsRead(s[0], s[1], EmitUnits(s[2..], [QUOTE] + rest));
      assert [s[0], s[1]] + s[2..] == s;
    } else {
      UnitsAreRead(s[1..], rest);
      EscapeIsRead(s[0], EmitUnits(s[1..], [QUOTE] + rest));
      assert [s[0]] + s[1..] == s;
    }
  }

  lemma {:induction false} NumberIsRead(a: Text, rest: Text)
    requires (forall i | 0 <= i < |a| :: IsNumberUnit(a[i])) && Delimited(rest)
    ensures NumberEnd(a + rest) == |a|
  {
    if a == [] {
      assert a + rest == rest;
    } else {
      assert (a + rest)[1..] == a[1..] + rest;
      NumberIsRead(a[1..], rest);
    }
  }

  lemma NotLiteral(t: Text)
    requires t != [] && t[0] != 110 && t[0] != 116 && t[0] != 102
    ensures !(Lit("null") <= t) && !(Lit("true") <= t) && !(Lit("false") <= t)
  {
    assert Lit("null")[0] == 110 && Lit("true")[0] == 116 && Lit("false")[0] == 102;
  }

  lemma LiteralsAreRead(rest: Text)
    ensures ReadValue(Lit("null") + rest) == Read(DNull, rest)
    ensures ReadValue(Lit("true") + rest) == Read(DBool(true), rest)
    ensures ReadValue(Lit("false") + rest) == Read(DBool(false), rest)
  {
    assert Lit("null")[0] == 110 && Lit("true")[0] == 116 && Lit("false")[0] == 102;
    var n, t, f := Lit("null") + rest, Lit("true") + rest, Lit("false") + rest;
    assert n[..4] == Lit("null") && n[4..] == rest;
    assert t[0] == 116 && t[..4] == Lit("true") && t[4..] == rest;
    assert f[0] == 102 && f[..5] == Lit("false") && f[5..] == rest;
  }

  lemma NumberTextIsRead(text: NumberText, rest: Text)
    requires Delimited(rest)
    ensures ReadValue(text + rest) == Read(DNumber(text), rest)
  {
    var t := text + rest;
    NumberIsRead(text, rest);
    assert t[..|text|] == text && t[|text|..] == rest && t[0] == text[0];
    NotLiteral(t);
  }

  lemma StringTextIsRead(s: Text, rest: Text)
    ensures ReadValue([QUOTE] + EmitUnits(s, [QUOTE] + rest)) == Read(DString(s), rest)
  {
    var t := [QUOTE] + EmitUnits(s, [QUOTE] + rest);
    UnitsAreRead(s, rest);
    assert t[0] == QUOTE && t[1..] == EmitUnits(s, [QUOTE] + rest);
    NotLiteral(t);
  }

  lemma ArrayText(x: Text, docs: seq<Doc>, rest: Text)
    requires x != [] && x[0] != CLOSE_ARRAY && ReadItems(x) == Read(docs, rest)
    ensures ReadValue([OPEN_ARRAY] + x) == Read(DArray(docs), rest)
  {
    var t := [OPEN_ARRAY] + x;
    assert t[0] == OPEN_ARRAY && t[1..] == x;
    NotLiteral(t);
  }

  lemma EmptyArrayText(rest: Text)
    ensures ReadValue([OPEN_ARRAY] + ([CLOSE_ARRAY] + rest)) == Read(DArray([]), rest)
  {
    var t := [OPEN_ARRAY] + ([CLOSE_ARRAY] + rest);
    assert t[0] == OPEN_ARRAY && t[1..] == [CLOSE_ARRAY] + rest && t[2..] == rest;
    NotLiteral(t);
  }

  /** The text of a value followed by a delimiter, or by nothing, is read as the canonical document
      of the value and that rest. */
  lemma {:induction false} ValueIsRead(v: Json, rest: Text)
    requires Delimited(rest)
    ensures ReadValue(Emit(v, rest)) == Read(DocOf(v), rest)
    decreases v, 1
  {
    match v
    case JNull => LiteralsAreRead(rest);
    case JBool(b) => LiteralsAreRead(rest);
    case JNumber(text) => NumberTextIsRead(text, rest);
    case JString(s) => StringTextIsRead(s, rest);
    case JArray(items) => ItemsAreRead(items, rest);
    case JObject(members) => ObjectIsRead(v, rest);
  }

  lemma {:induction false} ItemsAreRead(items: seq<Json>, rest: Text)
    ensures ReadValue([OPEN_ARRAY] + EmitItems(items, [CLOSE_ARRAY] + rest)) == Read(DArray(DocsOf(items)), rest)
    decreases items, 2
  {
    if items == [] {
      EmptyArrayText(rest);
    } else {
      FirstUnit(items[0], ItemTail(items, [CLOSE_ARRAY] + rest));
      MoreItemsAreRead(items, rest);
      ArrayText(EmitItems(items, [CLOSE_ARRAY] + rest), DocsOf(items), rest);
    }
  }

  lemma {:induction false} MoreItemsAreRead(items: seq<Json>, rest: Text)
    requires items != []
    ensures ReadItems(EmitItems(items, [CLOSE_ARRAY] + rest)) == Read(DocsOf(items), rest)
    decreases items, 1
  {
    var end := [CLOSE_ARRAY] + rest;
    ValueIsRead(items[0], ItemTail(items, end));
    if |items| == 1 {
      assert end[1..] == rest && DocsOf(items) == [DocOf(items[0])];
    } else {
      MoreItemsAreRead(items[1..], rest);
      assert ItemTail(items, end)[1..] == EmitItems(items[1..], end);
    }
  }

  lemma ObjectText(x: Text, keys: seq<Text>, docs: seq<Doc>, rest: Text)
    requires At(x, '"') && ReadMembers(x) == Read((keys, docs), rest)
    ensures ReadValue([OPEN_OBJECT] + x) == Read(DObject(keys, docs), rest)
  {
    var t := [OPEN_OBJECT] + x;
    assert t[0] == OPEN_OBJECT && t[1..] == x;
    NotLiteral(t);
  }

  lemma EmptyObjectText(rest: Text)
    ensures ReadValue([OPEN_OBJECT] + ([CLOSE_OBJECT] + rest)) == Read(DObject([], []), rest)
  {
    var t := [OPEN_OBJECT] + ([CLOSE_OBJECT] + rest);
    assert t[0] == OPEN_OBJECT && t[1..] == [CLOSE_OBJECT] + rest && t[2..] == rest;
    NotLiteral(t);
  }

  lemma {:induction false} ObjectIsRead(v: Json, rest: Text)
    requires v.JObject?
    ensures ReadValue(Emit(v, rest)) == Read(DocOf(v), rest)
    decreases v, 0, 0, 1
  {
    var ks := SortedKeys(v.members.Keys);
    if ks == [] {
      EmptyObjectText(rest);
      assert MemberDocs(v, ks) == [];
    } else {
      MembersAreRead(v, ks, rest);
      ObjectText(EmitMembers(v, ks, [CLOSE_OBJECT] + rest), ks, MemberDocs(v, ks), rest);
    }
  }

  /** Reading one member, and what follows it. */
  lemma MemberIsRead(k: Text, x: Text, d: Doc, tail: Text)
    requires ReadValue(x) == Read(d, tail)
    ensures var t := [QUOTE] + EmitUnits(k, [QUOTE] + ([COLON] + x));
      ReadMembers(t) ==
        if At(tail, '}') then Read(([k], [d]), tail[1..])
        else if At(tail, ',') then
          match ReadMembers(tail[1..])
          case NoRead => NoRead
          case Read(others, last) => Read(([k] + others.0, [d] + others.1), last)
        else NoRead
  {
    var t, afterKey := [QUOTE] + EmitUnits(k, [QUOTE] + ([COLON] + x)), [COLON] + x;
    assert t[1..] == EmitUnits(k, [QUOTE] + afterKey);
    UnitsAreRead(k, afterKey);
    assert afterKey[1..] == x;
  }

  lemma ConsDocs(v: Json, ks: seq<Text>)
    requires v.JObject? && ks != [] && forall k | k in ks :: k in v.members
    ensures ks == [ks[0]] + ks[1..]
    ensures MemberDocs(v, ks) == [DocOf(v.members[ks[0]])] + MemberDocs(v, ks[1..])
    ensures |ks| == 1 ==> ks == [ks[0]] && MemberDocs(v, ks) == [DocOf(v.members[ks[0]])]
  {}

  lemma {:induction false} MembersAreRead(v: Json, ks: seq<Text>, rest: Text)
    requires v.JObject? && ks != [] && forall k | k in ks :: k in v.members
    ensures ReadMembers(EmitMembers(v, ks, [CLOSE_OBJECT] + rest)) == Read((ks, MemberDocs(v, ks)), rest)
    decreases v, 0, 0, 0, |ks|
  {
    var end := [CLOSE_OBJECT] + rest;
    var d, tail := v.members[ks[0]], MemberTail(v, ks, end);
    ValueIsRead(d, tail);
    MemberIsRead(ks[0], Emit(d, tail), DocOf(d), tail);
    ConsDocs(v, ks);
    if |ks| == 1 {
      assert tail[1..] == rest;
    } else {
      MembersAreRead(v, ks[1..], rest);
      assert tail[1..] == EmitMembers(v, ks[1..], end);
    }
  }

  /** Any reader that follows section 3.2 of RFC 8785 finds in the canonical text the value it was
      made from and nothing else, all object keys in order. */
  lemma JcsIsRead(v: Json, rest: Text)
    requires Delimited(rest)
    ensures var r := ReadValue(Jcs(v) + rest);
      r.Read? && r.rest == rest && Value(r.value) == v && InOrder(r.value)
  {
    EmitIsJcs(v, rest);
    ValueIsRead(v, rest);
    DocIs(v);
  }

  /** What is signed is read as exactly one JSON object, its keys in order: the card without its
      signatures, cleaned, or the empty object if nothing is left. */
  lemma SignedTextIsRead(card: map<Text, Json>)
    ensures var r := ReadValue(Canonicalize(card));
      var left := Clean(JObject(card - {Lit("signatures")}));
      && r.Read? && r.rest == [] && InOrder(r.value)
      && Value(r.value) == if left == JNull then JObject(map[]) else left
  {
    if Payload(card) == JNull {
      EmptyObjectText([]);
      assert Lit("{}") == [OPEN_OBJECT] + ([CLOSE_OBJECT] + []);
    } else {
      JcsIsRead(Payload(card), []);
      assert Jcs(Payload(card)) + [] == Jcs(Payload(card));
    }
  }
}
