/** `cleanEmpty`, `jcsStringify` and the signature-stripping step of `canonicalizeAgentCard`
    (src/signature.ts), against sections 3.2.2 and 3.2.3 of RFC 8785. */
module Canonical {
  import opened Base

  // ---------- cleanEmpty ----------

  /** Assigning `cleanedDict["__proto__"]` never creates an own property, so that key is lost. */
  const PROTO := Lit("__proto__")

  function Clean(d: Json): Json {
    match d
    case JString(s) => if s == [] then JNull else d
    case JArray(items) =>
      var kept := CleanItems(items);
      if kept == [] then JNull else JArray(kept)
    case JObject(members) =>
      var kept := CleanMembers(d, members.Keys);
      if kept == map[] then JNull else JObject(kept)
    case _ => d
  }

  function CleanItems(items: seq<Json>): seq<Json> {
    if items == [] then [] else
    var first := Clean(items[0]);
    (if first == JNull then [] else [first]) + CleanItems(items[1..])
  }

  /** The cleaned members of `d` among `keys`. */
  function CleanMembers(d: Json, keys: set<Text>): map<Text, Json>
    requires d.JObject? && keys <= d.members.Keys
    decreases d, 0
  {
    map k | k in keys && k != PROTO && Clean(d.members[k]) != JNull :: Clean(d.members[k])
  }

  /** A value holding no empty string, null, array or object at any depth. */
  predicate Solid(d: Json) {
    match d
    case JNull => false
    case JString(s) => s != []
    case JArray(items) => items != [] && forall i | 0 <= i < |items| :: Solid(items[i])
    case JObject(members) => members != map[] && PROTO !in members && forall k | k in members :: Solid(members[k])
    case _ => true
  }

  lemma {:induction false} CleanIsEmptyOrSolid(d: Json)
    ensures Clean(d) == JNull || Solid(Clean(d))
  {
    match d
    case JArray(items) => CleanItemsAreSolid(items);
    case JObject(members) =>
      forall k | k in members ensures Clean(members[k]) == JNull || Solid(Clean(members[k])) {
        CleanIsEmptyOrSolid(members[k]);
      }
    case _ =>
  }

  lemma {:induction false} CleanItemsAreSolid(items: seq<Json>)
    ensures forall i | 0 <= i < |CleanItems(items)| :: Solid(CleanItems(items)[i])
  {
    if items != [] {
      CleanIsEmptyOrSolid(items[0]);
      CleanItemsAreSolid(items[1..]);
    }
  }

  lemma {:induction false} SolidIsFixed(d: Json)
    requires Solid(d)
    ensures Clean(d) == d
  {
    match d
    case JArray(items) => SolidItemsAreFixed(items);
    case JObject(members) =>
      forall k | k in members ensures Clean(members[k]) == members[k] && members[k] != JNull {
        SolidIsFixed(members[k]);
      }
      assert CleanMembers(d, members.Keys) == members;
    case _ =>
  }

  lemma {:induction false} SolidItemsAreFixed(items: seq<Json>)
    requires forall i | 0 <= i < |items| :: Solid(items[i])
    ensures CleanItems(items) == items
  {
    if items != [] {
      SolidIsFixed(items[0]);
      SolidItemsAreFixed(items[1..]);
    }
  }

  /** Cleaning leaves a value alone exactly when nothing in it is empty (or all of it is null). */
  lemma CleanNormalForm(d: Json)
    ensures Clean(d) == d <==> d == JNull || Solid(d)
    ensures Clean(Clean(d)) == Clean(d)
  {
    CleanIsEmptyOrSolid(d);
    if Clean(d) != JNull { SolidIsFixed(Clean(d)); }
    if Solid(d) { SolidIsFixed(d); }
  }

  /** Members may be cleaned first, and empty ones removed first: the result is the same.
      With `CleaningItemsFirst` and `SolidIsFixed` this determines `Clean`. */
  lemma CleaningMembersFirst(members: map<Text, Json>, k: Text)
    requires k in members
    ensures Clean(JObject(members[k := Clean(members[k])])) == Clean(JObject(members))
    ensures Clean(members[k]) == JNull || k == PROTO ==> Clean(JObject(members - {k})) == Clean(JObject(members))
  {
    CleanNormalForm(members[k]);
    CleanedMember(members, k, Clean(members[k]));
    if Clean(members[k]) == JNull || k == PROTO { DroppedMember(members, k); }
  }

  lemma CleanedMember(members: map<Text, Json>, k: Text, v: Json)
    requires k in members && Clean(v) == Clean(members[k])
    ensures Clean(JObject(members[k := v])) == Clean(JObject(members))
  {
    var d, e := JObject(members), JObject(members[k := v]);
    assert e.members.Keys == members.Keys;
    assert CleanMembers(e, e.members.Keys) == CleanMembers(d, members.Keys);
  }

  lemma DroppedMember(members: map<Text, Json>, k: Text)
    requires k in members && (Clean(members[k]) == JNull || k == PROTO)
    ensures Clean(JObject(members - {k})) == Clean(JObject(members))
  {
    var d, e := JObject(members), JObject(members - {k});
    assert CleanMembers(e, e.members.Keys) == CleanMembers(d, members.Keys);
  }

  lemma CleaningItemsFirst(a: seq<Json>, item: Json, b: seq<Json>)
    ensures Clean(JArray(a + [Clean(item)] + b)) == Clean(JArray(a + [item] + b))
    ensures Clean(item) == JNull ==> Clean(JArray(a + b)) == Clean(JArray(a + [item] + b))
  {
    assert CleanItems(a + [Clean(item)] + b) == CleanItems(a + [item] + b) by {
      CleanNormalForm(item);
      CleanOneItem(a, item, b);
      CleanOneItem(a, Clean(item), b);
    }
    if Clean(item) == JNull {
      assert CleanItems(a + b) == CleanItems(a + [item] + b) by {
        CleanOneItem(a, item, b);
        CleanItemsConcat(a, b);
      }
    }
  }

  lemma CleanOneItem(a: seq<Json>, item: Json, b: seq<Json>)
    ensures CleanItems(a + [item] + b) ==
      CleanItems(a) + ((if Clean(item) == JNull then [] else [Clean(item)]) + CleanItems(b))
  {
    assert a + [item] + b == a + ([item] + b);
    CleanItemsConcat(a, [item] + b);
    assert ([item] + b)[0] == item && ([item] + b)[1..] == b;
  }

  lemma JoinItems(a: seq<Json>, b: seq<Json>, c: seq<Json>)
    ensures a + (b + c) == a + b + c
  {}

  lemma CleanItemsCons(a: seq<Json>, b: seq<Json>)
    requires a != []
    ensures CleanItems(a) == (if Clean(a[0]) == JNull then [] else [Clean(a[0])]) + CleanItems(a[1..])
    ensures CleanItems(a + b) == (if Clean(a[0]) == JNull then [] else [Clean(a[0])]) + CleanItems(a[1..] + b)
  {
    assert (a + b)[0] == a[0] && (a + b)[1..] == a[1..] + b;
  }

  lemma {:induction false} CleanItemsConcat(a: seq<Json>, b: seq<Json>)
    ensures CleanItems(a + b) == CleanItems(a) + CleanItems(b)
  {
    if a == [] {
      assert a + b == b;
    } else {
      CleanItemsConcat(a[1..], b);
      CleanItemsCons(a, b);
      JoinItems(if Clean(a[0]) == JNull then [] else [Clean(a[0])], CleanItems(a[1..]), CleanItems(b));
    }
  }

  /** `cleanEmpty` as the source runs it; members are visited in whatever order they come. */
  method CleanEmpty(d: Json) returns (r: Json)
    ensures r == Clean(d)
    decreases d
  {
    match d
    case JString(s) => r := if s == [] then JNull else d;
    case JArray(items) =>
      var kept: seq<Json> := [];
      for i := 0 to |items|
        invariant kept == CleanItems(items[..i])
      {
        var cleaned := CleanEmpty(items[i]);
        assert items[..i + 1] == items[..i] + [items[i]];
        CleanItemsConcat(items[..i], [items[i]]);
        if cleaned != JNull { kept := kept + [cleaned]; }
      }
      assert items[..|items|] == items;
      r := if kept == [] then JNull else JArray(kept);
    case JObject(members) =>
      var cleanedDict: map<Text, Json> := map[];
      var todo := members.Keys;
      while todo != {}
        invariant todo <= members.Keys
        invariant cleanedDict == CleanMembers(d, members.Keys - todo)
        decreases todo
      {
        var key :| key in todo;
        var cleanedValue := CleanEmpty(members[key]);
        if cleanedValue != JNull && key != PROTO { cleanedDict := cleanedDict[key := cleanedValue]; }
        todo := todo - {key};
      }
      r := if cleanedDict == map[] then JNull else JObject(cleanedDict);
    case _ => r := d;
  }

  // ---------- key order: UTF-16 code units, section 3.2.3 ----------

  predicate Le(a: Text, b: Text) {
    a == [] || (b != [] && (a[0] < b[0] || (a[0] == b[0] && Le(a[1..], b[1..]))))
  }

  lemma {:induction false} LeIsTotalOrder(a: Text, b: Text, c: Text)
    ensures Le(a, b) || Le(b, a)
    ensures Le(a, b) && Le(b, a) ==> a == b
    ensures Le(a, b) && Le(b, c) ==> Le(a, c)
    decreases |a| + |b| + |c|
  {
    if a != [] && b != [] {
      LeIsTotalOrder(a[1..], b[1..], if c != [] then c[1..] else c);
      if a[0] == b[0] && a[1..] == b[1..] { assert a == [a[0]] + a[1..] == b; }
    }
  }

  predicate Ascending(ks: seq<Text>) {
    forall i, j | 0 <= i < j < |ks| :: Le(ks[i], ks[j]) && ks[i] != ks[j]
  }

  ghost function Elements(ks: seq<Text>): set<Text> { set k | k in ks }

  /** An ascending list is determined by the set it lists. */
  lemma {:induction false} AscendingIsUnique(ks: seq<Text>, ls: seq<Text>)
    requires Ascending(ks) && Ascending(ls) && Elements(ks) == Elements(ls)
    ensures ks == ls
  {
    assert ls == [] || ls[0] in Elements(ls);
    if ks != [] {
      assert ks[0] in Elements(ks);
      assert ls != [];
      var k, l := ks[0], ls[0];
      assert l in Elements(ls);
      LeIsTotalOrder(k, l, k);
      assert k == l;
      forall x ensures x in Elements(ks[1..]) <==> x in Elements(ks) && x != k {}
      forall x ensures x in Elements(ls[1..]) <==> x in Elements(ls) && x != l {}
      AscendingIsUnique(ks[1..], ls[1..]);
    }
  }

  predicate Below(k: Text, ks: seq<Text>) { forall i | 0 <= i < |ks| :: Le(k, ks[i]) && k != ks[i] }

  lemma AscendingCons(k: Text, ks: seq<Text>)
    requires Ascending(ks) && Below(k, ks)
    ensures Ascending([k] + ks) && Elements([k] + ks) == Elements(ks) + {k}
  {
    var r := [k] + ks;
    assert forall x | x in ks :: exists i | 0 <= i < |r| :: r[i] == x by {
      forall x | x in ks ensures exists i | 0 <= i < |r| :: r[i] == x {
        var i :| 0 <= i < |ks| && ks[i] == x;
        assert r[i + 1] == x;
      }
    }
    assert r[0] == k;
  }

  lemma BelowFirst(k: Text, ks: seq<Text>)
    requires Ascending(ks) && ks != [] && Le(k, ks[0]) && k !in ks
    ensures Below(k, ks)
  {
    forall i | 0 <= i < |ks| ensures Le(k, ks[i]) { LeIsTotalOrder(k, ks[0], ks[i]); }
  }

  lemma BelowElements(k: Text, ks: seq<Text>, ls: seq<Text>, l: Text)
    requires Below(k, ks) && Elements(ls) == Elements(ks) + {l} && Le(k, l) && k != l
    ensures Below(k, ls)
  {
    forall i | 0 <= i < |ls| ensures Le(k, ls[i]) && k != ls[i] { assert ls[i] in Elements(ls); }
  }

  lemma InsertAfterFirst(k: Text, ks: seq<Text>, rest: seq<Text>)
    requires Ascending(ks) && ks != [] && Le(ks[0], k) && k != ks[0]
    requires Ascending(rest) && Elements(rest) == Elements(ks[1..]) + {k}
    ensures Ascending([ks[0]] + rest) && Elements([ks[0]] + rest) == Elements(ks) + {k}
  {
    BelowElements(ks[0], ks[1..], rest, k);
    AscendingCons(ks[0], rest);
    AscendingCons(ks[0], ks[1..]);
    assert ks == [ks[0]] + ks[1..];
  }

  function InsertKey(k: Text, ks: seq<Text>): (r: seq<Text>)
    requires Ascending(ks) && k !in ks
    ensures Ascending(r) && Elements(r) == Elements(ks) + {k}
  {
    if ks == [] then AscendingCons(k, ks); [k] + ks else
    LeIsTotalOrder(k, ks[0], k);
    if Le(k, ks[0]) then
      BelowFirst(k, ks);
      AscendingCons(k, ks);
      [k] + ks
    else
      var rest := InsertKey(k, ks[1..]);
      InsertAfterFirst(k, ks, rest);
      [ks[0]] + rest
  }

  /** `Object.keys(record).sort()`, whatever order the keys were inserted in. */
  ghost function SortedKeys(keys: set<Text>): (ks: seq<Text>)
    ensures Ascending(ks) && Elements(ks) == keys
  {
    if keys == {} then [] else
    var k :| k in keys;
    var rest := SortedKeys(keys - {k});
    assert k !in Elements(rest);
    InsertKey(k, rest)
  }

  // ---------- string and value rendering, section 3.2.2 ----------

  const QUOTE: CodeUnit := 34
  const BACKSLASH: CodeUnit := 92
  const COMMA: CodeUnit := 44
  const COLON: CodeUnit := 58
  const OPEN_ARRAY: CodeUnit := 91
  const CLOSE_ARRAY: CodeUnit := 93
  const OPEN_OBJECT: CodeUnit := 123
  const CLOSE_OBJECT: CodeUnit := 125

  predicate IsHigh(c: CodeUnit) { 0xD800 <= c < 0xDC00 }
  predicate IsLow(c: CodeUnit) { 0xDC00 <= c < 0xE000 }

  function HexDigit(n: int): CodeUnit
    requires 0 <= n < 16
  {
    if n < 10 then 48 + n else 87 + n
  }

  /** The letter of a two-character escape, or 0. */
  function ShortEscape(c: CodeUnit): CodeUnit {
    if c == QUOTE || c == BACKSLASH then c
    else if c == 8 then 98
    else if c == 9 then 116
    else if c == 10 then 110
    else if c == 12 then 102
    else if c == 13 then 114
    else 0
  }

  function Hex4(c: CodeUnit): Text {
    [HexDigit(c / 4096), HexDigit(c / 256 % 16), HexDigit(c / 16 % 16), HexDigit(c % 16)]
  }

  /** One code unit as `JSON.stringify` writes it when it is not half of a surrogate pair. */
  function Escape(c: CodeUnit): Text {
    if ShortEscape(c) != 0 then [BACKSLASH, ShortEscape(c)]
    else if c < 32 || IsHigh(c) || IsLow(c) then [BACKSLASH, 117] + Hex4(c)
    else [c]
  }

  function Units(s: Text): Text {
    if s == [] then []
    else if |s| > 1 && IsHigh(s[0]) && IsLow(s[1]) then [s[0], s[1]] + Units(s[2..])
    else Escape(s[0]) + Units(s[1..])
  }

  function Quoted(s: Text): Text { [QUOTE] + Units(s) + [QUOTE] }

  ghost function Jcs(v: Json): Text
    decreases v, 1
  {
    match v
    case JNull => Lit("null")
    case JBool(b) => if b then Lit("true") else Lit("false")
    case JNumber(text) => text
    case JString(s) => Quoted(s)
    case JArray(items) => [OPEN_ARRAY] + JcsItems(items) + [CLOSE_ARRAY]
    case JObject(members) => [OPEN_OBJECT] + JcsMembers(v, SortedKeys(members.Keys)) + [CLOSE_OBJECT]
  }

  ghost function JcsItems(items: seq<Json>): Text {
    if items == [] then []
    else if |items| == 1 then Jcs(items[0])
    else Jcs(items[0]) + [COMMA] + JcsItems(items[1..])
  }

  ghost function JcsMembers(v: Json, ks: seq<Text>): Text
    requires v.JObject? && forall k | k in ks :: k in v.members
    decreases v, 0, |ks|
  {
    if ks == [] then []
    else if |ks| == 1 then JcsMember(v, ks[0])
    else JcsMember(v, ks[0]) + [COMMA] + JcsMembers(v, ks[1..])
  }

  ghost function JcsMember(v: Json, k: Text): Text
    requires v.JObject? && k in v.members
    decreases v, 0, 0
  {
    Quoted(k) + [COLON] + Jcs(v.members[k])
  }

  // The same text followed by `rest`, so that injectivity needs no re-association.

  ghost function Emit(v: Json, rest: Text): Text
    decreases v, 1
  {
    match v
    case JNull => Lit("null") + rest
    case JBool(b) => (if b then Lit("true") else Lit("false")) + rest
    case JNumber(text) => text + rest
    case JString(s) => [QUOTE] + EmitUnits(s, [QUOTE] + rest)
    case JArray(items) => [OPEN_ARRAY] + EmitItems(items, [CLOSE_ARRAY] + rest)
    case JObject(members) => [OPEN_OBJECT] + EmitMembers(v, SortedKeys(members.Keys), [CLOSE_OBJECT] + rest)
  }

  ghost function EmitUnits(s: Text, rest: Text): Text {
    if s == [] then rest
    else if |s| > 1 && IsHigh(s[0]) && IsLow(s[1]) then [s[0], s[1]] + EmitUnits(s[2..], rest)
    else Escape(s[0]) + EmitUnits(s[1..], rest)
  }

  ghost function EmitItems(items: seq<Json>, rest: Text): Text {
    if items == [] then rest
    else Emit(items[0], if |items| == 1 then rest else [COMMA] + EmitItems(items[1..], rest))
  }

  ghost function EmitMembers(v: Json, ks: seq<Text>, rest: Text): Text
    requires v.JObject? && forall k | k in ks :: k in v.members
    decreases v, 0, |ks|, 1
  {
    if ks == [] then rest else [QUOTE] + EmitMember(v, ks, rest)
  }

  /** The first member of `ks` after its opening quote, then the others. */
  ghost function EmitMember(v: Json, ks: seq<Text>, rest: Text): Text
    requires v.JObject? && ks != [] && forall k | k in ks :: k in v.members
    decreases v, 0, |ks|, 0
  {
    EmitUnits(ks[0], [QUOTE] + ([COLON] + Emit(v.members[ks[0]], MemberTail(v, ks, rest))))
  }

  ghost function MemberTail(v: Json, ks: seq<Text>, rest: Text): Text
    requires v.JObject? && ks != [] && forall k | k in ks :: k in v.members
    decreases v, 0, |ks| - 1, 2
  {
    if |ks| == 1 then rest else [COMMA] + EmitMembers(v, ks[1..], rest)
  }

  lemma {:induction false} EmitUnitsIsUnits(s: Text, rest: Text)
    ensures EmitUnits(s, rest) == Units(s) + rest
  {
    if s != [] {
      if |s| > 1 && IsHigh(s[0]) && IsLow(s[1]) { EmitUnitsIsUnits(s[2..], rest); }
      else { EmitUnitsIsUnits(s[1..], rest); }
    }
  }

  lemma {:induction false} EmitIsJcs(v: Json, rest: Text)
    ensures Emit(v, rest) == Jcs(v) + rest
    decreases v, 1
  {
    match v
    case JString(s) => EmitUnitsIsUnits(s, [QUOTE] + rest);
    case JArray(items) => EmitItemsIsJcs(items, [CLOSE_ARRAY] + rest);
    case JObject(members) => EmitMembersIsJcs(v, SortedKeys(members.Keys), [CLOSE_OBJECT] + rest);
    case _ =>
  }

  lemma {:induction false} EmitItemsIsJcs(items: seq<Json>, rest: Text)
    ensures EmitItems(items, rest) == JcsItems(items) + rest
  {
    if items != [] {
      EmitItemsIsJcs(items[1..], rest);
      EmitIsJcs(items[0], if |items| == 1 then rest else [COMMA] + EmitItems(items[1..], rest));
    }
  }

  lemma {:induction false} EmitMembersIsJcs(v: Json, ks: seq<Text>, rest: Text)
    requires v.JObject? && forall k | k in ks :: k in v.members
    ensures EmitMembers(v, ks, rest) == JcsMembers(v, ks) + rest
    decreases v, 0, |ks|, 1
  {
    if ks != [] {
      EmitMemberIsJcs(v, ks, rest);
      EmitMembersIsJcs(v, ks[1..], rest);
      AfterComma(JcsMember(v, ks[0]), JcsMembers(v, ks[1..]), rest);
    }
  }

  lemma AfterComma(first: Text, others: Text, rest: Text)
    ensures first + [COMMA] + others + rest == first + ([COMMA] + (others + rest))
  {}

  lemma {:induction false} EmitMemberIsJcs(v: Json, ks: seq<Text>, rest: Text)
    requires v.JObject? && ks != [] && forall k | k in ks :: k in v.members
    ensures [QUOTE] + EmitMember(v, ks, rest) == JcsMember(v, ks[0]) + MemberTail(v, ks, rest)
    decreases v, 0, |ks|, 0
  {
    var value, tail := v.members[ks[0]], MemberTail(v, ks, rest);
    EmitIsJcs(value, tail);
    EmitUnitsIsUnits(ks[0], [QUOTE] + ([COLON] + Emit(value, tail)));
    MemberText(Units(ks[0]), Jcs(value), tail);
  }

  lemma MemberText(units: Text, value: Text, tail: Text)
    ensures [QUOTE] + (units + ([QUOTE] + ([COLON] + (value + tail)))) ==
        [QUOTE] + units + [QUOTE] + [COLON] + value + tail
  {}

  // ---------- injectivity ----------

  lemma Hex4IsInjective(c: CodeUnit, d: CodeUnit)
    requires Hex4(c) == Hex4(d)
    ensures c == d
  {
    var h, k := Hex4(c), Hex4(d);
    assert h[0] == k[0] && h[1] == k[1] && h[2] == k[2] && h[3] == k[3];
    HexValue(c);
    HexValue(d);
  }

  lemma HexValue(c: CodeUnit)
    ensures c == c / 4096 * 4096 + c / 256 % 16 * 256 + c / 16 % 16 * 16 + c % 16
  {
    assert c / 16 / 16 == c / 256 && c / 256 / 16 == c / 4096;
  }

  lemma EscapeIsPrefixFree(c: CodeUnit, d: CodeUnit, x: Text, y: Text)
    requires Escape(c) + x == Escape(d) + y
    ensures c == d && x == y
  {
    var t := Escape(c) + x;
    assert t[0] == Escape(c)[0] == Escape(d)[0];
    if |Escape(c)| > 1 {
      assert t[1] == Escape(c)[1] == Escape(d)[1];
      if |Escape(c)| == 6 {
        assert t[2..6] == Hex4(c) == Hex4(d);
        Hex4IsInjective(c, d);
      }
    }
    assert x == t[|Escape(c)|..] == y;
  }

  /** First unit of a rendered string: never the closing quote, and a raw surrogate only
      when it starts a pair. */
  lemma EscapeHead(c: CodeUnit)
    ensures Escape(c)[0] != QUOTE && !IsHigh(Escape(c)[0])
  {}

  lemma {:induction false} UnitsArePrefixFree(s: Text, u: Text, r: Text, t: Text)
    requires EmitUnits(s, [QUOTE] + r) == EmitUnits(u, [QUOTE] + t)
    ensures s == u && r == t
  {
    var a, b := EmitUnits(s, [QUOTE] + r), EmitUnits(u, [QUOTE] + t);
    if s == [] || u == [] {
      assert a[0] == b[0];
      if s != [] { EscapeHead(s[0]); }
      if u != [] { EscapeHead(u[0]); }
      assert s == u && r == a[1..] == t;
    } else {
      var pairS := |s| > 1 && IsHigh(s[0]) && IsLow(s[1]);
      var pairU := |u| > 1 && IsHigh(u[0]) && IsLow(u[1]);
      EscapeHead(s[0]);
      EscapeHead(u[0]);
      assert a[0] == b[0];
      if pairS && pairU {
        assert a[1] == b[1] && EmitUnits(s[2..], [QUOTE] + r) == a[2..] == EmitUnits(u[2..], [QUOTE] + t);
        UnitsArePrefixFree(s[2..], u[2..], r, t);
        assert s == [s[0], s[1]] + s[2..] && u == [u[0], u[1]] + u[2..];
      } else {
        assert !pairS && !pairU;
        EscapeIsPrefixFree(s[0], u[0], EmitUnits(s[1..], [QUOTE] + r), EmitUnits(u[1..], [QUOTE] + t));
        UnitsArePrefixFree(s[1..], u[1..], r, t);
        assert s == [s[0]] + s[1..] && u == [u[0]] + u[1..];
      }
    }
  }

  /** What may follow a rendered value: nothing, or a character no number contains. */
  predicate Delimited(r: Text) { r == [] || IsDelimiter(r[0]) }

  predicate IsDelimiter(c: CodeUnit) { c == COMMA || c == CLOSE_ARRAY || c == CLOSE_OBJECT }

  lemma Uncons(c: CodeUnit, d: CodeUnit, x: Text, y: Text)
    requires [c] + x == [d] + y
    ensures c == d && x == y
  {
    var t := [c] + x;
    assert t[0] == c == d && x == t[1..] == y;
  }

  lemma NumberIsNotLonger(a: NumberText, b: NumberText, r: Text, t: Text)
    requires a + r == b + t && Delimited(r)
    ensures |b| <= |a|
  {
    var x := a + r;
    assert |a| < |x| ==> x[|a|] == r[0];
    assert forall i | 0 <= i < |b| :: x[i] == b[i];
  }

  lemma NumbersArePrefixFree(a: NumberText, b: NumberText, r: Text, t: Text)
    requires a + r == b + t && Delimited(r) && Delimited(t)
    ensures a == b && r == t
  {
    NumberIsNotLonger(a, b, r, t);
    NumberIsNotLonger(b, a, t, r);
    var x := a + r;
    assert a == x[..|a|] == b && r == x[|a|..] == t;
  }

  /** The first character tells the kind of the value. */
  function Kind(v: Json): int {
    match v
    case JNull => 0
    case JBool(b) => if b then 1 else 2
    case JNumber(_) => 3
    case JString(_) => 4
    case JArray(_) => 5
    case JObject(_) => 6
  }

  function KindOfUnit(c: CodeUnit): int {
    if c == 110 then 0 else if c == 116 then 1 else if c == 102 then 2
    else if c == QUOTE then 4 else if c == OPEN_ARRAY then 5 else if c == OPEN_OBJECT then 6 else 3
  }

  lemma FirstUnit(v: Json, r: Text)
    ensures Emit(v, r) != [] && KindOfUnit(Emit(v, r)[0]) == Kind(v)
    ensures !IsDelimiter(Emit(v, r)[0])
  {}

  lemma {:induction false} ValuesArePrefixFree(v: Json, w: Json, r: Text, t: Text)
    requires Emit(v, r) == Emit(w, t) && Delimited(r) && Delimited(t)
    ensures v == w && r == t
    decreases v, 1
  {
    FirstUnit(v, r);
    FirstUnit(w, t);
    assert Kind(v) == Kind(w);
    match v
    case JNull => assert r == Emit(v, r)[4..] == t;
    case JBool(b) => assert r == Emit(v, r)[if b then 4 else 5..] == t;
    case JNumber(text) => NumbersArePrefixFree(text, w.text, r, t);
    case JString(s) =>
      Uncons(QUOTE, QUOTE, EmitUnits(s, [QUOTE] + r), EmitUnits(w.s, [QUOTE] + t));
      UnitsArePrefixFree(s, w.s, r, t);
    case JArray(items) =>
      Uncons(OPEN_ARRAY, OPEN_ARRAY, EmitItems(items, [CLOSE_ARRAY] + r), EmitItems(w.items, [CLOSE_ARRAY] + t));
      ItemsArePrefixFree(items, w.items, r, t);
    case JObject(members) =>
      var ks, ls := SortedKeys(members.Keys), SortedKeys(w.members.Keys);
      var x, y := EmitMembers(v, ks, [CLOSE_OBJECT] + r), EmitMembers(w, ls, [CLOSE_OBJECT] + t);
      Uncons(OPEN_OBJECT, OPEN_OBJECT, x, y);
      MembersArePrefixFree(v, w, ks, ls, r, t);
      assert members.Keys == Elements(ks) == Elements(ls) == w.members.Keys;
      assert forall k | k in members :: k in Elements(ks);
      assert members == w.members;
  }

  ghost function ItemTail(items: seq<Json>, rest: Text): Text {
    if |items| <= 1 then rest else [COMMA] + EmitItems(items[1..], rest)
  }

  lemma {:induction false} ItemsArePrefixFree(a: seq<Json>, b: seq<Json>, r: Text, t: Text)
    requires EmitItems(a, [CLOSE_ARRAY] + r) == EmitItems(b, [CLOSE_ARRAY] + t)
    ensures a == b && r == t
    decreases a, 0
  {
    var restA, restB := ItemTail(a, [CLOSE_ARRAY] + r), ItemTail(b, [CLOSE_ARRAY] + t);
    if a != [] { FirstUnit(a[0], restA); }
    if b != [] { FirstUnit(b[0], restB); }
    if a == [] || b == [] {
      assert a == b;
      Uncons(CLOSE_ARRAY, CLOSE_ARRAY, r, t);
    } else {
      ValuesArePrefixFree(a[0], b[0], restA, restB);
      assert restA[0] == restB[0];
      assert a == [a[0]] + a[1..] && b == [b[0]] + b[1..];
      if |a| == 1 {
        Uncons(CLOSE_ARRAY, CLOSE_ARRAY, r, t);
      } else {
        Uncons(COMMA, COMMA, EmitItems(a[1..], [CLOSE_ARRAY] + r), EmitItems(b[1..], [CLOSE_ARRAY] + t));
        ItemsArePrefixFree(a[1..], b[1..], r, t);
      }
    }
  }

  lemma {:induction false} MembersArePrefixFree(v: Json, w: Json, ks: seq<Text>, ls: seq<Text>, r: Text, t: Text)
    requires v.JObject? && w.JObject?
    requires (forall k | k in ks :: k in v.members) && (forall k | k in ls :: k in w.members)
    requires EmitMembers(v, ks, [CLOSE_OBJECT] + r) == EmitMembers(w, ls, [CLOSE_OBJECT] + t)
    ensures ks == ls && r == t && forall k | k in ks :: v.members[k] == w.members[k]
    decreases v, 0, |ks|
  {
    var endV, endW := [CLOSE_OBJECT] + r, [CLOSE_OBJECT] + t;
    assert EmitMembers(v, ks, endV)[0] == EmitMembers(w, ls, endW)[0];
    if ks == [] || ls == [] {
      assert ks == ls;
      Uncons(CLOSE_OBJECT, CLOSE_OBJECT, r, t);
    } else {
      FirstMembersAgree(v, w, ks, ls, endV, endW);
      var tailV, tailW := MemberTail(v, ks, endV), MemberTail(w, ls, endW);
      ValuesArePrefixFree(v.members[ks[0]], w.members[ls[0]], tailV, tailW);
      assert tailV[0] == tailW[0];
      assert ks == [ks[0]] + ks[1..] && ls == [ls[0]] + ls[1..];
      if |ks| == 1 {
        Uncons(CLOSE_OBJECT, CLOSE_OBJECT, r, t);
      } else {
        Uncons(COMMA, COMMA, EmitMembers(v, ks[1..], endV), EmitMembers(w, ls[1..], endW));
        MembersArePrefixFree(v, w, ks[1..], ls[1..], r, t);
      }
    }
  }

  lemma FirstMembersAgree(v: Json, w: Json, ks: seq<Text>, ls: seq<Text>, r: Text, t: Text)
    requires v.JObject? && w.JObject? && ks != [] && ls != []
    requires (forall k | k in ks :: k in v.members) && (forall k | k in ls :: k in w.members)
    requires EmitMembers(v, ks, r) == EmitMembers(w, ls, t)
    ensures ks[0] == ls[0]
    ensures Emit(v.members[ks[0]], MemberTail(v, ks, r)) == Emit(w.members[ls[0]], MemberTail(w, ls, t))
  {
    Uncons(QUOTE, QUOTE, EmitMember(v, ks, r), EmitMember(w, ls, t));
    var x, y := Emit(v.members[ks[0]], MemberTail(v, ks, r)), Emit(w.members[ls[0]], MemberTail(w, ls, t));
    UnitsArePrefixFree(ks[0], ls[0], [COLON] + x, [COLON] + y);
    Uncons(COLON, COLON, x, y);
  }

  /** Two values have the same canonical text exactly when they are equal up to key order. */
  lemma JcsIsInjective(v: Json, w: Json)
    ensures Jcs(v) == Jcs(w) <==> v == w
  {
    EmitIsJcs(v, []);
    EmitIsJcs(w, []);
    if Jcs(v) == Jcs(w) { ValuesArePrefixFree(v, w, [], []); }
  }

  // ---------- canonicalizeAgentCard, from the normalised JSON object on ----------

  const SIGNATURES := Lit("signatures")

  function Payload(card: map<Text, Json>): Json { Clean(JObject(card - {SIGNATURES})) }

  ghost function Canonicalize(card: map<Text, Json>): Text {
    if Payload(card) == JNull then Lit("{}") else Jcs(Payload(card))
  }

  /** Two cards are signed over the same text exactly when they agree once signatures and
      empty values are dropped. */
  lemma SamePayloadIffSameCard(a: map<Text, Json>, b: map<Text, Json>)
    ensures Canonicalize(a) == Canonicalize(b) <==> Payload(a) == Payload(b)
  {
    JcsIsInjective(Payload(a), Payload(b));
    PayloadIsLong(a);
    PayloadIsLong(b);
  }

  lemma PayloadIsLong(card: map<Text, Json>)
    ensures Payload(card) != JNull ==> Payload(card).JObject? && |Jcs(Payload(card))| > 2
  {
    if Payload(card) != JNull {
      CleanIsEmptyOrSolid(JObject(card - {SIGNATURES}));
      var v := Payload(card);
      var ks := SortedKeys(v.members.Keys);
      assert ks != [] by { var k :| k in v.members; assert k in Elements(ks); }
      assert |JcsMember(v, ks[0])| > 0;
    }
  }

  /** Signing a card again, or stripping its signatures, leaves the signed text alone. */
  lemma SignaturesDoNotChangePayload(card: map<Text, Json>, signatures: Json)
    ensures Canonicalize(card[SIGNATURES := signatures]) == Canonicalize(card - {SIGNATURES}) == Canonicalize(card)
  {
    assert card[SIGNATURES := signatures] - {SIGNATURES} == card - {SIGNATURES} == card - {SIGNATURES} - {SIGNATURES};
  }

  /** Empty fields anywhere may come and go between signing and verifying. */
  lemma CleaningDoesNotChangePayload(card: map<Text, Json>, k: Text)
    requires k in card && k != SIGNATURES && Clean(card[k]) == JNull
    ensures Canonicalize(card - {k}) == Canonicalize(card)
  {
    var stripped := card - {SIGNATURES};
    CleaningMembersFirst(stripped, k);
    assert card - {k} - {SIGNATURES} == stripped - {k};
  }
}
