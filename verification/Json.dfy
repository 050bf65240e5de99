/** JSON values, the recursive key sort of `normalizeJson`, and the text of `JSON.stringify`. */
module Json {
  import opened Sorting

  /** A number is represented by the text `JSON.stringify` prints for it. */
  datatype Json =
    | Null
    | Bool(b: bool)
    | Num(text: string)
    | Str(s: string)
    | Arr(items: Items)
    | Obj(fields: Fields)

  datatype Items = NoItems | Item(head: Json, tail: Items)

  /** The own enumerable properties of an object, in enumeration order. */
  datatype Fields = NoFields | Field(key: string, value: Json, rest: Fields)

  predicate HasKey(f: Fields, key: string) {
    f.Field? && (f.key == key || HasKey(f.rest, key))
  }

  function Lookup(f: Fields, key: string): Json
    requires HasKey(f, key)
  {
    if f.key == key then f.value else Lookup(f.rest, key)
  }

  function Remove(f: Fields, key: string): Fields {
    match f
    case NoFields => NoFields
    case Field(k, v, rest) => if k == key then rest else Field(k, v, Remove(rest, key))
  }

  predicate NumberChar(c: char) {
    '0' <= c <= '9' || c == '-' || c == '+' || c == '.' || c == 'e'
  }

  predicate NumberText(text: string) {
    text != [] && ('0' <= text[0] <= '9' || text[0] == '-') && forall i :: 0 <= i < |text| ==> NumberChar(text[i])
  }

  /** Objects have each key once and numbers are printed as numbers. */
  predicate WellFormed(j: Json) {
    match j
    case Num(text) => NumberText(text)
    case Arr(items) => WellFormedItems(items)
    case Obj(fields) => WellFormedFields(fields)
    case _ => true
  }

  predicate WellFormedItems(items: Items) {
    items.Item? ==> WellFormed(items.head) && WellFormedItems(items.tail)
  }

  predicate WellFormedFields(f: Fields) {
    f.Field? ==> !HasKey(f.rest, f.key) && WellFormed(f.value) && WellFormedFields(f.rest)
  }

  // --- equality up to the order of keys ---

  /** The two values differ at most in the order of object keys, at any depth. */
  predicate Equivalent(a: Json, b: Json)
    decreases a
  {
    match a
    case Arr(items) => b.Arr? && EquivalentItems(items, b.items)
    case Obj(fields) => b.Obj? && EquivalentFields(fields, b.fields)
    case _ => a == b
  }

  predicate EquivalentItems(a: Items, b: Items)
    decreases a
  {
    match a
    case NoItems => b.NoItems?
    case Item(head, tail) => b.Item? && Equivalent(head, b.head) && EquivalentItems(tail, b.tail)
  }

  predicate EquivalentFields(f: Fields, g: Fields)
    decreases f
  {
    match f
    case NoFields => g.NoFields?
    case Field(k, v, rest) => HasKey(g, k) && Equivalent(v, Lookup(g, k)) && EquivalentFields(rest, Remove(g, k))
  }

  // --- normalization ---

  /** Array-index keys: `Object.keys` and `JSON.stringify` list them first, in numeric order. */
  predicate IsIndex(key: string) {
    && key != [] && |key| <= 10
    && (forall i :: 0 <= i < |key| ==> '0' <= key[i] <= '9')
    && (key[0] == '0' ==> |key| == 1)
    && (|key| == 10 ==> TextLeq(key, "4294967294"))
  }

  /** The order in which a sorted object lists two different keys. */
  predicate KeyLess(a: string, b: string) {
    if IsIndex(a) && IsIndex(b) then |a| < |b| || (|a| == |b| && TextLess(a, b))
    else if IsIndex(a) || IsIndex(b) then IsIndex(a)
    else TextLess(a, b)
  }

  function InsertField(key: string, value: Json, f: Fields): Fields {
    match f
    case NoFields => Field(key, value, NoFields)
    case Field(k, v, rest) => if KeyLess(key, k) then Field(key, value, f) else Field(k, v, InsertField(key, value, rest))
  }

  function Normalize(j: Json): Json {
    match j
    case Arr(items) => Arr(NormalizeItems(items))
    case Obj(fields) => Obj(NormalizeFields(fields))
    case _ => j
  }

  function NormalizeItems(items: Items): Items {
    match items
    case NoItems => NoItems
    case Item(head, tail) => Item(Normalize(head), NormalizeItems(tail))
  }

  function NormalizeFields(f: Fields): Fields {
    match f
    case NoFields => NoFields
    case Field(k, v, rest) => InsertField(k, Normalize(v), NormalizeFields(rest))
  }

  lemma {:induction false} KeyLessTotal(a: string, b: string)
    ensures a != b ==> KeyLess(a, b) != KeyLess(b, a)
    ensures !KeyLess(a, a)
  {
    TextLessTotal(a, b);
    TextLessTotal(a, a);
  }

  lemma {:induction false} KeyLessTransitive(a: string, b: string, c: string)
    requires KeyLess(a, b) && KeyLess(b, c)
    ensures KeyLess(a, c)
  {
    if TextLess(a, b) && TextLess(b, c) {
      TextLessTransitive(a, b, c);
    }
  }

  predicate SortedFields(f: Fields) {
    f.Field? ==> SortedFields(f.rest) && (f.rest.Field? ==> KeyLess(f.key, f.rest.key))
  }

  lemma {:induction false} HeadKeyLeast(f: Fields, key: string)
    requires f.Field? && SortedFields(f) && HasKey(f.rest, key)
    ensures KeyLess(f.key, key)
    decreases f
  {
    if f.rest.key != key {
      HeadKeyLeast(f.rest, key);
      KeyLessTransitive(f.key, f.rest.key, key);
    }
  }

  lemma {:induction false} InsertFieldFacts(key: string, value: Json, f: Fields)
    requires SortedFields(f) && !HasKey(f, key)
    ensures var r := InsertField(key, value, f);
            && SortedFields(r) && HasKey(r, key) && Lookup(r, key) == value && Remove(r, key) == f
            && (forall k :: HasKey(r, k) <==> k == key || HasKey(f, k))
            && (forall k :: k != key && HasKey(f, k) ==> Lookup(r, k) == Lookup(f, k))
    decreases f
  {
    if f.Field? {
      KeyLessTotal(key, f.key);
      if !KeyLess(key, f.key) {
        InsertFieldFacts(key, value, f.rest);
        var r := InsertField(key, value, f.rest);
        if r.key != key && f.rest.Field? {
          assert r.key == f.rest.key;
        }
      }
    }
  }

  /** Taking out one key and inserting another commute. */
  lemma {:induction false} InsertRemoveCommute(key: string, value: Json, f: Fields, other: string)
    requires SortedFields(f) && !HasKey(f, key) && key != other
    ensures Remove(InsertField(key, value, f), other) == InsertField(key, value, Remove(f, other))
    decreases f
  {
    if f.Field? {
      KeyLessTotal(key, f.key);
      if KeyLess(key, f.key) {
        if f.key == other && f.rest.Field? {
          KeyLessTransitive(key, f.key, f.rest.key);
        }
      } else if f.key != other {
        InsertRemoveCommute(key, value, f.rest, other);
      }
    }
  }

  lemma {:induction false} NormalizedFields(f: Fields)
    requires WellFormedFields(f)
    ensures SortedFields(NormalizeFields(f))
    ensures forall k :: HasKey(NormalizeFields(f), k) <==> HasKey(f, k)
    ensures forall k :: HasKey(f, k) ==> Lookup(NormalizeFields(f), k) == Normalize(Lookup(f, k))
    decreases f
  {
    if f.Field? {
      NormalizedFields(f.rest);
      InsertFieldFacts(f.key, Normalize(f.value), NormalizeFields(f.rest));
    }
  }

  lemma {:induction false} WellFormedRemove(f: Fields, key: string)
    requires WellFormedFields(f)
    ensures WellFormedFields(Remove(f, key))
    ensures forall k :: HasKey(Remove(f, key), k) <==> HasKey(f, k) && k != key
    decreases f
  {
    if f.Field? && f.key != key {
      WellFormedRemove(f.rest, key);
    }
  }

  lemma {:induction false} NormalizeRemove(f: Fields, key: string)
    requires WellFormedFields(f)
    ensures NormalizeFields(Remove(f, key)) == Remove(NormalizeFields(f), key)
    decreases f
  {
    if f.Field? {
      NormalizedFields(f.rest);
      if f.key == key {
        InsertFieldFacts(f.key, Normalize(f.value), NormalizeFields(f.rest));
      } else {
        NormalizeRemove(f.rest, key);
        InsertRemoveCommute(f.key, Normalize(f.value), NormalizeFields(f.rest), key);
      }
    }
  }

  lemma {:induction false} LookupWellFormed(f: Fields, key: string)
    requires WellFormedFields(f) && HasKey(f, key)
    ensures WellFormed(Lookup(f, key))
    decreases f
  {
    if f.key != key {
      LookupWellFormed(f.rest, key);
    }
  }

  /** A sorted object is what is left without a key, with that key inserted again. */
  lemma {:induction false} SortedReinsert(f: Fields, key: string)
    requires SortedFields(f) && HasKey(f, key)
    ensures f == InsertField(key, Lookup(f, key), Remove(f, key))
    decreases f
  {
    if f.key == key {
      if f.rest.Field? {
        KeyLessTotal(key, f.rest.key);
      }
    } else {
      SortedReinsert(f.rest, key);
      HeadKeyLeast(f, key);
      KeyLessTotal(key, f.key);
    }
  }

  /** Two values normalize to the same value exactly when they differ only in the order of keys. */
  lemma {:induction false} NormalizeIffEquivalent(a: Json, b: Json)
    requires WellFormed(a) && WellFormed(b)
    ensures Normalize(a) == Normalize(b) <==> Equivalent(a, b)
    decreases a
  {
    match a
    case Arr(items) =>
      if b.Arr? {
        NormalizeItemsIffEquivalent(items, b.items);
      }
    case Obj(fields) =>
      if b.Obj? {
        NormalizeFieldsIffEquivalent(fields, b.fields);
      }
    case _ =>
  }

  lemma {:induction false} NormalizeItemsIffEquivalent(a: Items, b: Items)
    requires WellFormedItems(a) && WellFormedItems(b)
    ensures NormalizeItems(a) == NormalizeItems(b) <==> EquivalentItems(a, b)
    decreases a
  {
    if a.Item? && b.Item? {
      NormalizeIffEquivalent(a.head, b.head);
      NormalizeItemsIffEquivalent(a.tail, b.tail);
    }
  }

  lemma {:induction false} NormalizeFieldsIffEquivalent(f: Fields, g: Fields)
    requires WellFormedFields(f) && WellFormedFields(g)
    ensures NormalizeFields(f) == NormalizeFields(g) <==> EquivalentFields(f, g)
    decreases f
  {
    NormalizedFields(g);
    if f.Field? {
      NormalizedFields(f);
      NormalizedFields(f.rest);
      InsertFieldFacts(f.key, Normalize(f.value), NormalizeFields(f.rest));
      if HasKey(g, f.key) {
        LookupWellFormed(g, f.key);
        WellFormedRemove(g, f.key);
        NormalizeRemove(g, f.key);
        NormalizeIffEquivalent(f.value, Lookup(g, f.key));
        NormalizeFieldsIffEquivalent(f.rest, Remove(g, f.key));
        SortedReinsert(NormalizeFields(g), f.key);
      }
    } else if g.Field? {
      assert HasKey(NormalizeFields(g), g.key);
    }
  }

  // --- the text ---

  /** The text followed by the rest. */
  function Emit(text: string, rest: string): (r: string)
    ensures r == text + rest
  {
    if text == [] then rest
    else
      var r := [text[0]] + Emit(text[1..], rest);
      assert r == text + rest;
      r
  }

  function HexDigit(n: nat): char
    requires n < 16
  {
    "0123456789abcdef"[n]
  }

  function Escape(c: char): (r: string)
    ensures r != []
  {
    if c == '"' then "\\\""
    else if c == '\\' then "\\\\"
    else if c == 8 as char then "\\b"
    else if c == 12 as char then "\\f"
    else if c == '\n' then "\\n"
    else if c == '\r' then "\\r"
    else if c == '\t' then "\\t"
    else if c < ' ' then "\\u00" + [HexDigit(c as int / 16), HexDigit(c as int % 16)]
    else [c]
  }

  /** The characters of a string, its closing quote and the rest. */
  function EmitChars(s: string, rest: string): string {
    if s == [] then ['"'] + rest else Emit(Escape(s[0]), EmitChars(s[1..], rest))
  }

  function EmitJson(j: Json, rest: string): string {
    match j
    case Null => Emit("null", rest)
    case Bool(b) => Emit(if b then "true" else "false", rest)
    case Num(text) => Emit(text, rest)
    case Str(s) => ['"'] + EmitChars(s, rest)
    case Arr(items) => ['['] + (if items.NoItems? then [']'] + rest
                                else EmitJson(items.head, EmitItems(items.tail, rest)))
    case Obj(fields) => ['{'] + (if fields.NoFields? then ['}'] + rest
                                 else ['"'] + EmitChars(fields.key, [':'] + EmitJson(fields.value, EmitFields(fields.rest, rest))))
  }

  /** The items after the first one, and the closing bracket. */
  function EmitItems(items: Items, rest: string): string {
    match items
    case NoItems => [']'] + rest
    case Item(head, tail) => [','] + EmitJson(head, EmitItems(tail, rest))
  }

  function EmitFields(f: Fields, rest: string): string {
    match f
    case NoFields => ['}'] + rest
    case Field(k, v, more) => [',', '"'] + EmitChars(k, [':'] + EmitJson(v, EmitFields(more, rest)))
  }

  function Stringify(j: Json): string {
    EmitJson(j, [])
  }

  // --- the text determines the value ---

  /** What may follow a value: the end, or the punctuation that ends a member. */
  predicate Terminated(rest: string) {
    rest == [] || rest[0] == ',' || rest[0] == ']' || rest[0] == '}'
  }

  lemma {:induction false} NumberUnique(a: string, b: string, x: string, y: string)
    requires forall i :: 0 <= i < |a| ==> NumberChar(a[i])
    requires forall i :: 0 <= i < |b| ==> NumberChar(b[i])
    requires Terminated(x) && Terminated(y) && a + x == b + y
    ensures a == b && x == y
    decreases |a|
  {
    if a == [] || b == [] {
      assert [] + x == x && [] + y == y;
    } else {
      assert a[0] == (a + x)[0] == (b + y)[0] == b[0];
      assert a[1..] + x == (a + x)[1..] && b[1..] + y == (b + y)[1..];
      NumberUnique(a[1..], b[1..], x, y);
      assert a == [a[0]] + a[1..] && b == [b[0]] + b[1..];
    }
  }

  lemma {:induction false} HexDigitUnique(m: nat, n: nat)
    requires m < 16 && n < 16 && HexDigit(m) == HexDigit(n)
    ensures m == n
  {
  }

  lemma {:induction false} EscapeShape(c: char)
    ensures var e := Escape(c);
            && (e[0] == '\\' <==> |e| > 1)
            && (|e| == 1 ==> e == [c] && c != '"' && c != '\\' && c >= ' ')
            && (|e| > 1 ==> (|e| == 6 <==> e[1] == 'u'))
            && (|e| == 2 || |e| == 6 || |e| == 1)
            && e[0] != '"'
  {
  }

  lemma {:induction false} EscapeUnique(c: char, d: char)
    requires Escape(c) == Escape(d)
    ensures c == d
  {
    EscapeShape(c);
    EscapeShape(d);
    if |Escape(c)| == 6 {
      assert Escape(c)[4] == HexDigit(c as int / 16) && Escape(c)[5] == HexDigit(c as int % 16);
      assert Escape(d)[4] == HexDigit(d as int / 16) && Escape(d)[5] == HexDigit(d as int % 16);
      HexDigitUnique(c as int / 16, d as int / 16);
      HexDigitUnique(c as int % 16, d as int % 16);
      assert c as int == d as int;
    }
  }

  /** No escape is a proper prefix of another. */
  lemma {:induction false} EscapePrefixFree(c: char, d: char, x: string, y: string)
    requires Escape(c) + x == Escape(d) + y
    ensures c == d && x == y
  {
    var e := Escape(c);
    var f := Escape(d);
    EscapeShape(c);
    EscapeShape(d);
    assert e[0] == (e + x)[0] == (f + y)[0] == f[0];
    if |e| > 1 {
      assert e[1] == (e + x)[1] == (f + y)[1] == f[1];
    }
    assert |e| == |f|;
    assert e == (e + x)[..|e|] == (f + y)[..|f|] == f;
    assert x == (e + x)[|e|..] == (f + y)[|f|..] == y;
    EscapeUnique(c, d);
  }

  lemma {:induction false} CharsUnique(s: string, t: string, x: string, y: string)
    requires EmitChars(s, x) == EmitChars(t, y)
    ensures s == t && x == y
    decreases |s|
  {
    if s == [] || t == [] {
      if s != [] {
        EscapeShape(s[0]);
      }
      if t != [] {
        EscapeShape(t[0]);
      }
      assert EmitChars(s, x)[1..] == x && EmitChars(t, y)[1..] == y;
    } else {
      EscapePrefixFree(s[0], t[0], EmitChars(s[1..], x), EmitChars(t[1..], y));
      CharsUnique(s[1..], t[1..], x, y);
      assert s == [s[0]] + s[1..] && t == [t[0]] + t[1..];
    }
  }

  lemma {:induction false} LiteralUnique(text: string, x: string, y: string)
    requires text + x == text + y
    ensures x == y
  {
    assert (text + x)[|text|..] == x && (text + y)[|text|..] == y;
  }

  function FirstChar(j: Json): char
    requires WellFormed(j)
  {
    match j
    case Null => 'n'
    case Bool(b) => if b then 't' else 'f'
    case Num(text) => text[0]
    case Str(_) => '"'
    case Arr(_) => '['
    case Obj(_) => '{'
  }

  lemma {:induction false} StartsWithFirstChar(j: Json, rest: string)
    requires WellFormed(j)
    ensures EmitJson(j, rest) != [] && EmitJson(j, rest)[0] == FirstChar(j)
  {
  }

  /** The kind of a value can be read off the first character of its text. */
  lemma {:induction false} SameKind(a: Json, b: Json)
    requires WellFormed(a) && WellFormed(b) && FirstChar(a) == FirstChar(b)
    ensures a.Null? == b.Null? && a.Bool? == b.Bool? && a.Num? == b.Num?
    ensures a.Str? == b.Str? && a.Arr? == b.Arr? && a.Obj? == b.Obj?
    ensures a.Bool? ==> a == b
  {
  }

  lemma {:induction false} ItemsTerminated(items: Items, rest: string)
    ensures Terminated(EmitItems(items, rest))
  {
  }

  lemma {:induction false} FieldsTerminated(f: Fields, rest: string)
    ensures Terminated(EmitFields(f, rest))
  {
  }

  lemma {:induction false} JsonUnique(a: Json, b: Json, x: string, y: string)
    requires WellFormed(a) && WellFormed(b) && Terminated(x) && Terminated(y)
    requires EmitJson(a, x) == EmitJson(b, y)
    ensures a == b && x == y
    decreases a, 0
  {
    StartsWithFirstChar(a, x);
    StartsWithFirstChar(b, y);
    SameKind(a, b);
    match a
    case Null => LiteralUnique("null", x, y);
    case Bool(v) => LiteralUnique(if v then "true" else "false", x, y);
    case Num(text) => NumberUnique(text, b.text, x, y);
    case Str(s) =>
      assert EmitJson(a, x)[1..] == EmitChars(s, x) && EmitJson(b, y)[1..] == EmitChars(b.s, y);
      CharsUnique(s, b.s, x, y);
    case Arr(items) => ArrayUnique(items, b.items, x, y);
    case Obj(fields) => ObjectUnique(fields, b.fields, x, y);
  }

  lemma {:induction false} ArrayUnique(a: Items, b: Items, x: string, y: string)
    requires WellFormedItems(a) && WellFormedItems(b)
    requires EmitJson(Arr(a), x) == EmitJson(Arr(b), y)
    ensures a == b && x == y
    decreases a
  {
    var p := EmitJson(Arr(a), x)[1..];
    var q := EmitJson(Arr(b), y)[1..];
    assert p == q;
    if a.Item? && b.Item? {
      assert p == EmitJson(a.head, EmitItems(a.tail, x)) && q == EmitJson(b.head, EmitItems(b.tail, y));
      ItemsTerminated(a.tail, x);
      ItemsTerminated(b.tail, y);
      JsonUnique(a.head, b.head, EmitItems(a.tail, x), EmitItems(b.tail, y));
      ItemsUnique(a.tail, b.tail, x, y);
    } else if a.Item? {
      StartsWithFirstChar(a.head, EmitItems(a.tail, x));
    } else if b.Item? {
      StartsWithFirstChar(b.head, EmitItems(b.tail, y));
    } else {
      assert p == [']'] + x && q == [']'] + y;
      LiteralUnique([']'], x, y);
    }
  }

  lemma {:induction false} ItemsUnique(a: Items, b: Items, x: string, y: string)
    requires WellFormedItems(a) && WellFormedItems(b)
    requires EmitItems(a, x) == EmitItems(b, y)
    ensures a == b && x == y
    decreases a
  {
    assert a.Item? <==> b.Item? by {
      assert EmitItems(a, x)[0] == if a.Item? then ',' else ']';
      assert EmitItems(b, y)[0] == if b.Item? then ',' else ']';
    }
    if a.Item? {
      assert EmitItems(a, x)[1..] == EmitJson(a.head, EmitItems(a.tail, x));
      assert EmitItems(b, y)[1..] == EmitJson(b.head, EmitItems(b.tail, y));
      ItemsTerminated(a.tail, x);
      ItemsTerminated(b.tail, y);
      JsonUnique(a.head, b.head, EmitItems(a.tail, x), EmitItems(b.tail, y));
      ItemsUnique(a.tail, b.tail, x, y);
    } else {
      LiteralUnique([']'], x, y);
    }
  }

  /** One member: its key, the colon, its value and what follows. */
  lemma {:induction false} MemberUnique(k: string, v: Json, x: string, l: string, w: Json, y: string)
    requires WellFormed(v) && WellFormed(w) && Terminated(x) && Terminated(y)
    requires EmitChars(k, [':'] + EmitJson(v, x)) == EmitChars(l, [':'] + EmitJson(w, y))
    ensures k == l && v == w && x == y
    decreases v, 1
  {
    CharsUnique(k, l, [':'] + EmitJson(v, x), [':'] + EmitJson(w, y));
    LiteralUnique([':'], EmitJson(v, x), EmitJson(w, y));
    JsonUnique(v, w, x, y);
  }

  lemma {:induction false} ObjectUnique(f: Fields, g: Fields, x: string, y: string)
    requires WellFormedFields(f) && WellFormedFields(g)
    requires EmitJson(Obj(f), x) == EmitJson(Obj(g), y)
    ensures f == g && x == y
    decreases f
  {
    var p := EmitJson(Obj(f), x)[1..];
    var q := EmitJson(Obj(g), y)[1..];
    assert p == q;
    assert p[0] == if f.Field? then '"' else '}';
    assert q[0] == if g.Field? then '"' else '}';
    if f.Field? {
      var m := EmitFields(f.rest, x);
      var n := EmitFields(g.rest, y);
      assert p[1..] == EmitChars(f.key, [':'] + EmitJson(f.value, m));
      assert q[1..] == EmitChars(g.key, [':'] + EmitJson(g.value, n));
      FieldsTerminated(f.rest, x);
      FieldsTerminated(g.rest, y);
      MemberUnique(f.key, f.value, m, g.key, g.value, n);
      FieldsUnique(f.rest, g.rest, x, y);
    } else {
      assert p == ['}'] + x && q == ['}'] + y;
      LiteralUnique(['}'], x, y);
    }
  }

  lemma {:induction false} FieldsUnique(f: Fields, g: Fields, x: string, y: string)
    requires WellFormedFields(f) && WellFormedFields(g)
    requires EmitFields(f, x) == EmitFields(g, y)
    ensures f == g && x == y
    decreases f
  {
    assert EmitFields(f, x)[0] == if f.Field? then ',' else '}';
    assert EmitFields(g, y)[0] == if g.Field? then ',' else '}';
    if f.Field? {
      var m := EmitFields(f.rest, x);
      var n := EmitFields(g.rest, y);
      assert EmitFields(f, x)[2..] == EmitChars(f.key, [':'] + EmitJson(f.value, m));
      assert EmitFields(g, y)[2..] == EmitChars(g.key, [':'] + EmitJson(g.value, n));
      FieldsTerminated(f.rest, x);
      FieldsTerminated(g.rest, y);
      MemberUnique(f.key, f.value, m, g.key, g.value, n);
      FieldsUnique(f.rest, g.rest, x, y);
    } else {
      LiteralUnique(['}'], x, y);
    }
  }

  lemma {:induction false} NormalizeWellFormed(j: Json)
    requires WellFormed(j)
    ensures WellFormed(Normalize(j))
    decreases j
  {
    match j
    case Arr(items) => NormalizeItemsWellFormed(items);
    case Obj(fields) => NormalizeFieldsWellFormed(fields);
    case _ =>
  }

  lemma {:induction false} NormalizeItemsWellFormed(items: Items)
    requires WellFormedItems(items)
    ensures WellFormedItems(NormalizeItems(items))
    decreases items
  {
    if items.Item? {
      NormalizeWellFormed(items.head);
      NormalizeItemsWellFormed(items.tail);
    }
  }

  lemma {:induction false} InsertFieldWellFormed(key: string, value: Json, f: Fields)
    requires WellFormedFields(f) && WellFormed(value) && !HasKey(f, key)
    ensures WellFormedFields(InsertField(key, value, f))
    ensures forall k :: HasKey(InsertField(key, value, f), k) <==> k == key || HasKey(f, k)
    decreases f
  {
    if f.Field? && !KeyLess(key, f.key) {
      InsertFieldWellFormed(key, value, f.rest);
    }
  }

  lemma {:induction false} NormalizeFieldsWellFormed(f: Fields)
    requires WellFormedFields(f)
    ensures WellFormedFields(NormalizeFields(f))
    decreases f
  {
    if f.Field? {
      NormalizeWellFormed(f.value);
      NormalizeFieldsWellFormed(f.rest);
      NormalizedFields(f.rest);
      InsertFieldWellFormed(f.key, Normalize(f.value), NormalizeFields(f.rest));
    }
  }

  function StableStringify(j: Json): string {
    Stringify(Normalize(j))
  }

  /** The canonical text is the same exactly for values that differ only in the order of object keys:
      nothing else is lost, and nothing else can change it. */
  lemma {:induction false} StableStringifyIffEquivalent(a: Json, b: Json)
    requires WellFormed(a) && WellFormed(b)
    ensures StableStringify(a) == StableStringify(b) <==> Equivalent(a, b)
  {
    NormalizeIffEquivalent(a, b);
    NormalizeWellFormed(a);
    NormalizeWellFormed(b);
    if StableStringify(a) == StableStringify(b) {
      JsonUnique(Normalize(a), Normalize(b), [], []);
    }
  }
}
