/**
 The canonical JSON printer of the contract manifest: compact, with the keys of every object
 sorted. Text is bytes throughout. A number is its printed text.
 */
module CanonicalJson {
  import opened Common
  import Ordering

  /** Fields in the order the map holds them; keys are distinct in a well-formed value. */
  datatype Json =
    | Null
    | Bool(value: bool)
    | Number(text: Bytes)
    | Str(text: Bytes)
    | Array(items: seq<Json>)
    | Object(fields: seq<Field>)

  datatype Field = Field(key: Bytes, value: Json)

  const QUOTE: Byte := 34
  const COMMA: Byte := 44
  const COLON: Byte := 58
  const BACKSLASH: Byte := 92
  const OPEN_ARRAY: Byte := 91
  const CLOSE_ARRAY: Byte := 93
  const OPEN_OBJECT: Byte := 123
  const CLOSE_OBJECT: Byte := 125

  /** Digits, sign, point and exponent letters. */
  predicate NumberByte(b: Byte) {
    48 <= b <= 57 || b in {43, 45, 46, 69, 101}
  }

  predicate IsNumber(text: Bytes) {
    text != [] && (48 <= text[0] <= 57 || text[0] == 45) && forall i :: 0 <= i < |text| ==> NumberByte(text[i])
  }

  // ---------------------------------------------------------------------------------------
  // Printing
  // ---------------------------------------------------------------------------------------

  function HexDigit(n: nat): Byte
    requires n < 16
  {
    if n < 10 then 48 + n else 87 + n
  }

  /** One byte of a string: the short escapes, `\u00XX` for other controls, itself otherwise. */
  function Escape(b: Byte): Bytes {
    if b == QUOTE then [BACKSLASH, QUOTE]
    else if b == BACKSLASH then [BACKSLASH, BACKSLASH]
    else if b == 8 then [BACKSLASH, 98]
    else if b == 9 then [BACKSLASH, 116]
    else if b == 10 then [BACKSLASH, 110]
    else if b == 12 then [BACKSLASH, 102]
    else if b == 13 then [BACKSLASH, 114]
    else if b < 32 then [BACKSLASH, 117, 48, 48, HexDigit(b / 16), HexDigit(b % 16)]
    else [b]
  }

  /** Which bytes are escaped, and how short: the two-byte forms where there is one, else six bytes in lower case. */
  lemma EscapesAreShortest(b: Byte)
    ensures Escape(b) == [b] <==> b >= 32 && b != QUOTE && b != BACKSLASH
    ensures |Escape(b)| == 2 <==> b in {8, 9, 10, 12, 13, QUOTE, BACKSLASH}
    ensures |Escape(b)| in {1, 2, 6}
    ensures |Escape(b)| == 6 ==> forall i :: 2 <= i < 6 ==> 48 <= Escape(b)[i] <= 57 || 97 <= Escape(b)[i] <= 102
  {
  }

  function EscapeAll(s: Bytes): Bytes {
    if s == [] then [] else Escape(s[0]) + EscapeAll(s[1..])
  }

  function Quoted(s: Bytes): Bytes {
    [QUOTE] + EscapeAll(s) + [QUOTE]
  }

  /** Compact printing, fields in the order given. */
  function Print(v: Json): Bytes
    decreases v, 1
  {
    match v
    case Null => Ascii("null")
    case Bool(b) => if b then Ascii("true") else Ascii("false")
    case Number(text) => text
    case Str(text) => Quoted(text)
    case Array(items) => [OPEN_ARRAY] + PrintItems(items, true) + [CLOSE_ARRAY]
    case Object(fields) => [OPEN_OBJECT] + PrintFields(fields, true) + [CLOSE_OBJECT]
  }

  function PrintItems(items: seq<Json>, first: bool): Bytes
    decreases items, 0
  {
    if items == [] then []
    else (if first then [] else [COMMA]) + Print(items[0]) + PrintItems(items[1..], false)
  }

  function PrintFields(fields: seq<Field>, first: bool): Bytes
    decreases fields, 0
  {
    if fields == [] then []
    else
      (if first then [] else [COMMA]) + Quoted(fields[0].key) + [COLON] + Print(fields[0].value)
      + PrintFields(fields[1..], false)
  }

  predicate KeyLeq(a: Bytes, b: Bytes) {
    Ordering.LexLeq(a, b)
  }

  predicate FieldLeq(a: Field, b: Field) {
    KeyLeq(a.key, b.key)
  }

  /** Every object's fields in key order, all the way down. */
  function Normal(v: Json): Json
    decreases v, 1
  {
    match v
    case Array(items) => Array(NormalItems(items))
    case Object(fields) => Object(Ordering.Sort(FieldLeq, NormalFields(fields)))
    case _ => v
  }

  function NormalItems(items: seq<Json>): (r: seq<Json>)
    ensures |r| == |items|
    ensures forall i :: 0 <= i < |items| ==> r[i] == Normal(items[i])
    decreases items, 0
  {
    if items == [] then [] else [Normal(items[0])] + NormalItems(items[1..])
  }

  function NormalFields(fields: seq<Field>): (r: seq<Field>)
    ensures |r| == |fields|
    ensures forall i :: 0 <= i < |fields| ==> r[i] == Field(fields[i].key, Normal(fields[i].value))
    decreases fields, 0
  {
    if fields == [] then []
    else [Field(fields[0].key, Normal(fields[0].value))] + NormalFields(fields[1..])
  }

  function Canonical(v: Json): Bytes {
    Print(Normal(v))
  }

  ghost predicate DistinctKeys(fields: seq<Field>) {
    forall i, j :: 0 <= i < j < |fields| ==> fields[i].key != fields[j].key
  }

  /** Objects are maps, numbers are numbers. */
  ghost predicate WellFormed(v: Json) {
    match v
    case Number(text) => IsNumber(text)
    case Array(items) => forall i :: 0 <= i < |items| ==> WellFormed(items[i])
    case Object(fields) => DistinctKeys(fields) && forall i :: 0 <= i < |fields| ==> WellFormed(fields[i].value)
    case _ => true
  }

  ghost predicate SameKeys(a: seq<Field>, b: seq<Field>) {
    |a| == |b| && forall i :: 0 <= i < |a| ==> exists j :: 0 <= j < |b| && a[i].key == b[j].key
  }

  /** Equal up to the order of object fields. */
  ghost predicate Same(v: Json, w: Json)
    decreases v
  {
    match (v, w)
    case (Array(a), Array(b)) => |a| == |b| && forall i :: 0 <= i < |a| ==> Same(a[i], b[i])
    case (Object(a), Object(b)) =>
      && SameKeys(a, b)
      && forall i, j :: 0 <= i < |a| && 0 <= j < |b| && a[i].key == b[j].key ==> Same(a[i].value, b[j].value)
    case (Array(_), _) => false
    case (Object(_), _) => false
    case _ => v == w
  }

  // ---------------------------------------------------------------------------------------
  // A reader of compact JSON text (sections 2 to 7 of RFC 8259)
  // ---------------------------------------------------------------------------------------

  function HexValue(b: Byte): Option<nat> {
    if 48 <= b <= 57 then Some(b - 48)
    else if 97 <= b <= 102 then Some(b - 87)
    else if 65 <= b <= 70 then Some(b - 55)
    else None
  }

  /** The escapes of two characters. */
  function ShortEscape(b: Byte): Option<Byte> {
    if b == QUOTE || b == BACKSLASH || b == 47 then Some(b)
    else if b == 98 then Some(8)
    else if b == 116 then Some(9)
    else if b == 110 then Some(10)
    else if b == 102 then Some(12)
    else if b == 114 then Some(13)
    else None
  }

  /** One character of a string and what follows it; of `\u` escapes only those of one byte. */
  function ReadByte(s: Bytes): (r: Option<(Byte, Bytes)>)
    ensures r.Some? ==> |r.value.1| < |s|
  {
    if s == [] || s[0] < 32 || s[0] == QUOTE then None
    else if s[0] != BACKSLASH then Some((s[0], s[1..]))
    else if |s| < 2 then None
    else if s[1] != 117 then
      if ShortEscape(s[1]).None? then None else Some((ShortEscape(s[1]).value, s[2..]))
    else if |s| < 6 || s[2] != 48 || s[3] != 48 || HexValue(s[4]).None? || HexValue(s[5]).None? then None
    else Some((16 * HexValue(s[4]).value + HexValue(s[5]).value, s[6..]))
  }

  /** A string from behind its opening quote to its closing one. */
  function ReadString(s: Bytes): (r: Option<(Bytes, Bytes)>)
    ensures r.Some? ==> |r.value.1| < |s|
    decreases |s|
  {
    if s != [] && s[0] == QUOTE then Some(([], s[1..]))
    else
      var first := ReadByte(s);
      if first.None? then None
      else
        var rest := ReadString(first.value.1);
        if rest.None? then None else Some(([first.value.0] + rest.value.0, rest.value.1))
  }

  /** How many number bytes a text begins with. */
  function NumberRun(s: Bytes): (n: nat)
    ensures n <= |s|
  {
    if s == [] || !NumberByte(s[0]) then 0 else 1 + NumberRun(s[1..])
  }

  function ReadValue(s: Bytes): (r: Option<(Json, Bytes)>)
    ensures r.Some? ==> |r.value.1| < |s|
    decreases |s|, 0
  {
    if s == [] then None
    else if Ascii("null") <= s then Some((Null, s[4..]))
    else if Ascii("true") <= s then Some((Bool(true), s[4..]))
    else if Ascii("false") <= s then Some((Bool(false), s[5..]))
    else if s[0] == QUOTE then
      var r := ReadString(s[1..]);
      if r.None? then None else Some((Str(r.value.0), r.value.1))
    else if s[0] == OPEN_ARRAY then
      var r := ReadItems(s[1..], true);
      if r.None? then None else Some((Array(r.value.0), r.value.1))
    else if s[0] == OPEN_OBJECT then
      var r := ReadFields(s[1..], true);
      if r.None? then None else Some((Object(r.value.0), r.value.1))
    else if NumberRun(s) == 0 then None
    else Some((Number(s[..NumberRun(s)]), s[NumberRun(s)..]))
  }

  /** Array items up to the closing bracket; every item but the first comes after a comma. */
  function ReadItems(s: Bytes, first: bool): (r: Option<(seq<Json>, Bytes)>)
    ensures r.Some? ==> |r.value.1| < |s|
    decreases |s|, 1
  {
    if s == [] then None
    else if s[0] == CLOSE_ARRAY then Some(([], s[1..]))
    else if !first && s[0] != COMMA then None
    else
      var item := ReadValue(if first then s else s[1..]);
      if item.None? then None
      else
        var rest := ReadItems(item.value.1, false);
        if rest.None? then None else Some(([item.value.0] + rest.value.0, rest.value.1))
  }

  /** A key, a colon and a value. */
  function ReadField(s: Bytes): (r: Option<(Field, Bytes)>)
    ensures r.Some? ==> |r.value.1| < |s|
    decreases |s|, 1
  {
    if s == [] || s[0] != QUOTE then None
    else
      var key := ReadString(s[1..]);
      if key.None? || key.value.1 == [] || key.value.1[0] != COLON then None
      else
        var value := ReadValue(key.value.1[1..]);
        if value.None? then None else Some((Field(key.value.0, value.value.0), value.value.1))
  }

  function ReadFields(s: Bytes, first: bool): (r: Option<(seq<Field>, Bytes)>)
    ensures r.Some? ==> |r.value.1| < |s|
    decreases |s|, 2
  {
    if s == [] then None
    else if s[0] == CLOSE_OBJECT then Some(([], s[1..]))
    else if !first && s[0] != COMMA then None
    else
      var field := ReadField(if first then s else s[1..]);
      if field.None? then None
      else
        var rest := ReadFields(field.value.1, false);
        if rest.None? then None else Some(([field.value.0] + rest.value.0, rest.value.1))
  }

  // ---------------------------------------------------------------------------------------
  // The reader undoes the printer
  // ---------------------------------------------------------------------------------------

  /** What may follow a value: nothing that could extend a number. */
  predicate Delimited(rest: Bytes) {
    rest == [] || !NumberByte(rest[0])
  }

  lemma Regroup(a: Bytes, b: Bytes, c: Bytes, d: Bytes, e: Bytes)
    ensures a + b + c + d + e == a + (b + (c + d + e))
    ensures a + b + c + d == a + (b + (c + d)) == a + (b + c + d)
  {
  }

  lemma {:induction false} StringBodyFront(s: Bytes, x: Bytes)
    ensures var whole := EscapeAll(s) + [QUOTE] + x;
      if s == [] then whole == [QUOTE] + x && whole[0] == QUOTE
      else whole == Escape(s[0]) + (EscapeAll(s[1..]) + [QUOTE] + x) && whole[0] != QUOTE
  {
    if s != [] {
      Regroup(Escape(s[0]), EscapeAll(s[1..]), [QUOTE], x, []);
      assert (Escape(s[0]) + (EscapeAll(s[1..]) + [QUOTE] + x))[0] == Escape(s[0])[0];
    }
  }

  lemma HexIsRead(n: nat)
    requires n < 16
    ensures HexValue(HexDigit(n)) == Some(n)
  {
  }

  lemma EscapeIsRead(b: Byte, x: Bytes)
    ensures ReadByte(Escape(b) + x) == Some((b, x))
  {
    var p, s := Escape(b), Escape(b) + x;
    assert s[0] == p[0] && s[|p|..] == x;
    if p[0] == BACKSLASH {
      assert s[1] == p[1];
      if p[1] == 117 {
        assert s[2] == p[2] && s[3] == p[3] && s[4] == p[4] && s[5] == p[5];
        HexIsRead(b / 16);
        HexIsRead(b % 16);
      }
    }
  }

  /** A string body is read up to its closing quote, whatever follows. */
  lemma {:induction false} StringIsRead(t: Bytes, x: Bytes)
    ensures ReadString(EscapeAll(t) + [QUOTE] + x) == Some((t, x))
  {
    StringBodyFront(t, x);
    if t == [] {
      assert ([QUOTE] + x)[1..] == x;
    } else {
      var rest := EscapeAll(t[1..]) + [QUOTE] + x;
      EscapeIsRead(t[0], rest);
      StringIsRead(t[1..], x);
      StringStep(Escape(t[0]) + rest, t[0], rest, t[1..], x);
      assert t == [t[0]] + t[1..];
    }
  }

  lemma {:induction false} StringStep(s: Bytes, b: Byte, rest: Bytes, more: Bytes, x: Bytes)
    requires s != [] && s[0] != QUOTE && ReadByte(s) == Some((b, rest)) && ReadString(rest) == Some((more, x))
    ensures ReadString(s) == Some(([b] + more, x))
  {
  }

  lemma QuotedFront(t: Bytes, x: Bytes)
    ensures var s := Quoted(t) + x; s[0] == QUOTE && s[1..] == EscapeAll(t) + [QUOTE] + x
  {
  }

  lemma {:induction false} NumberEndsAtDelimiter(s: Bytes, x: Bytes)
    requires (forall i :: 0 <= i < |s| ==> NumberByte(s[i])) && Delimited(x)
    ensures NumberRun(s + x) == |s|
  {
    if s == [] {
      assert s + x == x;
    } else {
      assert (s + x)[0] == s[0] && (s + x)[1..] == s[1..] + x;
      NumberEndsAtDelimiter(s[1..], x);
    }
  }

  /** The first byte of a printed value tells its kind. */
  function Kind(v: Json): Byte {
    match v
    case Null => 110
    case Bool(b) => if b then 116 else 102
    case Number(text) => 48
    case Str(_) => QUOTE
    case Array(_) => OPEN_ARRAY
    case Object(_) => OPEN_OBJECT
  }

  lemma FirstByte(v: Json)
    requires WellFormed(v)
    ensures Print(v) != []
    ensures if v.Number? then NumberByte(Print(v)[0]) else Print(v)[0] == Kind(v)
  {
  }

  lemma Wrapped(open: Byte, p: Bytes, close: Byte, x: Bytes)
    ensures var s := [open] + p + [close] + x; s[0] == open && s[1..] == p + [close] + x
  {
  }

  function Lead(first: bool): Bytes {
    if first then [] else [COMMA]
  }

  lemma LeadFront(first: bool, p: Bytes, x: Bytes)
    requires p != []
    ensures (Lead(first) + (p + x))[0] == if first then p[0] else COMMA
  {
  }

  lemma {:induction false} ItemsFront(items: seq<Json>, first: bool, x: Bytes)
    requires forall i :: 0 <= i < |items| ==> WellFormed(items[i])
    ensures var whole := PrintItems(items, first) + [CLOSE_ARRAY] + x;
      && (!first ==> Delimited(whole))
      && if items == [] then whole == [CLOSE_ARRAY] + x && whole[0] == CLOSE_ARRAY
         else
           && whole[0] != CLOSE_ARRAY
           && whole == Lead(first) + (Print(items[0]) + (PrintItems(items[1..], false) + [CLOSE_ARRAY] + x))
  {
    if items != [] {
      FirstByte(items[0]);
      Regroup(Lead(first), Print(items[0]), PrintItems(items[1..], false), [CLOSE_ARRAY], x);
      LeadFront(first, Print(items[0]), PrintItems(items[1..], false) + [CLOSE_ARRAY] + x);
    }
  }

  lemma RegroupField(lead: Bytes, key: Bytes, value: Bytes, rest: Bytes, x: Bytes)
    ensures lead + key + [COLON] + value + rest + [CLOSE_OBJECT] + x
         == lead + (key + ([COLON] + (value + (rest + [CLOSE_OBJECT] + x))))
  {
  }

  lemma {:induction false} FieldsFront(fields: seq<Field>, first: bool, x: Bytes)
    ensures var whole := PrintFields(fields, first) + [CLOSE_OBJECT] + x;
      && (!first ==> Delimited(whole))
      && if fields == [] then whole == [CLOSE_OBJECT] + x && whole[0] == CLOSE_OBJECT
         else
           && whole[0] != CLOSE_OBJECT
           && whole == Lead(first) + (Quoted(fields[0].key)
                + ([COLON] + (Print(fields[0].value) + (PrintFields(fields[1..], false) + [CLOSE_OBJECT] + x))))
  {
    if fields != [] {
      var key, value, rest := Quoted(fields[0].key), Print(fields[0].value), PrintFields(fields[1..], false);
      RegroupField(Lead(first), key, value, rest, x);
      LeadFront(first, key, [COLON] + (value + (rest + [CLOSE_OBJECT] + x)));
    }
  }

  lemma {:induction false} NumberIsRead(text: Bytes, x: Bytes)
    requires IsNumber(text) && Delimited(x)
    ensures ReadValue(text + x) == Some((Number(text), x))
  {
    var s := text + x;
    NumberEndsAtDelimiter(text, x);
    assert s[0] == text[0] && s[..|text|] == text && s[|text|..] == x;
    assert Ascii("null")[0] == 110 && Ascii("true")[0] == 116 && Ascii("false")[0] == 102;
  }

  lemma {:induction false} LiteralIsRead(v: Json, x: Bytes)
    requires v.Null? || v.Bool?
    ensures ReadValue(Print(v) + x) == Some((v, x))
  {
    var s := Print(v) + x;
    assert s[0] == Print(v)[0] && s[|Print(v)|..] == x && Print(v) <= s;
    assert Ascii("null")[0] == 110 && Ascii("true")[0] == 116 && Ascii("false")[0] == 102;
  }

  /** Printed text is read back as the value it was printed from, whatever may follow it. */
  lemma {:induction false} ValueIsRead(v: Json, x: Bytes)
    requires WellFormed(v) && Delimited(x)
    ensures ReadValue(Print(v) + x) == Some((v, x))
    decreases v, 1
  {
    match v {
      case Number(text) => NumberIsRead(text, x);
      case Str(text) =>
        QuotedFront(text, x);
        StringIsRead(text, x);
        OpensWith(QUOTE, Print(v) + x);
      case Array(items) =>
        Wrapped(OPEN_ARRAY, PrintItems(items, true), CLOSE_ARRAY, x);
        ItemsAreRead(items, true, x);
        OpensWith(OPEN_ARRAY, Print(v) + x);
      case Object(fields) =>
        Wrapped(OPEN_OBJECT, PrintFields(fields, true), CLOSE_OBJECT, x);
        FieldsAreRead(fields, true, x);
        OpensWith(OPEN_OBJECT, Print(v) + x);
      case _ => LiteralIsRead(v, x);
    }
  }

  /** A text that opens with a quote or bracket is no literal. */
  lemma OpensWith(open: Byte, s: Bytes)
    requires s != [] && s[0] == open && open in {QUOTE, OPEN_ARRAY, OPEN_OBJECT}
    ensures !(Ascii("null") <= s) && !(Ascii("true") <= s) && !(Ascii("false") <= s)
  {
    assert Ascii("null")[0] == 110 && Ascii("true")[0] == 116 && Ascii("false")[0] == 102;
  }

  lemma LeadIsRead(first: bool, p: Bytes)
    ensures (if first then Lead(first) + p else (Lead(first) + p)[1..]) == p
  {
  }

  lemma {:induction false} ItemsAreRead(items: seq<Json>, first: bool, x: Bytes)
    requires forall i :: 0 <= i < |items| ==> WellFormed(items[i])
    ensures ReadItems(PrintItems(items, first) + [CLOSE_ARRAY] + x, first) == Some((items, x))
    decreases items, 0
  {
    ItemsFront(items, first, x);
    if items == [] {
      assert ([CLOSE_ARRAY] + x)[1..] == x;
    } else {
      var rest := PrintItems(items[1..], false) + [CLOSE_ARRAY] + x;
      LeadIsRead(first, Print(items[0]) + rest);
      ItemsFront(items[1..], false, x);
      ValueIsRead(items[0], rest);
      ItemsAreRead(items[1..], false, x);
      assert items == [items[0]] + items[1..];
    }
  }

  lemma {:induction false} FieldIsRead(f: Field, x: Bytes)
    requires WellFormed(f.value) && Delimited(x)
    ensures var p := Quoted(f.key) + ([COLON] + (Print(f.value) + x)); p[0] == QUOTE && ReadField(p) == Some((f, x))
    decreases f, 2
  {
    var after := [COLON] + (Print(f.value) + x);
    QuotedFront(f.key, after);
    StringIsRead(f.key, after);
    assert after[1..] == Print(f.value) + x;
    ValueIsRead(f.value, x);
  }

  lemma {:induction false} FieldsStep(first: bool, p: Bytes, f: Field, rest: Bytes, more: seq<Field>, x: Bytes)
    requires p != [] && p[0] == QUOTE && ReadField(p) == Some((f, rest)) && ReadFields(rest, false) == Some((more, x))
    ensures ReadFields(Lead(first) + p, first) == Some(([f] + more, x))
  {
    LeadIsRead(first, p);
  }

  lemma {:induction false} FieldsAreRead(fields: seq<Field>, first: bool, x: Bytes)
    requires forall i :: 0 <= i < |fields| ==> WellFormed(fields[i].value)
    ensures ReadFields(PrintFields(fields, first) + [CLOSE_OBJECT] + x, first) == Some((fields, x))
    decreases fields, 0
  {
    if fields == [] {
      FieldsFront(fields, first, x);
      assert ([CLOSE_OBJECT] + x)[1..] == x;
    } else {
      var rest := PrintFields(fields[1..], false) + [CLOSE_OBJECT] + x;
      FieldsFront(fields[1..], false, x);
      FieldIsRead(fields[0], rest);
      FieldsAreRead(fields[1..], false, x);
      FieldsJoin(fields, first, x, rest);
    }
  }

  lemma {:induction false} FieldsJoin(fields: seq<Field>, first: bool, x: Bytes, rest: Bytes)
    requires fields != [] && rest == PrintFields(fields[1..], false) + [CLOSE_OBJECT] + x
    requires ReadFields(rest, false) == Some((fields[1..], x))
    requires var p := Quoted(fields[0].key) + ([COLON] + (Print(fields[0].value) + rest));
      p[0] == QUOTE && ReadField(p) == Some((fields[0], rest))
    ensures ReadFields(PrintFields(fields, first) + [CLOSE_OBJECT] + x, first) == Some((fields, x))
  {
    FieldsFront(fields, first, x);
    FieldsStep(first, Quoted(fields[0].key) + ([COLON] + (Print(fields[0].value) + rest)), fields[0], rest, fields[1..], x);
    assert fields == [fields[0]] + fields[1..];
  }

  // ---------------------------------------------------------------------------------------
  // Normal forms are equal exactly for values equal up to field order
  // ---------------------------------------------------------------------------------------

  lemma KeysAreOrdered()
    ensures Ordering.TotalPreorder(KeyLeq) && Ordering.TotalPreorder(FieldLeq)
    ensures forall a, b :: KeyLeq(a, b) && KeyLeq(b, a) ==> a == b
  {
    Ordering.LexIsTotalPreorder();
    assert forall a: Bytes, b: Bytes :: KeyLeq(a, b) <==> Ordering.LexLeq(a, b);
  }

  /** In the canonical form the keys of an object ascend strictly, byte by byte. */
  lemma KeysAscend(fields: seq<Field>, i: nat, j: nat)
    requires DistinctKeys(fields) && i < j < |Ordering.Sort(FieldLeq, NormalFields(fields))|
    ensures var sorted := Ordering.Sort(FieldLeq, NormalFields(fields)); Ordering.Before(sorted[i].key, sorted[j].key)
  {
    var sorted := Ordering.Sort(FieldLeq, NormalFields(fields));
    KeysAreOrdered();
    Ordering.SortIsSortedPermutation(FieldLeq, NormalFields(fields));
    NormalKeysAreDistinct(fields);
    DistinctKeysSurvive(NormalFields(fields), sorted);
    assert FieldLeq(sorted[i], sorted[j]);
    Ordering.LexMeaning(sorted[i].key, sorted[j].key);
  }

  lemma {:induction false} DistinctKeysSort(a: seq<Field>, b: seq<Field>)
    requires DistinctKeys(a)
    ensures multiset(a) == multiset(b) <==> Ordering.Sort(FieldLeq, a) == Ordering.Sort(FieldLeq, b)
  {
    KeysAreOrdered();
    Ordering.SortIsSortedPermutation(FieldLeq, a);
    Ordering.SortIsSortedPermutation(FieldLeq, b);
    if multiset(a) == multiset(b) {
      assert Ordering.Antisymmetric(FieldLeq, a);
      Ordering.SortForgetsOrder(FieldLeq, a, b);
    }
  }

  lemma {:induction false} RestIsIncluded(a: seq<Field>, b: seq<Field>, j: nat)
    requires DistinctKeys(a) && a != [] && j < |b| && b[j] == a[0]
    requires forall i :: 0 <= i < |a| ==> a[i] in b
    ensures forall i :: 0 <= i < |a[1..]| ==> a[1..][i] in b[..j] + b[j + 1..]
  {
    var rest := b[..j] + b[j + 1..];
    forall i | 0 <= i < |a[1..]| ensures a[1..][i] in rest {
      var k :| 0 <= k < |b| && b[k] == a[i + 1];
      assert a[i + 1].key != a[0].key;
      assert rest[if k < j then k else k - 1] == a[i + 1];
    }
  }

  /** Inclusion between duplicate-free sequences of one length is a permutation. */
  lemma {:induction false} InclusionIsPermutation(a: seq<Field>, b: seq<Field>)
    requires DistinctKeys(a) && |a| == |b| && forall i :: 0 <= i < |a| ==> a[i] in b
    ensures multiset(a) == multiset(b)
  {
    if a != [] {
      var j :| 0 <= j < |b| && b[j] == a[0];
      RestIsIncluded(a, b, j);
      InclusionIsPermutation(a[1..], b[..j] + b[j + 1..]);
      Ordering.WithoutFirst(a);
      Ordering.Without(b, j);
    }
  }

  ghost predicate FieldsMatch(a: seq<Field>, b: seq<Field>) {
    && SameKeys(a, b)
    && forall i, j :: 0 <= i < |a| && 0 <= j < |b| && a[i].key == b[j].key ==> Normal(a[i].value) == Normal(b[j].value)
  }

  lemma {:induction false} PermutedFieldsMatch(a: seq<Field>, b: seq<Field>)
    requires DistinctKeys(b) && multiset(NormalFields(a)) == multiset(NormalFields(b))
    ensures FieldsMatch(a, b)
  {
    var x, y := NormalFields(a), NormalFields(b);
    Ordering.SameMultisetSameMembers(x, y);
    forall i | 0 <= i < |a|
      ensures exists j :: 0 <= j < |b| && a[i].key == b[j].key && Normal(a[i].value) == Normal(b[j].value)
    {
      assert x[i] in y;
      var j :| 0 <= j < |y| && y[j] == x[i];
      assert a[i].key == b[j].key;
    }
  }

  lemma {:induction false} MatchingFieldsPermute(a: seq<Field>, b: seq<Field>)
    requires DistinctKeys(a) && FieldsMatch(a, b)
    ensures multiset(NormalFields(a)) == multiset(NormalFields(b))
  {
    var x, y := NormalFields(a), NormalFields(b);
    forall i | 0 <= i < |x| ensures x[i] in y {
      var j :| 0 <= j < |b| && a[i].key == b[j].key;
      assert y[j] == x[i];
    }
    InclusionIsPermutation(x, y);
  }

  lemma {:induction false} FieldsMatchExactly(a: seq<Field>, b: seq<Field>)
    requires DistinctKeys(a) && DistinctKeys(b)
    ensures FieldsMatch(a, b) <==> Normal(Object(a)) == Normal(Object(b))
  {
    var x, y := NormalFields(a), NormalFields(b);
    NormalKeysAreDistinct(a);
    DistinctKeysSort(x, y);
    assert Normal(Object(a)) == Normal(Object(b)) <==> multiset(x) == multiset(y);
    if multiset(x) == multiset(y) {
      PermutedFieldsMatch(a, b);
    } else if FieldsMatch(a, b) {
      MatchingFieldsPermute(a, b);
    }
  }

  lemma {:induction false} NormalKeysAreDistinct(a: seq<Field>)
    requires DistinctKeys(a)
    ensures DistinctKeys(NormalFields(a))
  {
  }

  lemma {:induction false} SameExactlyWhenNormalsAgree(v: Json, w: Json)
    requires WellFormed(v) && WellFormed(w)
    ensures Same(v, w) <==> Normal(v) == Normal(w)
    decreases v
  {
    match (v, w) {
      case (Array(a), Array(b)) =>
        if |a| == |b| {
          forall i | 0 <= i < |a| ensures Same(a[i], b[i]) <==> Normal(a[i]) == Normal(b[i]) {
            SameExactlyWhenNormalsAgree(a[i], b[i]);
          }
          assert Normal(v) == Normal(w) <==> NormalItems(a) == NormalItems(b);
          assert NormalItems(a) == NormalItems(b) <==>
              forall i :: 0 <= i < |a| ==> NormalItems(a)[i] == NormalItems(b)[i];
        } else {
          assert |NormalItems(a)| != |NormalItems(b)|;
        }
      case (Object(a), Object(b)) =>
        forall i, j | 0 <= i < |a| && 0 <= j < |b|
          ensures Same(a[i].value, b[j].value) <==> Normal(a[i].value) == Normal(b[j].value)
        {
          SameExactlyWhenNormalsAgree(a[i].value, b[j].value);
        }
        assert Same(v, w) <==> FieldsMatch(a, b);
        FieldsMatchExactly(a, b);
      case _ =>
    }
  }

  lemma {:induction false} NormalIsWellFormed(v: Json)
    requires WellFormed(v)
    ensures WellFormed(Normal(v))
  {
    match v {
      case Array(items) =>
        forall i | 0 <= i < |items| ensures WellFormed(NormalItems(items)[i]) {
          NormalIsWellFormed(items[i]);
        }
      case Object(fields) =>
        forall i | 0 <= i < |fields| ensures WellFormed(NormalFields(fields)[i].value) {
          NormalIsWellFormed(fields[i].value);
        }
        SortedFieldsAreWellFormed(NormalFields(fields));
      case _ =>
    }
  }

  lemma {:induction false} SortedFieldsAreWellFormed(fields: seq<Field>)
    requires WellFormed(Object(fields))
    ensures WellFormed(Object(Ordering.Sort(FieldLeq, fields)))
  {
    var sorted := Ordering.Sort(FieldLeq, fields);
    KeysAreOrdered();
    Ordering.SortIsSortedPermutation(FieldLeq, fields);
    forall i | 0 <= i < |sorted| ensures WellFormed(sorted[i].value) {
      assert sorted[i] in fields;
    }
    DistinctKeysSurvive(fields, sorted);
  }

  lemma DistinctKeysSurvive(a: seq<Field>, b: seq<Field>)
    requires DistinctKeys(a) && multiset(a) == multiset(b)
    ensures DistinctKeys(b)
  {
    Ordering.SameMultisetSameMembers(a, b);
    forall i, j | 0 <= i < j < |b| ensures b[i].key != b[j].key {
      assert b[i] in a && b[j] in a;
      OccursOnce(a, b[i]);
      assert b == b[..i] + [b[i]] + b[i + 1..j] + [b[j]] + b[j + 1..];
      assert b[i] == b[j] ==> multiset(b)[b[i]] >= 2;
    }
  }

  lemma {:induction false} OccursOnce(a: seq<Field>, f: Field)
    requires DistinctKeys(a)
    ensures multiset(a)[f] <= 1
  {
    if a != [] {
      OccursOnce(a[1..], f);
      assert a == [a[0]] + a[1..];
      assert f == a[0] ==> f !in multiset(a[1..]) by {
        assert f in multiset(a[1..]) <==> f in a[1..];
      }
    }
  }

  lemma {:induction false} SortedFieldsAreStable(fields: seq<Field>)
    requires forall i :: 0 <= i < |fields| ==> Normal(fields[i].value) == fields[i].value
    ensures var sorted := Ordering.Sort(FieldLeq, fields); Ordering.Sort(FieldLeq, NormalFields(sorted)) == sorted
  {
    var sorted := Ordering.Sort(FieldLeq, fields);
    KeysAreOrdered();
    Ordering.SortIsSortedPermutation(FieldLeq, fields);
    forall i | 0 <= i < |sorted| ensures NormalFields(sorted)[i] == sorted[i] {
      assert sorted[i] in fields;
    }
    assert NormalFields(sorted) == sorted;
    Ordering.SortKeepsSorted(FieldLeq, sorted);
  }

  lemma {:induction false} NormalIsStable(v: Json)
    ensures Normal(Normal(v)) == Normal(v)
  {
    match v {
      case Array(items) =>
        forall i | 0 <= i < |items| ensures Normal(NormalItems(items)[i]) == NormalItems(items)[i] {
          NormalIsStable(items[i]);
        }
        assert NormalItems(NormalItems(items)) == NormalItems(items);
      case Object(fields) =>
        forall i | 0 <= i < |fields| ensures Normal(NormalFields(fields)[i].value) == NormalFields(fields)[i].value {
          NormalIsStable(fields[i].value);
        }
        SortedFieldsAreStable(NormalFields(fields));
      case _ =>
    }
  }

  /** Reading the canonical text gives the value back, its fields sorted. */
  lemma CanonicalTextIsRead(v: Json)
    requires WellFormed(v)
    ensures ReadValue(Canonical(v)) == Some((Normal(v), [])) && Same(v, Normal(v))
  {
    NormalIsWellFormed(v);
    ValueIsRead(Normal(v), []);
    assert Print(Normal(v)) + [] == Canonical(v);
    NormalIsStable(v);
    SameExactlyWhenNormalsAgree(v, Normal(v));
  }

  /** Two values have the same canonical text exactly when they differ only in field order. */
  lemma {:induction false} CanonicalTextIsMeaning(v: Json, w: Json)
    requires WellFormed(v) && WellFormed(w)
    ensures Canonical(v) == Canonical(w) <==> Same(v, w)
  {
    SameExactlyWhenNormalsAgree(v, w);
    CanonicalTextIsRead(v);
    CanonicalTextIsRead(w);
  }

  // ---------------------------------------------------------------------------------------
  // The printer as the source runs it
  // ---------------------------------------------------------------------------------------

  function KeyOf(f: Field): Bytes {
    f.key
  }

  function KeysOf(fields: seq<Field>): seq<Bytes> {
    Ordering.Map(KeyOf, fields)
  }

  lemma {:induction false} SortedLengths(fields: seq<Field>)
    ensures |Ordering.Sort(KeyLeq, KeysOf(fields))| == |Ordering.Sort(FieldLeq, NormalFields(fields))| == |fields|
  {
    KeysAreOrdered();
    Ordering.SortIsSortedPermutation(FieldLeq, NormalFields(fields));
    Ordering.SortIsSortedPermutation(KeyLeq, KeysOf(fields));
  }

  lemma {:induction false} SortedKeys(fields: seq<Field>)
    ensures KeysOf(Ordering.Sort(FieldLeq, NormalFields(fields))) == Ordering.Sort(KeyLeq, KeysOf(fields))
  {
    assert KeysOf(NormalFields(fields)) == KeysOf(fields);
    Ordering.SortMaps(FieldLeq, KeyLeq, KeyOf, NormalFields(fields));
  }

  /** The field sorted to place `i` is a field of the object, its value in normal form. */
  lemma {:induction false} SortedFieldIsFound(fields: seq<Field>, i: nat) returns (j: nat)
    requires i < |Ordering.Sort(FieldLeq, NormalFields(fields))|
    ensures j < |fields|
    ensures Ordering.Sort(FieldLeq, NormalFields(fields))[i] == Field(fields[j].key, Normal(fields[j].value))
  {
    var normal := NormalFields(fields);
    KeysAreOrdered();
    Ordering.SortIsSortedPermutation(FieldLeq, normal);
    assert Ordering.Sort(FieldLeq, normal)[i] in normal;
    j :| 0 <= j < |normal| && normal[j] == Ordering.Sort(FieldLeq, normal)[i];
  }

  /** The key sorted to place `i` is found, and with its value it is the field sorted to place `i`. */
  lemma {:induction false} SortedKeyFindsSortedField(fields: seq<Field>, i: nat, key: Bytes, field: Field)
    requires DistinctKeys(fields) && i < |Ordering.Sort(KeyLeq, KeysOf(fields))| == |Ordering.Sort(FieldLeq, NormalFields(fields))|
    requires key == Ordering.Sort(KeyLeq, KeysOf(fields))[i] && field == Ordering.Sort(FieldLeq, NormalFields(fields))[i]
    ensures exists j :: 0 <= j < |fields| && fields[j].key == key
    ensures forall j :: 0 <= j < |fields| && fields[j].key == key ==> field == Field(key, Normal(fields[j].value))
  {
    SortedKeys(fields);
    assert key == KeyOf(field);
    var j := SortedFieldIsFound(fields, i);
    assert fields[j].key == key;
  }

  lemma Join(a: Bytes, b: Bytes, c: Bytes, d: Bytes)
    ensures a + b + c + d == a + (b + c + d)
    ensures c == [] ==> a + b + c == a + b
  {
  }

  lemma JoinField(a: Bytes, b: Bytes, lead: Bytes, key: Bytes, value: Bytes)
    ensures a + b + lead + key + [COLON] + value == a + (b + lead + key + [COLON] + value)
    ensures lead == [] ==> a + b + lead == a + b
  {
  }

  lemma {:induction false} ItemsSnoc(items: seq<Json>, v: Json, first: bool)
    ensures PrintItems(items + [v], first) == PrintItems(items, first) + Lead(first && items == []) + Print(v)
  {
    var all := items + [v];
    if items == [] {
      assert all[1..] == [];
    } else {
      assert all[0] == items[0] && all[1..] == items[1..] + [v];
      ItemsSnoc(items[1..], v, false);
      Join(Lead(first) + Print(items[0]), PrintItems(items[1..], false), [COMMA], Print(v));
    }
  }

  lemma {:induction false} FieldsSnoc(fields: seq<Field>, f: Field, first: bool)
    ensures PrintFields(fields + [f], first)
         == PrintFields(fields, first) + Lead(first && fields == []) + Quoted(f.key) + [COLON] + Print(f.value)
  {
    var all := fields + [f];
    if fields == [] {
      assert all[1..] == [];
    } else {
      assert all[0] == fields[0] && all[1..] == fields[1..] + [f];
      FieldsSnoc(fields[1..], f, false);
      var front := Lead(first) + Quoted(fields[0].key) + [COLON] + Print(fields[0].value);
      JoinField(front, PrintFields(fields[1..], false), [COMMA], Quoted(f.key), Print(f.value));
    }
  }

  lemma {:induction false} ItemsPrinted(start: Bytes, items: seq<Json>, i: nat)
    requires i < |items|
    ensures var before := start + PrintItems(items[..i], true);
      (if i > 0 then before + [COMMA] else before) + Print(items[i]) == start + PrintItems(items[..i + 1], true)
  {
    ItemsSnoc(items[..i], items[i], true);
    assert items[..i + 1] == items[..i] + [items[i]];
    Join(start, PrintItems(items[..i], true), Lead(i == 0), Print(items[i]));
  }

  lemma {:induction false} FieldsPrinted(start: Bytes, fields: seq<Field>, i: nat)
    requires i < |fields|
    ensures var before := start + PrintFields(fields[..i], true);
      (if i > 0 then before + [COMMA] else before) + Quoted(fields[i].key) + [COLON] + Print(fields[i].value)
      == start + PrintFields(fields[..i + 1], true)
  {
    FieldsSnoc(fields[..i], fields[i], true);
    assert fields[..i + 1] == fields[..i] + [fields[i]];
    JoinField(start, PrintFields(fields[..i], true), Lead(i == 0), Quoted(fields[i].key), Print(fields[i].value));
  }

  method Append(value: Json, output: Bytes) returns (r: Bytes)
    requires WellFormed(value)
    ensures r == output + Canonical(value)
    decreases value, 2
  {
    match value {
      case Array(items) => r := AppendItems(value, items, output);
      case Object(fields) => r := AppendFields(value, fields, output);
      case _ => r := output + Print(value);
    }
  }

  method AppendItems(value: Json, items: seq<Json>, output: Bytes) returns (r: Bytes)
    requires WellFormed(value) && value == Array(items)
    ensures r == output + Canonical(value)
    decreases value, 0
  {
    ghost var normal := NormalItems(items);
    r := output + [OPEN_ARRAY];
    ghost var start := r;
    for i := 0 to |items|
      invariant r == start + PrintItems(normal[..i], true)
    {
      if i > 0 {
        r := r + [COMMA];
      }
      r := Append(items[i], r);
      ItemsPrinted(start, normal, i);
    }
    assert normal[..|items|] == normal;
    Join(output, [OPEN_ARRAY], PrintItems(normal, true), [CLOSE_ARRAY]);
    r := r + [CLOSE_ARRAY];
  }

  /** One field: its key, a colon, and the value found under the key. */
  method AppendField(value: Json, key: Bytes, ghost field: Field, output: Bytes) returns (r: Bytes)
    requires WellFormed(value) && value.Object?
    requires exists j :: 0 <= j < |value.fields| && value.fields[j].key == key
    requires forall j :: 0 <= j < |value.fields| && value.fields[j].key == key ==>
      field == Field(key, Normal(value.fields[j].value))
    ensures r == output + Quoted(field.key) + [COLON] + Print(field.value)
    decreases value, 0
  {
    var j :| 0 <= j < |value.fields| && value.fields[j].key == key;
    r := Append(value.fields[j].value, output + Quoted(key) + [COLON]);
  }

  method AppendFields(value: Json, fields: seq<Field>, output: Bytes) returns (r: Bytes)
    requires WellFormed(value) && value == Object(fields)
    ensures r == output + Canonical(value)
    decreases value, 1
  {
    var keys := Ordering.Sort(KeyLeq, KeysOf(fields));
    ghost var sorted := Ordering.Sort(FieldLeq, NormalFields(fields));
    SortedLengths(fields);
    r := output + [OPEN_OBJECT];
    ghost var start := r;
    for i := 0 to |keys|
      invariant r == start + PrintFields(sorted[..i], true)
    {
      if i > 0 {
        r := r + [COMMA];
      }
      SortedKeyFindsSortedField(fields, i, keys[i], sorted[i]);
      r := AppendField(value, keys[i], sorted[i], r);
      FieldsPrinted(start, sorted, i);
    }
    assert sorted[..|keys|] == sorted;
    Join(output, [OPEN_OBJECT], PrintFields(sorted, true), [CLOSE_OBJECT]);
    r := r + [CLOSE_OBJECT];
  }

  method CanonicalJson(value: Json) returns (r: Bytes)
    requires WellFormed(value)
    ensures r == Canonical(value)
  {
    r := Append(value, []);
  }
}
