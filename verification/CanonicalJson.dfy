/** `canonicalJson`: the text of a value with object keys sorted by `localeCompare` and undefined
    fields dropped; strings and integers are printed as `JSON.stringify` prints them. */
module CanonicalJson {
  import opened Options
  import opened StableSort

  /** A UTF-16 code unit; JavaScript strings may hold lone surrogates. */
  type Unit = x: int | 0 <= x < 0x1_0000
  type Text = seq<Unit>

  /** `localeCompare`, as ranks: strings of equal rank compare as 0. */
  type Collation = Text -> real

  datatype Value =
    | Null | Bool(b: bool) | Num(n: int) | Str(s: Text)
    | Arr(items: seq<Value>) | Obj(fields: seq<Field>)
    | NotFinite | Undefined | Foreign
  datatype Field = Field(name: Text, value: Value)

  const QUOTE: Unit := 34
  const BACKSLASH: Unit := 92
  const COMMA: Unit := 44
  const COLON: Unit := 58
  const LBRACKET: Unit := 91
  const RBRACKET: Unit := 93
  const LBRACE: Unit := 123
  const RBRACE: Unit := 125
  const MINUS: Unit := 45
  const NULL: Text := [110, 117, 108, 108]
  const TRUE: Text := [116, 114, 117, 101]
  const FALSE: Text := [102, 97, 108, 115, 101]

  // ---------------------------------------------------------------- strings and numbers

  function HexDigit(d: int): Unit
    requires 0 <= d < 16
  {
    if d < 10 then 48 + d else 87 + d
  }

  function UnicodeEscape(c: Unit): Text {
    [BACKSLASH, 117, HexDigit(c / 16 / 16 / 16), HexDigit(c / 16 / 16 % 16), HexDigit(c / 16 % 16), HexDigit(c % 16)]
  }

  predicate IsHigh(c: Unit) { 0xD800 <= c < 0xDC00 }
  predicate IsLow(c: Unit) { 0xDC00 <= c < 0xE000 }

  /** The letter of a two-character escape, if the unit has one. */
  function ShortEscape(c: Unit): Option<Unit> {
    if c == QUOTE || c == BACKSLASH then Some(c)
    else if c == 8 then Some(98)
    else if c == 12 then Some(102)
    else if c == 10 then Some(110)
    else if c == 13 then Some(114)
    else if c == 9 then Some(116)
    else None
  }

  /** A surrogate pair is printed as one character, all else one unit at a time. */
  function HeadLength(s: Text): (n: nat)
    requires s != []
    ensures 1 <= n <= |s|
  {
    if IsHigh(s[0]) && |s| > 1 && IsLow(s[1]) then 2 else 1
  }

  function EscapeHead(s: Text): Text
    requires s != []
  {
    if ShortEscape(s[0]).Some? then [BACKSLASH, ShortEscape(s[0]).value]
    else if HeadLength(s) == 2 then s[..2]
    else if s[0] < 32 || IsHigh(s[0]) || IsLow(s[0]) then UnicodeEscape(s[0])
    else [s[0]]
  }

  function Escape(s: Text): Text {
    if s == [] then [] else EscapeHead(s) + Escape(s[HeadLength(s)..])
  }

  function Quote(s: Text): Text { [QUOTE] + Escape(s) + [QUOTE] }

  function Digits(n: nat): Text {
    if n < 10 then [48 + n] else Digits(n / 10) + [48 + n % 10]
  }

  function Number(n: int): Text {
    if n < 0 then [MINUS] + Digits(-n) else Digits(n)
  }

  // ---------------------------------------------------------------- the printer

  function IsDefined(f: Field): bool { !f.value.Undefined? }

  function ByName(col: Collation): (Field, Field) -> bool {
    (a: Field, b: Field) => col(a.name) <= col(b.name)
  }

  lemma ByNameIsOrder(col: Collation)
    ensures TotalPreorder(ByName(col))
  {
  }

  /** The entries of an object that are printed, in print order. */
  function Entries(fields: seq<Field>, col: Collation): (es: seq<Field>)
    ensures forall f :: f in es <==> f in fields && IsDefined(f)
  {
    ByNameIsOrder(col);
    SortIsSorting(Filter(fields, IsDefined), ByName(col));
    Sort(Filter(fields, IsDefined), ByName(col))
  }

  ghost predicate InFields(f: Field, fields: seq<Field>) {
    exists k :: 0 <= k < |fields| && fields[k] == f
  }

  ghost predicate DistinctNames(fields: seq<Field>) {
    forall i, j :: 0 <= i < j < |fields| ==> fields[i].name != fields[j].name
  }

  /** An entry is one of the fields, so it is smaller than the object. */
  lemma EntryInFields(fields: seq<Field>, col: Collation, i: nat)
    requires i < |Entries(fields, col)|
    ensures var e := Entries(fields, col)[i]; InFields(e, fields) && e in fields && IsDefined(e)
  {
    var es := Entries(fields, col);
    assert es[i] in es;
  }

  /** Values the printer accepts. Field names of a JavaScript object are always distinct. */
  ghost predicate Printable(v: Value) {
    match v
    case Null => true
    case Bool(_) => true
    case Num(_) => true
    case Str(_) => true
    case Arr(items) => forall x :: x in items ==> Printable(x)
    case Obj(fields) => DistinctNames(fields) && forall f :: f in fields && IsDefined(f) ==> Printable(f.value)
    case _ => false
  }

  function Join(ts: seq<Text>): Text {
    if ts == [] then [] else if |ts| == 1 then ts[0] else ts[0] + [COMMA] + Join(ts[1..])
  }

  function Print(v: Value, col: Collation): Text
    requires Printable(v)
  {
    match v
    case Null => NULL
    case Bool(b) => if b then TRUE else FALSE
    case Num(n) => Number(n)
    case Str(s) => Quote(s)
    case Arr(items) =>
      [LBRACKET] + Join(seq(|items|, i requires 0 <= i < |items| => Print(items[i], col))) + [RBRACKET]
    case Obj(fields) =>
      var es := Entries(fields, col);
      [LBRACE] + Join(seq(|es|, i requires 0 <= i < |es| =>
        EntryInFields(fields, col, i); Quote(es[i].name) + [COLON] + Print(es[i].value, col))) + [RBRACE]
  }

  /** `canonicalJson`; `None` is the thrown error. */
  ghost function CanonicalJson(v: Value, col: Collation): Option<Text> {
    if Printable(v) then Some(Print(v, col)) else None
  }

  // ---------------------------------------------------------------- what a value means

  /** A JSON value in the sense of RFC 8259: objects are unordered. */
  datatype Data = DNull | DBool(b: bool) | DNum(n: int) | DStr(s: Text) | DArr(items: seq<Data>) | DObj(members: map<Text, Data>)

  ghost function Denote(v: Value): Data
    requires Printable(v)
    decreases v, 1, 0
  {
    match v
    case Null => DNull
    case Bool(b) => DBool(b)
    case Num(n) => DNum(n)
    case Str(s) => DStr(s)
    case Arr(items) => DArr(seq(|items|, i requires 0 <= i < |items| => Denote(items[i])))
    case Obj(fields) => DObj(Members(v, |fields|))
  }

  /** The members given by the first `n` fields of an object. */
  ghost function Members(v: Value, n: nat): map<Text, Data>
    requires Printable(v) && v.Obj? && n <= |v.fields|
    decreases v, 0, n
  {
    if n == 0 then map[]
    else
      var f := v.fields[n - 1];
      if IsDefined(f) then Members(v, n - 1)[f.name := Denote(f.value)] else Members(v, n - 1)
  }

  /** The value with undefined fields dropped and entries in print order, at every level. */
  function Normal(v: Value, col: Collation): Value
    requires Printable(v)
  {
    match v
    case Arr(items) => Arr(seq(|items|, i requires 0 <= i < |items| => Normal(items[i], col)))
    case Obj(fields) =>
      var es := Entries(fields, col);
      Obj(seq(|es|, i requires 0 <= i < |es| =>
        EntryInFields(fields, col, i); Field(es[i].name, Normal(es[i].value, col))))
    case _ => v
  }
}
