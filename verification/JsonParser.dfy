/** A parser for RFC 8259 texts with integer numbers and no insignificant white space, and the proof
    that it undoes the canonical printer. */
module JsonParser {
  import opened Options
  import opened CanonicalJson

  function HexValue(c: Unit): Option<int> {
    if 48 <= c < 58 then Some(c - 48)
    else if 97 <= c < 103 then Some(c - 87)
    else if 65 <= c < 71 then Some(c - 55)
    else None
  }

  function FourHex(t: Text): Option<Unit> {
    if |t| < 4 then None else
    match (HexValue(t[0]), HexValue(t[1]), HexValue(t[2]), HexValue(t[3]))
    case (Some(a), Some(b), Some(c), Some(d)) =>
      var n := 4096 * a + 256 * b + 16 * c + d;
      if 0 <= n < 0x1_0000 then Some(n) else None
    case _ => None
  }

  /** The unit that a backslash and this letter stand for (section 7 of RFC 8259). */
  function Unescape(letter: Unit): Option<Unit> {
    if letter == QUOTE || letter == BACKSLASH || letter == 47 then Some(letter)
    else if letter == 98 then Some(8)
    else if letter == 102 then Some(12)
    else if letter == 110 then Some(10)
    else if letter == 114 then Some(13)
    else if letter == 116 then Some(9)
    else None
  }

  /** The characters up to the closing quote, and the text after it. */
  function ParseChars(t: Text): (r: Option<(Text, Text)>)
    ensures r.Some? ==> |r.value.1| < |t|
    decreases |t|
  {
    if t == [] || t[0] < 32 then None
    else if t[0] == QUOTE then Some(([], t[1..]))
    else if t[0] == BACKSLASH then
      if |t| < 2 then None
      else if t[1] == 117 then
        match FourHex(t[2..])
        case None => None
        case Some(c) => Prepend(c, ParseChars(t[6..]))
      else
        match Unescape(t[1])
        case None => None
        case Some(c) => Prepend(c, ParseChars(t[2..]))
    else Prepend(t[0], ParseChars(t[1..]))
  }

  function Prepend(c: Unit, r: Option<(Text, Text)>): Option<(Text, Text)> {
    match r
    case None => None
    case Some((s, rest)) => Some(([c] + s, rest))
  }

  predicate IsDigit(c: Unit) { 48 <= c < 58 }

  function SpanDigits(t: Text): nat {
    if t != [] && IsDigit(t[0]) then 1 + SpanDigits(t[1..]) else 0
  }

  lemma SpanFits(t: Text)
    ensures SpanDigits(t) <= |t|
    ensures forall i :: 0 <= i < SpanDigits(t) ==> IsDigit(t[i])
  {
  }

  function DigitsValue(t: Text): int {
    if t == [] then 0 else 10 * DigitsValue(t[..|t| - 1]) + (t[|t| - 1] as int - 48)
  }

  /** Digits without a leading zero (section 6 of RFC 8259). */
  function ParseDigits(t: Text): Option<(int, Text)> {
    SpanFits(t);
    var k := SpanDigits(t);
    if k == 0 || (k > 1 && t[0] == 48) then None else Some((DigitsValue(t[..k]), t[k..]))
  }

  function ParseNumber(t: Text): (r: Option<(Value, Text)>)
    ensures r.Some? ==> |r.value.1| < |t|
  {
    SpanFits(t);
    if t != [] && t[0] == MINUS then
      SpanFits(t[1..]);
      match ParseDigits(t[1..])
      case None => None
      case Some((n, rest)) => Some((Num(-n), rest))
    else
      match ParseDigits(t)
      case None => None
      case Some((n, rest)) => Some((Num(n), rest))
  }

  function ParseValue(t: Text): (r: Option<(Value, Text)>)
    ensures r.Some? ==> |r.value.1| < |t|
    decreases |t|, 1
  {
    if t == [] then None
    else if t[0] == QUOTE then
      match ParseChars(t[1..])
      case None => None
      case Some((s, rest)) => Some((Str(s), rest))
    else if t[0] == LBRACKET then
      if |t| > 1 && t[1] == RBRACKET then Some((Arr([]), t[2..]))
      else
        match ParseItems(t[1..])
        case None => None
        case Some((items, rest)) => Some((Arr(items), rest))
    else if t[0] == LBRACE then
      if |t| > 1 && t[1] == RBRACE then Some((Obj([]), t[2..]))
      else
        match ParseMembers(t[1..])
        case None => None
        case Some((fields, rest)) => Some((Obj(fields), rest))
    else if NULL <= t then Some((Null, t[4..]))
    else if TRUE <= t then Some((Bool(true), t[4..]))
    else if FALSE <= t then Some((Bool(false), t[5..]))
    else ParseNumber(t)
  }

  /** Array elements up to the closing bracket. */
  function ParseItems(t: Text): (r: Option<(seq<Value>, Text)>)
    ensures r.Some? ==> |r.value.1| < |t|
    decreases |t|, 2
  {
    match ParseValue(t)
    case None => None
    case Some((v, rest)) =>
      if rest == [] then None
      else if rest[0] == RBRACKET then Some(([v], rest[1..]))
      else if rest[0] == COMMA then
        match ParseItems(rest[1..])
        case None => None
        case Some((vs, rest')) => Some(([v] + vs, rest'))
      else None
  }

  /** Object members up to the closing brace. */
  function ParseMembers(t: Text): (r: Option<(seq<Field>, Text)>)
    ensures r.Some? ==> |r.value.1| < |t|
    decreases |t|, 2
  {
    if t == [] || t[0] != QUOTE then None else
    match ParseChars(t[1..])
    case None => None
    case Some((name, rest)) => ParseNamed(name, rest)
  }

  /** The rest of the members, after the name of the first one. */
  function ParseNamed(name: Text, t: Text): (r: Option<(seq<Field>, Text)>)
    ensures r.Some? ==> |r.value.1| < |t|
    decreases |t|, 2
  {
    if t == [] || t[0] != COLON then None else
    match ParseValue(t[1..])
    case None => None
    case Some((v, rest)) =>
      if rest == [] then None
      else if rest[0] == RBRACE then Some(([Field(name, v)], rest[1..]))
      else if rest[0] == COMMA then
        match ParseMembers(rest[1..])
        case None => None
        case Some((fs, rest')) => Some(([Field(name, v)] + fs, rest'))
      else None
  }

  /** The value of a complete text. */
  function Parse(t: Text): Option<Value> {
    match ParseValue(t)
    case Some((v, rest)) => if rest == [] then Some(v) else None
    case None => None
  }

  // ---------------------------------------------------------------- strings

  lemma HexInverse(d: int)
    requires 0 <= d < 16
    ensures HexValue(HexDigit(d)) == Some(d)
  {
  }

  lemma PlainStep(c: Unit, t: Text)
    requires c >= 32 && c != QUOTE && c != BACKSLASH
    ensures ParseChars([c] + t) == Prepend(c, ParseChars(t))
  {
    assert ([c] + t)[1..] == t;
  }

  lemma ShortInverse(c: Unit)
    requires ShortEscape(c).Some?
    ensures Unescape(ShortEscape(c).value) == Some(c) && ShortEscape(c).value != 117
  {
  }

  lemma ShortStep(c: Unit, t: Text)
    requires ShortEscape(c).Some?
    ensures ParseChars([BACKSLASH, ShortEscape(c).value] + t) == Prepend(c, ParseChars(t))
  {
    ShortInverse(c);
    hide ShortEscape, Unescape;
    assert ([BACKSLASH, ShortEscape(c).value] + t)[2..] == t;
  }

  lemma UnicodeStep(c: Unit, t: Text)
    ensures ParseChars(UnicodeEscape(c) + t) == Prepend(c, ParseChars(t))
  {
    var u := UnicodeEscape(c) + t;
    assert u[0] == BACKSLASH && u[1] == 117 && u[6..] == t;
    var h := u[2..];
    HexInverse(c / 16 / 16 / 16); HexInverse(c / 16 / 16 % 16); HexInverse(c / 16 % 16); HexInverse(c % 16);
    hide HexDigit, HexValue;
    assert FourHex(h) == Some(c);
  }

  lemma HeadStep(s: Text, t: Text, s': Text, rest: Text)
    requires s != [] && ParseChars(t) == Some((s', rest))
    ensures ParseChars(EscapeHead(s) + t) == Some((s[..HeadLength(s)] + s', rest))
  {
    hide ParseChars, UnicodeEscape;
    if ShortEscape(s[0]).Some? {
      ShortStep(s[0], t);
      assert s[..1] == [s[0]];
    } else if HeadLength(s) == 2 {
      PlainStep(s[1], t);
      PlainStep(s[0], [s[1]] + t);
      assert s[..2] + t == [s[0]] + ([s[1]] + t);
      assert s[..2] + s' == [s[0]] + ([s[1]] + s');
    } else if s[0] < 32 || IsHigh(s[0]) || IsLow(s[0]) {
      UnicodeStep(s[0], t);
      assert s[..1] == [s[0]];
    } else {
      PlainStep(s[0], t);
      assert s[..1] == [s[0]];
    }
  }

  lemma {:induction false} CharsRoundTrip(s: Text, rest: Text)
    ensures ParseChars(Escape(s) + [QUOTE] + rest) == Some((s, rest))
    decreases |s|
  {
    hide EscapeHead;
    var t := Escape(s) + [QUOTE] + rest;
    if s == [] {
      assert t[1..] == rest;
    } else {
      var n := HeadLength(s);
      var tail := Escape(s[n..]) + [QUOTE] + rest;
      CharsRoundTrip(s[n..], rest);
      HeadStep(s, tail, s[n..], rest);
      assert t == EscapeHead(s) + tail && s[..n] + s[n..] == s;
    }
  }

  // ---------------------------------------------------------------- numbers

  /** Texts that may follow a value inside a canonical text. */
  predicate Ends(rest: Text) {
    rest == [] || rest[0] == COMMA || rest[0] == RBRACKET || rest[0] == RBRACE
  }

  lemma {:induction false} DigitsShape(n: nat)
    ensures Digits(n) != [] && forall i :: 0 <= i < |Digits(n)| ==> IsDigit(Digits(n)[i])
    ensures n > 0 ==> Digits(n)[0] != 48
    ensures |Digits(n)| > 1 ==> n > 0
    ensures DigitsValue(Digits(n)) == n
  {
    if n >= 10 {
      DigitsShape(n / 10);
      var d := Digits(n);
      assert d[..|d| - 1] == Digits(n / 10);
    } else {
      assert Digits(n)[..0] == [];
      assert DigitsValue([]) == 0;
    }
  }

  lemma {:induction false} SpanExact(d: Text, rest: Text)
    requires forall i :: 0 <= i < |d| ==> IsDigit(d[i])
    requires Ends(rest)
    ensures SpanDigits(d + rest) == |d|
  {
    if d == [] {
      assert d + rest == rest;
    } else {
      SpanExact(d[1..], rest);
      assert (d + rest)[1..] == d[1..] + rest;
    }
  }

  lemma DigitsRoundTrip(n: nat, rest: Text)
    requires Ends(rest)
    ensures ParseDigits(Digits(n) + rest) == Some((n, rest))
  {
    DigitsShape(n);
    SpanExact(Digits(n), rest);
    var t := Digits(n) + rest;
    assert t[..|Digits(n)|] == Digits(n) && t[|Digits(n)|..] == rest;
  }

  /** A text that starts like a number is parsed as a number. */
  lemma StartsNumber(t: Text)
    requires t != [] && (t[0] == MINUS || IsDigit(t[0]))
    ensures ParseValue(t) == ParseNumber(t)
  {
    assert NULL[0] == 110 && TRUE[0] == 116 && FALSE[0] == 102;
    assert !(NULL <= t) && !(TRUE <= t) && !(FALSE <= t);
  }

  lemma StartsText(t: Text, s: Text, rest: Text)
    requires t != [] && t[0] == QUOTE && ParseChars(t[1..]) == Some((s, rest))
    ensures ParseValue(t) == Some((Str(s), rest))
  {
  }

  lemma NumberText(t: Text, d: Text, n: int, rest: Text)
    requires ParseDigits(d) == Some((n, rest))
    requires (t == d && d != [] && IsDigit(d[0])) || t == [MINUS] + d
    ensures ParseValue(t) == Some((Num(if t == d then n else -n), rest))
  {
    StartsNumber(t);
    hide ParseValue, ParseDigits;
    assert t == [MINUS] + d ==> t[1..] == d;
  }

  lemma NumberRoundTrip(n: int, rest: Text)
    requires Ends(rest)
    ensures ParseValue(Number(n) + rest) == Some((Num(n), rest))
  {
    var m := if n < 0 then -n else n;
    StartsDigit(n);
    DigitsRoundTrip(m, rest);
    hide ParseValue, ParseDigits, Digits, IsDigit;
    if n < 0 {
      assert Number(n) + rest == [MINUS] + (Digits(m) + rest);
      NumberText([MINUS] + (Digits(m) + rest), Digits(m) + rest, m, rest);
    } else {
      NumberText(Digits(m) + rest, Digits(m) + rest, m, rest);
    }
  }

  lemma StartsDigit(n: int)
    ensures Number(n) != [] && (Number(n)[0] == MINUS <==> n < 0) && (n >= 0 ==> IsDigit(Number(n)[0]))
  {
    if n >= 0 { DigitsShape(n); }
  }

  // ---------------------------------------------------------------- lists

  ghost predicate Parses(t: Text, v: Value) {
    forall rest :: Ends(rest) ==> ParseValue(t + rest) == Some((v, rest))
  }

  /** Parsing one element leaves what follows it. */
  lemma ItemHead(t: Text, v: Value, after: Text)
    requires Parses(t, v) && Ends(after) && after != []
    ensures ParseItems(t + after) ==
        if after[0] == RBRACKET then Some(([v], after[1..]))
        else if after[0] == COMMA then
          match ParseItems(after[1..])
          case None => None
          case Some((vs, rest)) => Some(([v] + vs, rest))
        else None
  {
    assert ParseValue(t + after) == Some((v, after));
    hide ParseValue;
  }

  lemma {:induction false} ItemsRoundTrip(ts: seq<Text>, vs: seq<Value>, rest: Text)
    requires |ts| == |vs| > 0 && forall i :: 0 <= i < |ts| ==> Parses(ts[i], vs[i])
    ensures ParseItems(Join(ts) + [RBRACKET] + rest) == Some((vs, rest))
  {
    hide ParseItems, Parses;
    var t := Join(ts) + [RBRACKET] + rest;
    if |ts| == 1 {
      var after := [RBRACKET] + rest;
      ItemHead(ts[0], vs[0], after);
      assert t == ts[0] + after && after[1..] == rest && vs == [vs[0]];
    } else {
      var tail := Join(ts[1..]) + [RBRACKET] + rest;
      ItemsRoundTrip(ts[1..], vs[1..], rest);
      var after := [COMMA] + tail;
      assert after[1..] == tail;
      ItemHead(ts[0], vs[0], after);
      assert t == ts[0] + after && vs == [vs[0]] + vs[1..];
    }
  }

  function Member(name: Text, t: Text): Text { Quote(name) + [COLON] + t }

  /** Parsing one member leaves what follows its value. */
  lemma NameStep(name: Text, body: Text)
    ensures ParseMembers(Quote(name) + body) == ParseNamed(name, body)
  {
    hide ParseChars, ParseNamed, Escape;
    var u := Quote(name) + body;
    CharsRoundTrip(name, body);
    assert u[0] == QUOTE && u[1..] == Escape(name) + [QUOTE] + body;
  }

  lemma MemberHead(name: Text, t: Text, v: Value, after: Text)
    requires Parses(t, v) && Ends(after) && after != []
    ensures var u := Member(name, t) + after;
      ParseMembers(u) ==
        if after[0] == RBRACE then Some(([Field(name, v)], after[1..]))
        else if after[0] == COMMA then
          match ParseMembers(after[1..])
          case None => None
          case Some((fs, rest)) => Some(([Field(name, v)] + fs, rest))
        else None
  {
    var u := Member(name, t) + after;
    var body := [COLON] + (t + after);
    assert ParseValue(t + after) == Some((v, after));
    assert u == Quote(name) + body;
    hide ParseMembers, ParseValue, Quote, Parses;
    NameStep(name, body);
    assert body[0] == COLON && body[1..] == t + after;
  }

  lemma {:induction false} MembersRoundTrip(fs: seq<Field>, ts: seq<Text>, rest: Text)
    requires |ts| == |fs| > 0
    requires forall i :: 0 <= i < |ts| ==> Parses(ts[i], fs[i].value)
    ensures ParseMembers(Join(seq(|fs|, i requires 0 <= i < |fs| => Member(fs[i].name, ts[i]))) + [RBRACE] + rest) == Some((fs, rest))
    decreases |fs|
  {
    hide ParseMembers, Member, Parses;
    var ms := seq(|fs|, i requires 0 <= i < |fs| => Member(fs[i].name, ts[i]));
    var t := Join(ms) + [RBRACE] + rest;
    if |fs| == 1 {
      var after := [RBRACE] + rest;
      MemberHead(fs[0].name, ts[0], fs[0].value, after);
      assert t == ms[0] + after && after[1..] == rest && fs == [fs[0]];
    } else {
      var fs', ts' := fs[1..], ts[1..];
      var ms' := seq(|fs'|, i requires 0 <= i < |fs'| => Member(fs'[i].name, ts'[i]));
      MembersRoundTrip(fs', ts', rest);
      var tail := Join(ms') + [RBRACE] + rest;
      var after := [COMMA] + tail;
      assert after[1..] == tail;
      MemberHead(fs[0].name, ts[0], fs[0].value, after);
      assert ms[1..] == ms';
      assert t == ms[0] + after && fs == [fs[0]] + fs';
    }
  }

  lemma {:induction false} JoinStarts(ts: seq<Text>)
    requires ts != [] && ts[0] != []
    ensures Join(ts) != [] && Join(ts)[0] == ts[0][0]
  {
  }

  // ---------------------------------------------------------------- values

  lemma LiteralRoundTrip(t: Text, v: Value)
    requires (t == NULL && v == Null) || (t == TRUE && v == Bool(true)) || (t == FALSE && v == Bool(false))
    ensures Parses(t, v)
  {
    forall rest | Ends(rest) ensures ParseValue(t + rest) == Some((v, rest)) {
      var u := t + rest;
      assert t <= u && u[0] == t[0] && u[|t|..] == rest;
    }
  }

  lemma TextRoundTrip(s: Text)
    ensures Parses(Quote(s), Str(s))
  {
    hide ParseValue, ParseChars, Escape;
    forall rest | Ends(rest) ensures ParseValue(Quote(s) + rest) == Some((Str(s), rest)) {
      CharsRoundTrip(s, rest);
      assert (Quote(s) + rest)[1..] == Escape(s) + [QUOTE] + rest;
      StartsText(Quote(s) + rest, s, rest);
    }
  }

  lemma StartsValue(v: Value, col: Collation)
    requires Printable(v)
    ensures Print(v, col) != [] && Print(v, col)[0] != RBRACKET
  {
    if v.Num? && v.n >= 0 { DigitsShape(v.n); }
  }

  /** The parser undoes the printer: what comes back is the value in print order. */
  lemma {:induction false} RoundTrip(v: Value, col: Collation)
    requires Printable(v)
    ensures Parses(Print(v, col), Normal(v, col))
    decreases v
  {
    match v
    case Null => LiteralRoundTrip(NULL, v);
    case Bool(b) => LiteralRoundTrip(if b then TRUE else FALSE, v);
    case Num(n) => forall rest | Ends(rest) { NumberRoundTrip(n, rest); }
    case Str(s) => TextRoundTrip(s);
    case Arr(items) => ArrayRoundTrip(v, col);
    case Obj(fields) => ObjectRoundTrip(v, col);
  }

  lemma {:induction false} ArrayRoundTrip(v: Value, col: Collation)
    requires Printable(v) && v.Arr?
    ensures Parses(Print(v, col), Normal(v, col))
    decreases v, 0
  {
    var items := v.items;
    var ts := seq(|items|, i requires 0 <= i < |items| => Print(items[i], col));
    var vs := seq(|items|, i requires 0 <= i < |items| => Normal(items[i], col));
    forall i | 0 <= i < |items| ensures Parses(ts[i], vs[i]) { RoundTrip(items[i], col); }
    if items != [] { StartsValue(items[0], col); }
    assert Print(v, col) == [LBRACKET] + Join(ts) + [RBRACKET] && Normal(v, col) == Arr(vs);
    hide Print, Normal;
    forall rest | Ends(rest) ensures ParseValue(Print(v, col) + rest) == Some((Normal(v, col), rest)) {
      ArrayText(vs, ts, rest);
    }
  }

  lemma ArrayText(vs: seq<Value>, ts: seq<Text>, rest: Text)
    requires |ts| == |vs| && forall i :: 0 <= i < |ts| ==> Parses(ts[i], vs[i])
    requires ts != [] ==> ts[0] != [] && ts[0][0] != RBRACKET
    ensures ParseValue([LBRACKET] + Join(ts) + [RBRACKET] + rest) == Some((Arr(vs), rest))
  {
    var t := [LBRACKET] + Join(ts) + [RBRACKET] + rest;
    assert t[1..] == Join(ts) + [RBRACKET] + rest;
    if vs == [] {
      assert t[2..] == rest;
    } else {
      ItemsRoundTrip(ts, vs, rest);
      JoinStarts(ts);
      assert t[1] == Join(ts)[0];
      hide ParseItems;
    }
  }

  lemma {:induction false} ObjectRoundTrip(v: Value, col: Collation)
    requires Printable(v) && v.Obj?
    ensures Parses(Print(v, col), Normal(v, col))
    decreases v, 0
  {
    var es := Entries(v.fields, col);
    var ts := seq(|es|, i requires 0 <= i < |es| => Print(es[i].value, col));
    var fs := seq(|es|, i requires 0 <= i < |es| => Field(es[i].name, Normal(es[i].value, col)));
    forall i | 0 <= i < |es| ensures Parses(ts[i], fs[i].value) {
      assert es[i] in v.fields;
      RoundTrip(es[i].value, col);
    }
    var ms := seq(|fs|, i requires 0 <= i < |fs| => Member(fs[i].name, ts[i]));
    assert ms == seq(|es|, i requires 0 <= i < |es| => Quote(es[i].name) + [COLON] + Print(es[i].value, col));
    assert Print(v, col) == [LBRACE] + Join(ms) + [RBRACE];
    assert Normal(v, col) == Obj(fs);
    hide Print, Normal;
    forall rest | Ends(rest) ensures ParseValue(Print(v, col) + rest) == Some((Normal(v, col), rest)) {
      ObjectText(fs, ts, rest);
    }
  }

  lemma ObjectText(fs: seq<Field>, ts: seq<Text>, rest: Text)
    requires |ts| == |fs| && forall i :: 0 <= i < |ts| ==> Parses(ts[i], fs[i].value)
    ensures var ms := seq(|fs|, i requires 0 <= i < |fs| => Member(fs[i].name, ts[i]));
      ParseValue([LBRACE] + Join(ms) + [RBRACE] + rest) == Some((Obj(fs), rest))
  {
    var ms := seq(|fs|, i requires 0 <= i < |fs| => Member(fs[i].name, ts[i]));
    var t := [LBRACE] + Join(ms) + [RBRACE] + rest;
    assert t[1..] == Join(ms) + [RBRACE] + rest;
    if fs == [] {
      assert t[2..] == rest;
    } else {
      MembersRoundTrip(fs, ts, rest);
      JoinStarts(ms);
      assert t[1] == Join(ms)[0] == QUOTE;
      hide ParseMembers;
    }
  }

  lemma ParseUndoesPrint(v: Value, col: Collation)
    requires Printable(v)
    ensures Parse(Print(v, col)) == Some(Normal(v, col))
  {
    RoundTrip(v, col);
    assert Print(v, col) + [] == Print(v, col);
    assert Ends([]);
  }
}
