/** A small JSON: the compact text `json.dumps` writes, a reader for it, and why a record cut short, or
    glued to another one, never reads. */
module Json {
  import opened Seqs
  import opened Wrappers

  /** A UTF-16 code unit; an escaped astral character is two of them. */
  type Unit = n: nat | n < 0x1_0000

  type Text = seq<Unit>

  /** A JSON value.  A number is the literal it is written as. */
  datatype Value =
    | Null | True | False | Number(literal: string) | Str(text: Text) | Arr(items: Items) | Obj(fields: Fields)

  datatype Items = NoItems | Item(head: Value, tail: Items)

  datatype Fields = NoFields | Field(key: Text, value: Value, rest: Fields)

  // ----- writing: every function puts its text in front of what follows

  function Hex(n: nat): char
    requires n < 16
  {
    "0123456789abcdef"[n]
  }

  function Digits(u: Unit): string { [Hex(u / 0x1000), Hex(u / 0x100 % 0x10), Hex(u / 0x10 % 0x10), Hex(u % 0x10)] }

  /** The letter of a two-character escape. */
  function Letter(u: Unit): Option<char> {
    if u == 34 then Some('"') else if u == 92 then Some('\\')
    else if u == 8 then Some('b') else if u == 9 then Some('t') else if u == 10 then Some('n')
    else if u == 12 then Some('f') else if u == 13 then Some('r')
    else None
  }

  function WriteUnit(u: Unit, k: string): string {
    if Letter(u).Some? then ['\\', Letter(u).value] + k
    else if 32 <= u <= 126 then [u as char] + k
    else ['\\', 'u'] + (Digits(u) + k)
  }

  function WriteUnits(us: Text, k: string): string {
    if us == [] then k else WriteUnit(us[0], WriteUnits(us[1..], k))
  }

  function WriteText(us: Text, k: string): string { ['"'] + WriteUnits(us, ['"'] + k) }

  function Write(v: Value, k: string): string
    decreases v
  {
    match v
    case Null => "null" + k
    case True => "true" + k
    case False => "false" + k
    case Number(l) => l + k
    case Str(us) => WriteText(us, k)
    case Arr(NoItems) => "[]" + k
    case Arr(Item(head, tail)) => ['['] + Write(head, WriteItems(tail, k))
    case Obj(NoFields) => "{}" + k
    case Obj(fields) => ['{'] + WriteField(fields, k)
  }

  function WriteItems(items: Items, k: string): string
    decreases items
  {
    match items
    case NoItems => [']'] + k
    case Item(head, tail) => [','] + Write(head, WriteItems(tail, k))
  }

  /** A field and those behind it. */
  function WriteField(fields: Fields, k: string): string
    requires fields.Field?
    decreases fields, 0
  {
    WriteText(fields.key, [':'] + Write(fields.value, WriteFields(fields.rest, k)))
  }

  function WriteFields(fields: Fields, k: string): string
    decreases fields, 1
  {
    if fields.NoFields? then ['}'] + k else [','] + WriteField(fields, k)
  }

  function Encode(v: Value): string { Write(v, "") }

  // ----- reading

  predicate Space(c: char) { c == ' ' || c == '\t' || c == '\n' || c == '\r' }

  predicate NumberChar(c: char) { '0' <= c <= '9' || c == '-' || c == '+' || c == '.' || c == 'e' || c == 'E' }

  function Skip(t: string): (r: string)
    ensures |r| <= |t|
  {
    if t != "" && Space(t[0]) then Skip(t[1..]) else t
  }

  function Digit(c: char): Option<nat> {
    if '0' <= c <= '9' then Some(c as nat - '0' as nat)
    else if 'a' <= c <= 'f' then Some(c as nat - 'a' as nat + 10)
    else if 'A' <= c <= 'F' then Some(c as nat - 'A' as nat + 10)
    else None
  }

  function LetterUnit(c: char): Option<Unit> {
    if c == '"' then Some(34) else if c == '\\' then Some(92) else if c == '/' then Some(47)
    else if c == 'b' then Some(8) else if c == 't' then Some(9) else if c == 'n' then Some(10)
    else if c == 'f' then Some(12) else if c == 'r' then Some(13)
    else None
  }

  /** The four digits behind `\u`. */
  function ReadHex(t: string): (r: Option<Unit>)
    ensures r.Some? ==> |t| >= 4 && forall i :: 0 <= i < 4 ==> Digit(t[i]).Some?
  {
    if |t| < 4 || Digit(t[0]).None? || Digit(t[1]).None? || Digit(t[2]).None? || Digit(t[3]).None? then None
    else Some(((Digit(t[0]).value * 16 + Digit(t[1]).value) * 16 + Digit(t[2]).value) * 16 + Digit(t[3]).value)
  }

  /** One unit of a string, and what follows. */
  function ReadUnit(t: string): (r: Option<(Unit, string)>)
    ensures r.Some? ==> |r.value.1| < |t|
  {
    if t == "" || t[0] < ' ' || t[0] == '"' then None
    else if t[0] != '\\' then if t[0] as int < 0x1_0000 then Some((t[0] as int, t[1..])) else None
    else if |t| < 2 then None
    else if t[1] == 'u' then if ReadHex(t[2..]).Some? then Some((ReadHex(t[2..]).value, t[6..])) else None
    else if LetterUnit(t[1]).Some? then Some((LetterUnit(t[1]).value, t[2..]))
    else None
  }

  /** The rest of a string, from behind its opening quote. */
  function ReadUnits(t: string): (r: Option<(Text, string)>)
    ensures r.Some? ==> |r.value.1| < |t|
  {
    if t == "" then None
    else if t[0] == '"' then Some(([], t[1..]))
    else
      match ReadUnit(t)
      case None => None
      case Some((u, rest)) =>
        match ReadUnits(rest)
        case None => None
        case Some((us, rest2)) => Some(([u] + us, rest2))
  }

  function NumberLength(t: string): (n: nat)
    ensures n <= |t|
  {
    if t != "" && NumberChar(t[0]) then 1 + NumberLength(t[1..]) else 0
  }

  function Read(t: string): (r: Option<(Value, string)>)
    ensures r.Some? ==> |r.value.1| < |t|
    decreases |t|, 1
  {
    var s := Skip(t);
    if s == "" then None
    else if s[0] == '"' then
      match ReadUnits(s[1..])
      case None => None
      case Some((us, rest)) => Some((Str(us), rest))
    else if s[0] == '[' then ReadArray(Skip(s[1..]))
    else if s[0] == '{' then ReadObject(Skip(s[1..]))
    else if "null" <= s then Some((Null, s[4..]))
    else if "true" <= s then Some((True, s[4..]))
    else if "false" <= s then Some((False, s[5..]))
    else if NumberLength(s) > 0 then Some((Number(s[..NumberLength(s)]), s[NumberLength(s)..]))
    else None
  }

  function ReadArray(t: string): (r: Option<(Value, string)>)
    ensures r.Some? ==> |r.value.1| < |t|
    decreases |t|, 2
  {
    if t != "" && t[0] == ']' then Some((Arr(NoItems), t[1..]))
    else
      match Read(t)
      case None => None
      case Some((v, rest)) =>
        match ReadItems(Skip(rest))
        case None => None
        case Some((vs, rest2)) => Some((Arr(Item(v, vs)), rest2))
  }

  function ReadItems(t: string): (r: Option<(Items, string)>)
    ensures r.Some? ==> |r.value.1| < |t|
    decreases |t|, 0
  {
    if t == "" then None
    else if t[0] == ']' then Some((NoItems, t[1..]))
    else if t[0] != ',' then None
    else
      match Read(t[1..])
      case None => None
      case Some((v, rest)) =>
        match ReadItems(Skip(rest))
        case None => None
        case Some((vs, rest2)) => Some((Item(v, vs), rest2))
  }

  function ReadObject(t: string): (r: Option<(Value, string)>)
    ensures r.Some? ==> |r.value.1| < |t|
    decreases |t|, 2
  {
    if t != "" && t[0] == '}' then Some((Obj(NoFields), t[1..]))
    else
      match ReadField(t)
      case None => None
      case Some((fs, rest)) => Some((Obj(fs), rest))
  }

  /** A field, from its opening quote on, and the fields behind it. */
  function ReadField(t: string): (r: Option<(Fields, string)>)
    ensures r.Some? ==> |r.value.1| < |t|
    decreases |t|, 1
  {
    if t == "" || t[0] != '"' then None
    else
      match ReadUnits(t[1..])
      case None => None
      case Some((key, rest)) =>
        var s := Skip(rest);
        if s == "" || s[0] != ':' then None
        else
          match Read(s[1..])
          case None => None
          case Some((v, rest2)) =>
            match ReadFields(Skip(rest2))
            case None => None
            case Some((fs, rest3)) => Some((Field(key, v, fs), rest3))
  }

  function ReadFields(t: string): (r: Option<(Fields, string)>)
    ensures r.Some? ==> |r.value.1| < |t|
    decreases |t|, 0
  {
    if t == "" then None
    else if t[0] == '}' then Some((NoFields, t[1..]))
    else if t[0] == ',' then ReadField(Skip(t[1..]))
    else None
  }

  /** `json.loads`: one value and nothing behind it. */
  function Decode(t: string): Option<Value> {
    match Read(t)
    case Some((v, rest)) => if Skip(rest) == "" then Some(v) else None
    case None => None
  }

  // ----- what is written reads back

  predicate Literal(l: string) { l != "" && forall i :: 0 <= i < |l| ==> NumberChar(l[i]) }

  /** Every number is spelled with number characters. */
  predicate Good(v: Value)
    decreases v
  {
    match v
    case Number(l) => Literal(l)
    case Arr(items) => GoodItems(items)
    case Obj(fields) => GoodFields(fields)
    case _ => true
  }

  predicate GoodItems(items: Items)
    decreases items
  {
    items.Item? ==> Good(items.head) && GoodItems(items.tail)
  }

  predicate GoodFields(fields: Fields)
    decreases fields
  {
    fields.Field? ==> Good(fields.value) && GoodFields(fields.rest)
  }

  /** A number before this text ends where it should. */
  predicate Ends(k: string) { k == "" || !NumberChar(k[0]) }

  lemma HexDigit(n: nat)
    requires n < 16
    ensures Digit(Hex(n)) == Some(n)
  {
  }

  lemma FourDigits(a: nat, b: nat, c: nat, d: nat, u: Unit)
    requires a == u / 0x1000 && b == u / 0x100 % 0x10 && c == u / 0x10 % 0x10 && d == u % 0x10
    ensures ((a * 16 + b) * 16 + c) * 16 + d == u
  {
    assert u / 0x10 == u / 0x100 * 16 + c;
    assert u / 0x100 == u / 0x1000 * 16 + b;
  }

  lemma DigitsRead(u: Unit, k: string)
    ensures ReadHex(Digits(u) + k) == Some(u)
  {
    HexDigit(u / 0x1000);
    HexDigit(u / 0x100 % 0x10);
    HexDigit(u / 0x10 % 0x10);
    HexDigit(u % 0x10);
    FourDigits(u / 0x1000, u / 0x100 % 0x10, u / 0x10 % 0x10, u % 0x10, u);
  }

  lemma EscapeReads(u: Unit, k: string)
    ensures ReadUnit(['\\', 'u'] + (Digits(u) + k)) == Some((u, k))
  {
    var t := ['\\', 'u'] + (Digits(u) + k);
    DigitsRead(u, k);
    assert t[2..] == Digits(u) + k && t[6..] == (Digits(u) + k)[4..] == k;
  }

  lemma UnitReads(u: Unit, k: string)
    ensures ReadUnit(WriteUnit(u, k)) == Some((u, k))
    ensures WriteUnit(u, k) != "" && WriteUnit(u, k)[0] != '"'
  {
    if Letter(u).None? && !(32 <= u <= 126) { EscapeReads(u, k); }
  }

  lemma {:induction false} UnitsRead(us: Text, k: string)
    ensures ReadUnits(WriteUnits(us, ['"'] + k)) == Some((us, k))
  {
    if us == [] {
      assert (['"'] + k)[1..] == k;
    } else {
      UnitReads(us[0], WriteUnits(us[1..], ['"'] + k));
      UnitsRead(us[1..], k);
      assert [us[0]] + us[1..] == us;
    }
  }

  lemma {:induction false} NumberReads(l: string, k: string)
    requires (forall i :: 0 <= i < |l| ==> NumberChar(l[i])) && Ends(k)
    ensures NumberLength(l + k) == |l|
  {
    if l == "" {
      assert l + k == k;
    } else {
      assert (l + k)[1..] == l[1..] + k;
      NumberReads(l[1..], k);
    }
  }

  lemma WordsRead(k: string)
    ensures Read("null" + k) == Some((Null, k)) && Read("true" + k) == Some((True, k))
    ensures Read("false" + k) == Some((False, k))
  {
    assert ("null" + k)[4..] == k && ("true" + k)[4..] == k && ("false" + k)[5..] == k;
  }

  lemma LiteralReads(l: string, k: string)
    requires Literal(l) && Ends(k)
    ensures Read(l + k) == Some((Number(l), k))
  {
    NumberReads(l, k);
    assert NumberChar((l + k)[0]);
    assert (l + k)[..|l|] == l && (l + k)[|l|..] == k;
  }

  lemma TextReads(us: Text, k: string)
    ensures Read(WriteText(us, k)) == Some((Str(us), k))
  {
    UnitsRead(us, k);
    assert WriteText(us, k)[1..] == WriteUnits(us, ['"'] + k);
  }

  /** No written value starts with a space or a closing bracket. */
  lemma WriteStarts(v: Value, k: string)
    requires Good(v)
    ensures Write(v, k) != "" && !Space(Write(v, k)[0]) && Write(v, k)[0] != ']' && Write(v, k)[0] != '}'
  {
    if v.Number? { assert NumberChar(v.literal[0]); }
  }

  lemma ItemsStart(items: Items, k: string)
    ensures var t := WriteItems(items, k); t != "" && Ends(t) && Skip(t) == t
  {
  }

  lemma FieldsStart(fields: Fields, k: string)
    ensures var t := WriteFields(fields, k); t != "" && Ends(t) && Skip(t) == t
  {
  }

  lemma {:induction false} WriteReads(v: Value, k: string)
    requires Good(v) && Ends(k)
    ensures Read(Write(v, k)) == Some((v, k))
    decreases v
  {
    match v
    case Null | True | False => WordsRead(k);
    case Number(l) => LiteralReads(l, k);
    case Str(us) => TextReads(us, k);
    case Arr(items) => ArrayReads(items, k);
    case Obj(fields) => ObjectReads(fields, k);
  }

  lemma {:induction false} ArrayReads(items: Items, k: string)
    requires GoodItems(items)
    ensures Read(Write(Arr(items), k)) == Some((Arr(items), k))
    decreases items, 1
  {
    match items
    case NoItems => assert Write(Arr(items), k)[1..] == [']'] + k;
    case Item(head, tail) =>
      var t := Write(head, WriteItems(tail, k));
      assert Write(Arr(items), k) == ['['] + t && Write(Arr(items), k)[1..] == t;
      WriteStarts(head, WriteItems(tail, k));
      ItemsStart(tail, k);
      WriteReads(head, WriteItems(tail, k));
      ItemsRead(tail, k);
  }

  lemma {:induction false} ItemsRead(items: Items, k: string)
    requires GoodItems(items)
    ensures ReadItems(WriteItems(items, k)) == Some((items, k))
    decreases items, 0
  {
    if items.Item? {
      ItemsStart(items.tail, k);
      WriteReads(items.head, WriteItems(items.tail, k));
      ItemsRead(items.tail, k);
    }
  }

  lemma {:induction false} ObjectReads(fields: Fields, k: string)
    requires GoodFields(fields)
    ensures Read(Write(Obj(fields), k)) == Some((Obj(fields), k))
    decreases fields, 2
  {
    if fields.NoFields? {
      assert Write(Obj(fields), k)[1..] == ['}'] + k;
    } else {
      var t := WriteField(fields, k);
      assert Write(Obj(fields), k) == ['{'] + t && Write(Obj(fields), k)[1..] == t;
      FieldReads(fields, k);
    }
  }

  lemma {:induction false} FieldReads(fields: Fields, k: string)
    requires fields.Field? && GoodFields(fields)
    ensures ReadField(WriteField(fields, k)) == Some((fields, k))
    decreases fields, 0
  {
    var t := Write(fields.value, WriteFields(fields.rest, k));
    var u := [':'] + t;
    UnitsRead(fields.key, u);
    assert WriteText(fields.key, u)[1..] == WriteUnits(fields.key, ['"'] + u);
    assert Skip(u) == u && u[1..] == t;
    FieldsStart(fields.rest, k);
    WriteReads(fields.value, WriteFields(fields.rest, k));
    FieldsRead(fields.rest, k);
  }

  lemma {:induction false} FieldsRead(fields: Fields, k: string)
    requires GoodFields(fields)
    ensures ReadFields(WriteFields(fields, k)) == Some((fields, k))
    decreases fields, 1
  {
    if fields.Field? {
      var t := WriteField(fields, k);
      assert WriteFields(fields, k) == [','] + t && WriteFields(fields, k)[1..] == t;
      FieldReads(fields, k);
    }
  }

  /** `loads` undoes `dumps`. */
  lemma RoundTrip(v: Value)
    requires Good(v)
    ensures Decode(Encode(v)) == Some(v)
  {
    WriteReads(v, "");
  }

  // ----- what reads is well spelled

  lemma {:induction false} NumberIsLiteral(t: string)
    ensures forall i :: 0 <= i < NumberLength(t) ==> NumberChar(t[i])
  {
    if t != "" && NumberChar(t[0]) { NumberIsLiteral(t[1..]); }
  }

  lemma {:induction false} ReadsGood(t: string)
    requires Read(t).Some?
    ensures Good(Read(t).value.0)
    decreases |t|, 1
  {
    var s := Skip(t);
    if s[0] == '"' {
    } else if s[0] == '[' {
      ReadsGoodArray(Skip(s[1..]));
    } else if s[0] == '{' {
      ReadsGoodObject(Skip(s[1..]));
    } else if !("null" <= s || "true" <= s || "false" <= s) {
      NumberIsLiteral(s);
    }
  }

  lemma {:induction false} ReadsGoodArray(t: string)
    requires ReadArray(t).Some?
    ensures Good(ReadArray(t).value.0)
    decreases |t|, 2
  {
    if t[0] != ']' {
      ReadsGood(t);
      ReadsGoodItems(Skip(Read(t).value.1));
    }
  }

  lemma {:induction false} ReadsGoodItems(t: string)
    requires ReadItems(t).Some?
    ensures GoodItems(ReadItems(t).value.0)
    decreases |t|, 0
  {
    if t[0] != ']' {
      ReadsGood(t[1..]);
      ReadsGoodItems(Skip(Read(t[1..]).value.1));
    }
  }

  lemma {:induction false} ReadsGoodObject(t: string)
    requires ReadObject(t).Some?
    ensures Good(ReadObject(t).value.0)
    decreases |t|, 2
  {
    if t[0] != '}' { ReadsGoodField(t); }
  }

  lemma {:induction false} ReadsGoodField(t: string)
    requires ReadField(t).Some?
    ensures GoodFields(ReadField(t).value.0)
    decreases |t|, 1
  {
    var s := Skip(ReadUnits(t[1..]).value.1);
    ReadsGood(s[1..]);
    ReadsGoodFields(Skip(Read(s[1..]).value.1));
  }

  lemma {:induction false} ReadsGoodFields(t: string)
    requires ReadFields(t).Some?
    ensures GoodFields(ReadFields(t).value.0)
    decreases |t|, 0
  {
    if t[0] == ',' { ReadsGoodField(Skip(t[1..])); }
  }

  /** `loads` undoes `dumps` for the well spelled values and no others. */
  lemma RoundTripIff(v: Value)
    ensures Decode(Encode(v)) == Some(v) <==> Good(v)
  {
    if Good(v) { RoundTrip(v); }
    if Decode(Encode(v)) == Some(v) { ReadsGood(Encode(v)); }
  }

  // ----- the characters the reader knows

  lemma NumberCharsAre(c: char)
    ensures NumberChar(c) <==> c in "0123456789+-.eE"
  {
    if '0' <= c <= '9' { assert "0123456789"[c as int - '0' as int] == c; }
  }

  /** A digit of either case is worth its place, and nothing else is a digit. */
  lemma HexDigitsAre(n: nat, c: char)
    requires n < 16
    ensures Digit("0123456789abcdef"[n]) == Some(n) && Digit("0123456789ABCDEF"[n]) == Some(n)
    ensures Digit(c).Some? ==>
              Digit(c).value < 16 && c in ["0123456789abcdef"[Digit(c).value], "0123456789ABCDEF"[Digit(c).value]]
  {
  }

  /** A backslash and one of these letters stand for these units, and no other letter reads but u. */
  lemma EscapesRead(n: nat, c: char, k: string)
    requires n < 8
    ensures ReadUnit(['\\', "\"\\/bfnrt"[n]] + k) == Some(([34, 92, 47, 8, 12, 10, 13, 9][n], k))
    ensures ReadUnit(['\\', c] + k).Some? ==> c in "\"\\/bfnrtu"
  {
    assert (['\\', "\"\\/bfnrt"[n]] + k)[2..] == k;
  }

  /** How a unit is written: seven have a letter, the other printable ones stand for themselves, and the rest
      are a u and four digits in lower case. */
  lemma UnitsAreWritten(n: nat, u: Unit, k: string)
    requires n < 7
    ensures WriteUnit([34, 92, 8, 9, 10, 12, 13][n], k) == ['\\', "\"\\btnfr"[n]] + k
    ensures u !in [34, 92, 8, 9, 10, 12, 13] && 32 <= u <= 126 ==> WriteUnit(u, k) == [u as char] + k
    ensures u !in [34, 92, 8, 9, 10, 12, 13] && !(32 <= u <= 126) ==>
              exists d :: WriteUnit(u, k) == ['\\', 'u'] + (d + k) && FourLower(d) && ReadHex(d) == Some(u)
  {
    if u !in [34, 92, 8, 9, 10, 12, 13] && !(32 <= u <= 126) {
      DigitsRead(u, "");
      assert Digits(u) + "" == Digits(u);
      assert WriteUnit(u, k) == ['\\', 'u'] + (Digits(u) + k) && FourLower(Digits(u));
    }
  }

  ghost predicate FourLower(d: string) { |d| == 4 && forall c :: c in d ==> c in "0123456789abcdef" }

  lemma SpacesAre(c: char)
    ensures Space(c) <==> c in " \t\n\r"
  {
  }

  /** What is skipped is the blanks in front. */
  lemma {:induction false} SkipMeans(t: string) returns (blanks: string)
    ensures t == blanks + Skip(t) && forall c :: c in blanks ==> c in " \t\n\r"
    ensures Skip(t) != "" ==> Skip(t)[0] !in " \t\n\r"
  {
    if t != "" { SpacesAre(t[0]); }
    if t != "" && Space(t[0]) {
      blanks := SkipMeans(t[1..]);
      assert t == [t[0]] + t[1..];
      blanks := [t[0]] + blanks;
    } else {
      blanks := "";
    }
  }

  /** A control character does not read inside a string. */
  lemma ControlNeverReads(t: string)
    requires t != "" && t[0] as int < 32
    ensures ReadUnit(t).None? && ReadUnits(t).None?
  {
  }

  // ----- depth and quotes

  /** Outside a string or inside one, at a bracket depth; behind a backslash; or past an error that no
      later text repairs. */
  datatype Scan = Out(depth: int) | In(depth: int) | Esc(depth: int) | Bad

  function Step(s: Scan, c: char): Scan {
    match s
    case Out(d) =>
      if c == '"' then In(d)
      else if c == '[' || c == '{' then Out(d + 1)
      else if c == ']' || c == '}' then Out(d - 1)
      else if c == '\\' then Bad
      else s
    case In(d) => if c == '"' then Out(d) else if c == '\\' then Esc(d) else s
    case Esc(d) => In(d)
    case Bad => Bad
  }

  function Scanned(s: Scan, t: string): Scan
    decreases |t|
  {
    if t == "" then s else Scanned(Step(s, t[0]), t[1..])
  }

  lemma {:induction false} ScanJoins(s: Scan, a: string, b: string)
    ensures Scanned(s, a + b) == Scanned(Scanned(s, a), b)
    decreases |a|
  {
    if a == "" {
      assert a + b == b;
    } else {
      assert (a + b)[1..] == a[1..] + b;
      ScanJoins(Step(s, a[0]), a[1..], b);
    }
  }

  /** A character that leaves the scan where it is, in a string and outside. */
  predicate Plain(c: char) { c !in {'"', '\\', '[', ']', '{', '}'} }

  lemma {:induction false} PlainScans(s: Scan, t: string, n: nat)
    requires n <= |t| && (s.Out? || s.In?) && forall i :: 0 <= i < n ==> Plain(t[i])
    ensures Scanned(s, t) == Scanned(s, t[n..])
  {
    if n > 0 {
      PlainScans(s, t[1..], n - 1);
      assert t[1..][n - 1..] == t[n..];
    }
  }

  // ----- what reads is balanced

  lemma {:induction false} SkipScans(d: int, t: string)
    ensures Scanned(Out(d), Skip(t)) == Scanned(Out(d), t)
  {
    if t != "" && Space(t[0]) { SkipScans(d, t[1..]); }
  }

  lemma {:induction false} NumberScans(d: int, t: string)
    ensures Scanned(Out(d), t) == Scanned(Out(d), t[NumberLength(t)..])
  {
    if t != "" && NumberChar(t[0]) {
      NumberScans(d, t[1..]);
      assert t[1..][NumberLength(t[1..])..] == t[NumberLength(t)..];
    }
  }

  lemma UnitScans(d: int, t: string)
    requires ReadUnit(t).Some?
    ensures Scanned(In(d), t) == Scanned(In(d), ReadUnit(t).value.1)
  {
    if t[0] == '\\' {
      assert Scanned(In(d), t) == Scanned(Esc(d), t[1..]) == Scanned(In(d), t[1..][1..]) && t[1..][1..] == t[2..];
      if t[1] == 'u' {
        PlainScans(In(d), t[2..], 4);
        assert t[2..][4..] == t[6..];
      }
    }
  }

  lemma {:induction false} UnitsScan(d: int, t: string)
    requires ReadUnits(t).Some?
    ensures Scanned(In(d), t) == Scanned(Out(d), ReadUnits(t).value.1)
    decreases |t|
  {
    if t[0] != '"' {
      UnitScans(d, t);
      UnitsScan(d, ReadUnit(t).value.1);
    }
  }

  lemma {:induction false} ReadScans(d: int, t: string)
    requires Read(t).Some?
    ensures Scanned(Out(d), t) == Scanned(Out(d), Read(t).value.1)
    decreases |t|, 1
  {
    var s := Skip(t);
    SkipScans(d, t);
    if s[0] == '"' {
      UnitsScan(d, s[1..]);
    } else if s[0] == '[' {
      SkipScans(d + 1, s[1..]);
      ArrayScans(d, Skip(s[1..]));
    } else if s[0] == '{' {
      SkipScans(d + 1, s[1..]);
      ObjectScans(d, Skip(s[1..]));
    } else if "null" <= s || "true" <= s {
      PlainScans(Out(d), s, 4);
    } else if "false" <= s {
      PlainScans(Out(d), s, 5);
    } else {
      NumberScans(d, s);
    }
  }

  lemma {:induction false} ArrayScans(d: int, t: string)
    requires ReadArray(t).Some?
    ensures Scanned(Out(d + 1), t) == Scanned(Out(d), ReadArray(t).value.1)
    decreases |t|, 2
  {
    if t[0] != ']' {
      ReadScans(d + 1, t);
      var rest := Read(t).value.1;
      SkipScans(d + 1, rest);
      ItemsScan(d, Skip(rest));
    }
  }

  lemma {:induction false} ItemsScan(d: int, t: string)
    requires ReadItems(t).Some?
    ensures Scanned(Out(d + 1), t) == Scanned(Out(d), ReadItems(t).value.1)
    decreases |t|, 0
  {
    if t[0] != ']' {
      ReadScans(d + 1, t[1..]);
      var rest := Read(t[1..]).value.1;
      SkipScans(d + 1, rest);
      ItemsScan(d, Skip(rest));
    }
  }

  lemma {:induction false} ObjectScans(d: int, t: string)
    requires ReadObject(t).Some?
    ensures Scanned(Out(d + 1), t) == Scanned(Out(d), ReadObject(t).value.1)
    decreases |t|, 2
  {
    if t[0] != '}' { FieldScans(d, t); }
  }

  lemma {:induction false} FieldScans(d: int, t: string)
    requires ReadField(t).Some?
    ensures Scanned(Out(d + 1), t) == Scanned(Out(d), ReadField(t).value.1)
    decreases |t|, 1
  {
    UnitsScan(d + 1, t[1..]);
    var rest := ReadUnits(t[1..]).value.1;
    SkipScans(d + 1, rest);
    var s := Skip(rest);
    ReadScans(d + 1, s[1..]);
    var rest2 := Read(s[1..]).value.1;
    SkipScans(d + 1, rest2);
    FieldsScan(d, Skip(rest2));
  }

  lemma {:induction false} FieldsScan(d: int, t: string)
    requires ReadFields(t).Some?
    ensures Scanned(Out(d + 1), t) == Scanned(Out(d), ReadFields(t).value.1)
    decreases |t|, 0
  {
    if t[0] == ',' {
      SkipScans(d + 1, t[1..]);
      FieldScans(d, Skip(t[1..]));
    }
  }

  /** A text that reads ends outside every string and bracket. */
  lemma DecodedIsBalanced(t: string)
    requires Decode(t).Some?
    ensures Scanned(Out(0), t) == Out(0)
  {
    ReadScans(0, t);
    SkipScans(0, Read(t).value.1);
  }

  // ----- what is written stays inside its brackets until the last character

  predicate Below(s: Scan, depth: int) { s.Out? && s.depth < depth }

  /** What follows the first character that takes the scan below a depth. */
  function AfterDip(depth: int, s: Scan, t: string): Option<string>
    decreases |t|
  {
    if Below(s, depth) then Some(t) else if t == "" then None else AfterDip(depth, Step(s, t[0]), t[1..])
  }

  lemma {:induction false} DipIsLast(s: Scan, t: string, n: nat)
    requires AfterDip(1, s, t) == Some("") && n < |t|
    ensures !Below(Scanned(s, t[..n]), 1)
    decreases n
  {
    if n > 0 {
      assert t[..n][0] == t[0] && t[..n][1..] == t[1..][..n - 1];
      DipIsLast(Step(s, t[0]), t[1..], n - 1);
    }
  }

  lemma {:induction false} PlainDips(s: Scan, t: string, k: string)
    requires ((s.Out? && s.depth >= 1) || s.In?) && forall i :: 0 <= i < |t| ==> Plain(t[i])
    ensures AfterDip(1, s, t + k) == AfterDip(1, s, k)
    decreases |t|
  {
    if t == "" {
      assert t + k == k;
    } else {
      assert (t + k)[1..] == t[1..] + k;
      PlainDips(s, t[1..], k);
    }
  }

  lemma HexIsPlain(n: nat)
    requires n < 16
    ensures Plain(Hex(n)) && ' ' <= Hex(n) <= '~'
  {
  }

  lemma DigitsArePlain(u: Unit)
    ensures forall i :: 0 <= i < |Digits(u)| ==> Plain(Digits(u)[i]) && ' ' <= Digits(u)[i] <= '~'
  {
    HexIsPlain(u / 0x1000);
    HexIsPlain(u / 0x100 % 0x10);
    HexIsPlain(u / 0x10 % 0x10);
    HexIsPlain(u % 0x10);
  }

  lemma DipStep(s: Scan, c: char, k: string)
    requires !Below(s, 1)
    ensures AfterDip(1, s, [c] + k) == AfterDip(1, Step(s, c), k)
  {
    assert ([c] + k)[1..] == k;
  }

  lemma EscapeDips(d: int, c: char, k: string)
    ensures AfterDip(1, In(d), ['\\'] + ([c] + k)) == AfterDip(1, In(d), k)
  {
    DipStep(In(d), '\\', [c] + k);
    DipStep(Esc(d), c, k);
  }

  lemma CodeDips(d: int, u: Unit, k: string)
    ensures AfterDip(1, In(d), ['\\', 'u'] + (Digits(u) + k)) == AfterDip(1, In(d), k)
  {
    var t := Digits(u) + k;
    assert ['\\', 'u'] + t == ['\\'] + (['u'] + t);
    EscapeDips(d, 'u', t);
    DigitsArePlain(u);
    PlainDips(In(d), Digits(u), k);
  }

  lemma LetterDips(d: int, c: char, k: string)
    ensures AfterDip(1, In(d), ['\\', c] + k) == AfterDip(1, In(d), k)
  {
    assert ['\\', c] + k == ['\\'] + ([c] + k);
    EscapeDips(d, c, k);
  }

  lemma UnitDips(d: int, u: Unit, k: string)
    ensures AfterDip(1, In(d), WriteUnit(u, k)) == AfterDip(1, In(d), k)
  {
    if Letter(u).Some? {
      LetterDips(d, Letter(u).value, k);
    } else if 32 <= u <= 126 {
      DipStep(In(d), u as char, k);
    } else {
      CodeDips(d, u, k);
    }
  }

  lemma {:induction false} UnitsDip(d: int, us: Text, k: string)
    requires d >= 1
    ensures AfterDip(1, In(d), WriteUnits(us, ['"'] + k)) == AfterDip(1, Out(d), k)
    decreases |us|
  {
    if us == [] {
      DipStep(In(d), '"', k);
    } else {
      UnitDips(d, us[0], WriteUnits(us[1..], ['"'] + k));
      UnitsDip(d, us[1..], k);
    }
  }

  lemma TextDips(d: int, us: Text, k: string)
    requires d >= 1
    ensures AfterDip(1, Out(d), WriteText(us, k)) == AfterDip(1, Out(d), k)
  {
    DipStep(Out(d), '"', WriteUnits(us, ['"'] + k));
    UnitsDip(d, us, k);
  }

  lemma {:induction false} WriteDips(d: int, v: Value, k: string)
    requires d >= 1 && Good(v)
    ensures AfterDip(1, Out(d), Write(v, k)) == AfterDip(1, Out(d), k)
    decreases v
  {
    match v
    case Null => PlainDips(Out(d), "null", k);
    case True => PlainDips(Out(d), "true", k);
    case False => PlainDips(Out(d), "false", k);
    case Number(l) => PlainDips(Out(d), l, k);
    case Str(us) => TextDips(d, us, k);
    case Arr(NoItems) =>
      assert Write(v, k) == ['['] + ([']'] + k);
      DipStep(Out(d), '[', [']'] + k);
      DipStep(Out(d + 1), ']', k);
    case Arr(Item(head, tail)) =>
      DipStep(Out(d), '[', Write(head, WriteItems(tail, k)));
      WriteDips(d + 1, head, WriteItems(tail, k));
      ItemsDip(d, tail, k);
    case Obj(NoFields) =>
      assert Write(v, k) == ['{'] + (['}'] + k);
      DipStep(Out(d), '{', ['}'] + k);
      DipStep(Out(d + 1), '}', k);
    case Obj(fields) =>
      DipStep(Out(d), '{', WriteField(fields, k));
      FieldDips(d, fields, k);
  }

  lemma {:induction false} ItemsDip(d: int, items: Items, k: string)
    requires d >= 0 && GoodItems(items)
    ensures AfterDip(1, Out(d + 1), WriteItems(items, k)) == AfterDip(1, Out(d), k)
    decreases items
  {
    match items
    case NoItems => DipStep(Out(d + 1), ']', k);
    case Item(head, tail) =>
      DipStep(Out(d + 1), ',', Write(head, WriteItems(tail, k)));
      WriteDips(d + 1, head, WriteItems(tail, k));
      ItemsDip(d, tail, k);
  }

  lemma {:induction false} FieldDips(d: int, fields: Fields, k: string)
    requires d >= 0 && fields.Field? && GoodFields(fields)
    ensures AfterDip(1, Out(d + 1), WriteField(fields, k)) == AfterDip(1, Out(d), k)
    decreases fields, 0
  {
    var t := Write(fields.value, WriteFields(fields.rest, k));
    TextDips(d + 1, fields.key, [':'] + t);
    DipStep(Out(d + 1), ':', t);
    WriteDips(d + 1, fields.value, WriteFields(fields.rest, k));
    FieldsDip(d, fields.rest, k);
  }

  lemma {:induction false} FieldsDip(d: int, fields: Fields, k: string)
    requires d >= 0 && GoodFields(fields)
    ensures AfterDip(1, Out(d + 1), WriteFields(fields, k)) == AfterDip(1, Out(d), k)
    decreases fields, 1
  {
    if fields.NoFields? {
      DipStep(Out(d + 1), '}', k);
    } else {
      DipStep(Out(d + 1), ',', WriteField(fields, k));
      FieldDips(d, fields, k);
    }
  }

  /** An object cut short ends inside a bracket or a string. */
  lemma CutIsOpen(fields: Fields, n: nat)
    requires GoodFields(fields) && 0 < n < |Encode(Obj(fields))|
    ensures !Below(Scanned(Out(0), Encode(Obj(fields))[..n]), 1)
  {
    var t := Encode(Obj(fields));
    if fields.NoFields? {
      DipStep(Out(1), '}', "");
      assert t == ['{'] + (['}'] + "");
    } else {
      FieldDips(0, fields, "");
    }
    assert t[0] == '{' && AfterDip(1, Out(1), t[1..]) == Some("");
    DipIsLast(Out(1), t[1..], n - 1);
    assert t[..n][0] == t[0] && t[..n][1..] == t[1..][..n - 1];
  }

  /** A record cut short never reads. */
  lemma TornNeverReads(fields: Fields, n: nat)
    requires GoodFields(fields) && n < |Encode(Obj(fields))|
    ensures Decode(Encode(Obj(fields))[..n]).None?
  {
    var p := Encode(Obj(fields))[..n];
    if Decode(p).Some? {
      DecodedIsBalanced(p);
      if n > 0 { CutIsOpen(fields, n); }
      assert false;
    }
  }

  // ----- a record glued to a cut one

  lemma {:induction false} BadStays(t: string)
    ensures Scanned(Bad, t) == Bad
    decreases |t|
  {
    if t != "" { BadStays(t[1..]); }
  }

  /** Read from inside a string, a text turns strings inside out: it ends inside one again, before what
      follows, or it is past repair. */
  ghost predicate Flips(d: int, t: string, k: string) {
    Scanned(In(d), t) == Bad || exists e :: Scanned(In(d), t) == Scanned(In(e), k)
  }

  lemma FlipsOver(d: int, c: char, k: string)
    requires Plain(c) || c in {'[', ']', '{', '}'}
    ensures Scanned(In(d), [c] + k) == Scanned(In(d), k)
  {
    assert ([c] + k)[1..] == k;
  }

  lemma UnitFlips(d: int, u: Unit, k: string) returns (e: int)
    ensures Scanned(Out(d), WriteUnit(u, k)) == Bad || Scanned(Out(d), WriteUnit(u, k)) == Scanned(Out(e), k)
  {
    var t := WriteUnit(u, k);
    e := d;
    if t[0] == '\\' {
      BadStays(t[1..]);
    } else {
      assert t[1..] == k;
      e := if Step(Out(d), t[0]).Out? then Step(Out(d), t[0]).depth else d;
    }
  }

  lemma {:induction false} UnitsFlip(d: int, us: Text, k: string) returns (e: int)
    ensures var t := WriteUnits(us, ['"'] + k);
            Scanned(Out(d), t) == Bad || Scanned(Out(d), t) == Scanned(In(e), k)
    decreases |us|
  {
    if us == [] {
      e := d;
      assert (['"'] + k)[1..] == k;
    } else {
      e := UnitFlips(d, us[0], WriteUnits(us[1..], ['"'] + k));
      e := UnitsFlip(e, us[1..], k);
    }
  }

  lemma TextFlips(d: int, us: Text, k: string)
    ensures Flips(d, WriteText(us, k), k)
  {
    var e := UnitsFlip(d, us, k);
    assert WriteText(us, k)[1..] == WriteUnits(us, ['"'] + k);
  }

  lemma FlipsJoin(d: int, t: string, k: string, j: string)
    requires Flips(d, t, k) && forall e :: Flips(e, k, j)
    ensures Flips(d, t, j)
  {
    if Scanned(In(d), t) != Bad {
      var e :| Scanned(In(d), t) == Scanned(In(e), k);
      assert Flips(e, k, j);
    }
  }

  lemma FlipsAfter(d: int, c: char, t: string, k: string)
    requires (Plain(c) || c in {'[', ']', '{', '}'}) && Flips(d, t, k)
    ensures Flips(d, [c] + t, k)
  {
    FlipsOver(d, c, t);
  }

  lemma PlainFlips(d: int, t: string, k: string)
    requires forall i :: 0 <= i < |t| ==> Plain(t[i])
    ensures Flips(d, t + k, k)
  {
    PlainScans(In(d), t + k, |t|);
    assert (t + k)[|t|..] == k;
  }

  lemma NothingFlips(d: int, k: string)
    ensures Flips(d, k, k)
  {
    assert Scanned(In(d), k) == Scanned(In(d), k);
  }

  lemma {:induction false} WriteFlips(d: int, v: Value, k: string)
    requires Good(v)
    ensures Flips(d, Write(v, k), k)
    decreases v
  {
    match v
    case Null => PlainFlips(d, "null", k);
    case True => PlainFlips(d, "true", k);
    case False => PlainFlips(d, "false", k);
    case Number(l) => PlainFlips(d, l, k);
    case Str(us) => TextFlips(d, us, k);
    case Arr(NoItems) =>
      assert Write(v, k) == ['['] + ([']'] + k);
      NothingFlips(d, k);
      FlipsAfter(d, ']', k, k);
      FlipsAfter(d, '[', [']'] + k, k);
    case Arr(Item(head, tail)) =>
      WriteFlips(d, head, WriteItems(tail, k));
      forall e { ItemsFlip(e, tail, k); }
      FlipsJoin(d, Write(head, WriteItems(tail, k)), WriteItems(tail, k), k);
      FlipsAfter(d, '[', Write(head, WriteItems(tail, k)), k);
    case Obj(NoFields) =>
      assert Write(v, k) == ['{'] + (['}'] + k);
      NothingFlips(d, k);
      FlipsAfter(d, '}', k, k);
      FlipsAfter(d, '{', ['}'] + k, k);
    case Obj(fields) =>
      FieldFlips(d, fields, k);
      FlipsAfter(d, '{', WriteField(fields, k), k);
  }

  lemma {:induction false} ItemsFlip(d: int, items: Items, k: string)
    requires GoodItems(items)
    ensures Flips(d, WriteItems(items, k), k)
    decreases items
  {
    match items
    case NoItems =>
      NothingFlips(d, k);
      FlipsAfter(d, ']', k, k);
    case Item(head, tail) =>
      WriteFlips(d, head, WriteItems(tail, k));
      forall e { ItemsFlip(e, tail, k); }
      FlipsJoin(d, Write(head, WriteItems(tail, k)), WriteItems(tail, k), k);
      FlipsAfter(d, ',', Write(head, WriteItems(tail, k)), k);
  }

  lemma {:induction false} FieldFlips(d: int, fields: Fields, k: string)
    requires fields.Field? && GoodFields(fields)
    ensures Flips(d, WriteField(fields, k), k)
    decreases fields, 0
  {
    var u := WriteFields(fields.rest, k);
    var t := Write(fields.value, u);
    forall e ensures Flips(e, [':'] + t, k) {
      WriteFlips(e, fields.value, u);
      forall f { FieldsFlip(f, fields.rest, k); }
      FlipsJoin(e, t, u, k);
      FlipsAfter(e, ':', t, k);
    }
    TextFlips(d, fields.key, [':'] + t);
    FlipsJoin(d, WriteField(fields, k), [':'] + t, k);
  }

  lemma {:induction false} FieldsFlip(d: int, fields: Fields, k: string)
    requires GoodFields(fields)
    ensures Flips(d, WriteFields(fields, k), k)
    decreases fields, 1
  {
    if fields.NoFields? {
      NothingFlips(d, k);
      FlipsAfter(d, '}', k, k);
    } else {
      FieldFlips(d, fields, k);
      FlipsAfter(d, ',', WriteField(fields, k), k);
    }
  }

  /** Entered inside a string, behind a backslash or past repair, a whole object is never left outside. */
  lemma ObjectStaysIn(s: Scan, fields: Fields)
    requires GoodFields(fields) && !s.Out?
    ensures !Scanned(s, Encode(Obj(fields))).Out?
  {
    var t := Encode(Obj(fields));
    if s.Bad? {
      BadStays(t);
    } else {
      var d := s.depth;
      WriteFlips(d, Obj(fields), "");
      assert Step(s, t[0]) == In(d) == Step(In(d), t[0]);
      assert Scanned(s, t) == Scanned(In(d), t);
    }
  }

  /** Whatever is left of a cut record, a whole record glued to it makes a line that never reads. */
  lemma GluedToCutNeverReads(cut: Fields, n: nat, fields: Fields)
    requires GoodFields(cut) && GoodFields(fields) && 0 < n < |Encode(Obj(cut))|
    ensures Decode(Encode(Obj(cut))[..n] + Encode(Obj(fields))).None?
  {
    var p, t := Encode(Obj(cut))[..n], Encode(Obj(fields));
    CutIsOpen(cut, n);
    ScanJoins(Out(0), p, t);
    var s := Scanned(Out(0), p);
    if s.Out? {
      WriteReads(Obj(fields), "");
      ReadScans(s.depth, t);
    } else {
      ObjectStaysIn(s, fields);
    }
    if Decode(p + t).Some? { DecodedIsBalanced(p + t); assert false; }
  }

  // ----- a record glued to a whole one

  lemma {:induction false} UnitsAppend(us: Text, j: string, k: string)
    ensures WriteUnits(us, j) + k == WriteUnits(us, j + k)
    decreases |us|
  {
    if us != [] {
      UnitsAppend(us[1..], j, k);
      UnitAppends(us[0], WriteUnits(us[1..], j), k);
    }
  }

  lemma UnitAppends(u: Unit, j: string, k: string)
    ensures WriteUnit(u, j) + k == WriteUnit(u, j + k)
  {
    if Letter(u).Some? {
      assert (['\\', Letter(u).value] + j) + k == ['\\', Letter(u).value] + (j + k);
    } else if 32 <= u <= 126 {
      assert ([u as char] + j) + k == [u as char] + (j + k);
    } else {
      assert (['\\', 'u'] + (Digits(u) + j)) + k == ['\\', 'u'] + (Digits(u) + (j + k));
    }
  }

  lemma TextAppends(us: Text, j: string, k: string)
    ensures WriteText(us, j) + k == WriteText(us, j + k)
  {
    UnitsAppend(us, ['"'] + j, k);
    Associates(['"'], j, k);
    Associates(['"'], WriteUnits(us, ['"'] + j), k);
  }

  lemma {:induction false} WriteAppends(v: Value, j: string, k: string)
    ensures Write(v, j) + k == Write(v, j + k)
    decreases v
  {
    match v
    case Null => Associates("null", j, k);
    case True => Associates("true", j, k);
    case False => Associates("false", j, k);
    case Number(l) => Associates(l, j, k);
    case Str(us) => TextAppends(us, j, k);
    case Arr(NoItems) => Associates("[]", j, k);
    case Arr(Item(head, tail)) =>
      ItemsAppend(tail, j, k);
      WriteAppends(head, WriteItems(tail, j), k);
      Associates(['['], Write(head, WriteItems(tail, j)), k);
    case Obj(NoFields) => Associates("{}", j, k);
    case Obj(fields) =>
      FieldAppends(fields, j, k);
      Associates(['{'], WriteField(fields, j), k);
  }

  lemma {:induction false} ItemsAppend(items: Items, j: string, k: string)
    ensures WriteItems(items, j) + k == WriteItems(items, j + k)
    decreases items
  {
    match items
    case NoItems => Associates([']'], j, k);
    case Item(head, tail) =>
      ItemsAppend(tail, j, k);
      WriteAppends(head, WriteItems(tail, j), k);
      Associates([','], Write(head, WriteItems(tail, j)), k);
  }

  lemma {:induction false} FieldAppends(fields: Fields, j: string, k: string)
    requires fields.Field?
    ensures WriteField(fields, j) + k == WriteField(fields, j + k)
    decreases fields, 0
  {
    FieldsAppend(fields.rest, j, k);
    var u := WriteFields(fields.rest, j);
    WriteAppends(fields.value, u, k);
    Associates([':'], Write(fields.value, u), k);
    TextAppends(fields.key, [':'] + Write(fields.value, u), k);
  }

  lemma {:induction false} FieldsAppend(fields: Fields, j: string, k: string)
    ensures WriteFields(fields, j) + k == WriteFields(fields, j + k)
    decreases fields, 1
  {
    if fields.NoFields? {
      Associates(['}'], j, k);
    } else {
      FieldAppends(fields, j, k);
      Associates([','], WriteField(fields, j), k);
    }
  }

  /** Two whole records on one line do not read either. */
  lemma GluedToWholeNeverReads(first: Fields, second: Fields)
    requires GoodFields(first) && GoodFields(second)
    ensures Decode(Encode(Obj(first)) + Encode(Obj(second))).None?
  {
    var t := Encode(Obj(second));
    WriteAppends(Obj(first), "", t);
    assert "" + t == t;
    ObjectReads(first, t);
    WriteStarts(Obj(second), "");
  }

  // ----- the text is printable

  predicate Printable(t: string) { forall i :: 0 <= i < |t| ==> ' ' <= t[i] <= '~' }

  lemma UnitPrints(u: Unit, k: string)
    requires Printable(k)
    ensures Printable(WriteUnit(u, k))
  {
    if Letter(u).None? && !(32 <= u <= 126) { DigitsArePlain(u); }
  }

  lemma {:induction false} UnitsPrint(us: Text, k: string)
    requires Printable(k)
    ensures Printable(WriteUnits(us, k))
    decreases |us|
  {
    if us != [] {
      UnitsPrint(us[1..], k);
      UnitPrints(us[0], WriteUnits(us[1..], k));
    }
  }

  lemma TextPrints(us: Text, k: string)
    requires Printable(k)
    ensures Printable(WriteText(us, k))
  {
    UnitsPrint(us, ['"'] + k);
  }

  lemma {:induction false} WritePrints(v: Value, k: string)
    requires Good(v) && Printable(k)
    ensures Printable(Write(v, k))
    decreases v
  {
    match v
    case Null | True | False | Number(_) =>
    case Str(us) => TextPrints(us, k);
    case Arr(NoItems) =>
    case Arr(Item(head, tail)) =>
      ItemsPrint(tail, k);
      WritePrints(head, WriteItems(tail, k));
    case Obj(NoFields) =>
    case Obj(fields) => FieldPrints(fields, k);
  }

  lemma {:induction false} ItemsPrint(items: Items, k: string)
    requires GoodItems(items) && Printable(k)
    ensures Printable(WriteItems(items, k))
    decreases items
  {
    if items.Item? {
      ItemsPrint(items.tail, k);
      WritePrints(items.head, WriteItems(items.tail, k));
    }
  }

  lemma {:induction false} FieldPrints(fields: Fields, k: string)
    requires fields.Field? && GoodFields(fields) && Printable(k)
    ensures Printable(WriteField(fields, k))
    decreases fields, 0
  {
    FieldsPrint(fields.rest, k);
    WritePrints(fields.value, WriteFields(fields.rest, k));
    TextPrints(fields.key, [':'] + Write(fields.value, WriteFields(fields.rest, k)));
  }

  lemma {:induction false} FieldsPrint(fields: Fields, k: string)
    requires GoodFields(fields) && Printable(k)
    ensures Printable(WriteFields(fields, k))
    decreases fields, 1
  {
    if fields.Field? { FieldPrints(fields, k); }
  }
}
