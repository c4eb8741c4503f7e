/** The crash-durable log: locked append, a torn last line, resume, atomic rewrite. */
module JsonlStream {
  import opened Seqs
  import opened Wrappers
  import Json

  /** A row is a dict with string keys; its numbers are spelled as `json.dumps` spells them. */
  type Record = f: Json.Fields | Json.GoodFields(f) witness Json.NoFields

  function Body(r: Record): string { Json.Encode(Json.Obj(r)) }

  function Line(r: Record): string { Body(r) + "\n" }

  function Whole(rs: seq<Record>): string {
    if rs == [] then "" else Line(rs[0]) + Whole(rs[1..])
  }

  function Rows(rs: seq<Record>): seq<Json.Value> {
    if rs == [] then [] else Rows(rs[..|rs| - 1]) + [Json.Obj(rs[|rs| - 1])]
  }

  function Bodies(rs: seq<Record>): seq<string> {
    if rs == [] then [] else [Body(rs[0])] + Bodies(rs[1..])
  }

  // ----- reading a file that may have died mid-write

  /** Where `str.splitlines` ends a line. */
  predicate Break(c: char) {
    var n := c as int;
    10 <= n <= 13 || 0x1c <= n <= 0x1e || n == 0x85 || n == 0x2028 || n == 0x2029
  }

  /** What `str.strip` removes. */
  predicate White(c: char) {
    var n := c as int;
    9 <= n <= 13 || 0x1c <= n <= 0x20 || n == 0x85 || n == 0xa0 || n == 0x1680 || 0x2000 <= n <= 0x200a
    || n == 0x2028 || n == 0x2029 || n == 0x202f || n == 0x205f || n == 0x3000
  }

  predicate Blank(line: string) { forall i :: 0 <= i < |line| ==> White(line[i]) }

  function LineEnd(t: string): (n: nat)
    ensures n <= |t|
  {
    if t == "" || Break(t[0]) then 0 else 1 + LineEnd(t[1..])
  }

  /** `str.splitlines`. */
  function Lines(t: string): seq<string>
    decreases |t|
  {
    if t == "" then [] else
      var n := LineEnd(t);
      var skip := if "\r\n" <= t[n..] then 2 else if n < |t| then 1 else 0;
      [t[..n]] + Lines(t[n + skip..])
  }

  /** The rows of the first n lines, and the length of a torn last line; a bad line that is not the
      last is corruption. */
  function Gather(lines: seq<string>, n: nat): Result<(seq<Json.Value>, Option<nat>)>
    requires n <= |lines|
  {
    if n == 0 then Ok(([], None)) else
      match Gather(lines, n - 1)
      case Err(e) => Err(e)
      case Ok((rows, torn)) =>
        var line := lines[n - 1];
        if Blank(line) then Ok((rows, torn))
        else
          match Json.Decode(line)
          case Some(v) => Ok((rows + [v], torn))
          case None => if n == |lines| then Ok((rows, Some(|line|))) else Err("corruption")
  }

  // ----- what the lines and the rows of a text are

  const BREAKS: set<int> := {10, 11, 12, 13, 28, 29, 30, 133, 8232, 8233}

  lemma BreaksAre(c: char)
    ensures Break(c) <==> c as int in BREAKS
  {
  }

  const WHITES: set<int> :=
    {9, 10, 11, 12, 13, 28, 29, 30, 31, 32, 133, 160, 5760, 8192, 8193, 8194, 8195, 8196, 8197, 8198, 8199, 8200,
     8201, 8202, 8232, 8233, 8239, 8287, 12288}

  lemma WhitesAre(c: char)
    ensures White(c) <==> c as int in WHITES
  {
  }

  /** A line's end: a return with its newline, one break that is not half of such a pair, or the end of a
      text that does not end in a break. */
  ghost predicate IsEnd(line: string, end: string, rest: string) {
    || end == "\r\n"
    || (|end| == 1 && end[0] as int in BREAKS && !(end == "\r" && "\n" <= rest))
    || (end == "" && rest == "" && line != "")
  }

  /** The text is these lines, none of which holds a break, each with its end. */
  ghost predicate Splits(t: string, lines: seq<string>)
    decreases |lines|
  {
    if lines == [] then t == ""
    else && (forall c :: c in lines[0] ==> c as int !in BREAKS)
         && exists end, rest :: t == lines[0] + end + rest && IsEnd(lines[0], end, rest) && Splits(rest, lines[1..])
  }

  lemma {:induction false} LineEndIs(t: string)
    ensures forall i :: 0 <= i < LineEnd(t) ==> !Break(t[i])
    ensures LineEnd(t) < |t| ==> Break(t[LineEnd(t)])
  {
    if t != "" && !Break(t[0]) { LineEndIs(t[1..]); }
  }

  lemma EndIs(t: string, n: nat, skip: nat)
    requires t != "" && n <= |t| && (n < |t| ==> Break(t[n]))
    requires skip == if "\r\n" <= t[n..] then 2 else if n < |t| then 1 else 0
    ensures n + skip <= |t| && t == t[..n] + t[n..n + skip] + t[n + skip..]
    ensures IsEnd(t[..n], t[n..n + skip], t[n + skip..])
  {
    if n < |t| {
      BreaksAre(t[n]);
      assert t[n..][0] == t[n] && (n + 1 < |t| ==> t[n..][1] == t[n + 1] == t[n + 1..][0]);
    }
  }

  lemma SplitsBehind(line: string, end: string, rest: string, lines: seq<string>)
    requires Splits(rest, lines) && IsEnd(line, end, rest)
    requires forall i :: 0 <= i < |line| ==> !Break(line[i])
    ensures Splits(line + end + rest, [line] + lines)
  {
    forall c | c in line ensures c as int !in BREAKS { BreaksAre(c); }
    assert ([line] + lines)[1..] == lines;
  }

  /** The lines of a text make it up. */
  lemma {:induction false} LinesSplit(t: string)
    ensures Splits(t, Lines(t))
    decreases |t|
  {
    if t != "" {
      var n := LineEnd(t);
      var skip := if "\r\n" <= t[n..] then 2 else if n < |t| then 1 else 0;
      LineEndIs(t);
      EndIs(t, n, skip);
      LinesSplit(t[n + skip..]);
      SplitsBehind(t[..n], t[n..n + skip], t[n + skip..], Lines(t[n + skip..]));
    }
  }

  /** A line that holds something other than blanks. */
  ghost predicate Says(line: string) { exists c :: c in line && c as int !in WHITES }

  lemma BlankIs(line: string)
    ensures Blank(line) <==> !Says(line)
  {
    forall c ensures White(c) <==> c as int in WHITES { WhitesAre(c); }
    if !Blank(line) {
      var i :| 0 <= i < |line| && !White(line[i]);
      assert line[i] in line;
    }
  }

  ghost predicate Sound(line: string) { Says(line) && Json.Decode(line).Some? }

  ghost predicate Broken(line: string) { Says(line) && Json.Decode(line).None? }

  ghost predicate RowsAt(lines: seq<string>, n: nat, at: seq<int>, rows: seq<Json.Value>)
    requires n <= |lines|
  {
    && |at| == |rows| && (forall i, j :: 0 <= i < j < |at| ==> at[i] < at[j])
    && (forall i :: 0 <= i < |at| ==> 0 <= at[i] < n && Json.Decode(lines[at[i]]) == Some(rows[i]))
    && forall k :: 0 <= k < n ==> (Sound(lines[k]) <==> k in at)
  }

  lemma RowsGrow(lines: seq<string>, n: nat, at: seq<int>, rows: seq<Json.Value>)
    requires n < |lines| && RowsAt(lines, n, at, rows)
    ensures if Sound(lines[n]) then RowsAt(lines, n + 1, at + [n], rows + [Json.Decode(lines[n]).value])
            else RowsAt(lines, n + 1, at, rows)
  {
    assert n !in at;
  }

  lemma OneMoreLine(lines: seq<string>, n: nat)
    requires n < |lines| && Gather(lines, n).Ok?
    ensures var got, rows, torn := Gather(lines, n + 1), Gather(lines, n).value.0, Gather(lines, n).value.1;
            if Sound(lines[n]) then got == Ok((rows + [Json.Decode(lines[n]).value], torn))
            else if !Broken(lines[n]) then got == Ok((rows, torn))
            else if n + 1 < |lines| then got.Err? else got == Ok((rows, Some(|lines[n]|)))
  {
    BlankIs(lines[n]);
  }

  /** What reading the first n lines gives: an error iff one of them is broken and not the last of all, else
      the rows of the sound ones, and the length of a broken last line. */
  ghost predicate GatherIs(lines: seq<string>, n: nat, at: seq<int>, got: Result<(seq<Json.Value>, Option<nat>)>)
    requires n <= |lines|
  {
    match got
    case Err(_) => exists i :: 0 <= i < n && i < |lines| - 1 && Broken(lines[i])
    case Ok((rows, torn)) =>
      && (forall i :: 0 <= i < n && i < |lines| - 1 ==> !Broken(lines[i])) && RowsAt(lines, n, at, rows)
      && torn == if 0 < n == |lines| && Broken(lines[n - 1]) then Some(|lines[n - 1]|) else None
  }

  lemma GatherGrows(lines: seq<string>, n: nat, at: seq<int>)
    requires n < |lines| && Gather(lines, n).Ok? && GatherIs(lines, n, at, Gather(lines, n))
    ensures GatherIs(lines, n + 1, if Sound(lines[n]) then at + [n] else at, Gather(lines, n + 1))
  {
    OneMoreLine(lines, n);
    RowsGrow(lines, n, at, Gather(lines, n).value.0);
    GatherStepIs(lines, n, at, Gather(lines, n).value.0, Gather(lines, n).value.1, Gather(lines, n + 1));
  }

  lemma GatherStepIs(lines: seq<string>, n: nat, at: seq<int>, rows: seq<Json.Value>, torn: Option<nat>,
                     got: Result<(seq<Json.Value>, Option<nat>)>)
    requires n < |lines| && GatherIs(lines, n, at, Ok((rows, torn)))
    requires if Sound(lines[n]) then RowsAt(lines, n + 1, at + [n], rows + [Json.Decode(lines[n]).value])
             else RowsAt(lines, n + 1, at, rows)
    requires if Sound(lines[n]) then got == Ok((rows + [Json.Decode(lines[n]).value], torn))
             else if !Broken(lines[n]) then got == Ok((rows, torn))
             else if n + 1 < |lines| then got.Err? else got == Ok((rows, Some(|lines[n]|)))
    ensures GatherIs(lines, n + 1, if Sound(lines[n]) then at + [n] else at, got)
  {
  }

  /** The rows are what the sound lines decode to, in their order; a broken line in front of the last is
      corruption, and a broken last line is torn. */
  lemma {:induction false} GatherMeans(lines: seq<string>, n: nat) returns (at: seq<int>)
    requires n <= |lines|
    ensures GatherIs(lines, n, at, Gather(lines, n))
  {
    at := [];
    if n > 0 {
      at := GatherMeans(lines, n - 1);
      if Gather(lines, n - 1).Ok? {
        GatherGrows(lines, n - 1, at);
        if Sound(lines[n - 1]) { at := at + [n - 1]; }
      } else {
        CorruptionGoesOn(lines, n - 1);
      }
    }
  }

  lemma CorruptionGoesOn(lines: seq<string>, n: nat)
    requires n < |lines| && Gather(lines, n).Err?
    ensures Gather(lines, n + 1).Err?
  {
  }

  function Lookup(fields: Json.Fields, key: Json.Text): Option<Json.Value> {
    match fields
    case NoFields => None
    case Field(k, v, rest) => if Lookup(rest, key).Some? then Lookup(rest, key) else if k == key then Some(v) else None
  }

  predicate Contains(items: Json.Items, key: Json.Text) {
    items.Item? && (items.head == Json.Str(key) || Contains(items.tail, key))
  }

  predicate Substring(us: Json.Text, key: Json.Text) {
    exists i :: 0 <= i <= |us| && key <= us[i..]
  }

  /** `r[key] if key in r`, as an element of a set: an unhashable value raises, and so does a row that
      is no dict unless the key is simply not in it. */
  function KeyOf(row: Json.Value, key: Json.Text): Result<set<Json.Value>> {
    match row
    case Obj(fields) =>
      (match Lookup(fields, key)
       case None => Ok({})
       case Some(v) => if v.Arr? || v.Obj? then Err("unhashable") else Ok({v}))
    case Arr(items) => if Contains(items, key) then Err("list indices") else Ok({})
    case Str(us) => if Substring(us, key) then Err("string indices") else Ok({})
    case _ => Err("not iterable")
  }

  function KeysOf(rows: seq<Json.Value>, key: Json.Text): Result<set<Json.Value>> {
    if rows == [] then Ok({}) else
      match KeysOf(rows[..|rows| - 1], key)
      case Err(e) => Err(e)
      case Ok(done) =>
        match KeyOf(rows[|rows| - 1], key)
        case Err(e) => Err(e)
        case Ok(s) => Ok(done + s)
  }

  datatype Survivors = Survivors(rows: seq<Json.Value>, done: set<Json.Value>, torn: Option<nat>)

  function Survived(file: Option<string>, key: Json.Text): Result<Survivors> {
    match file
    case None => Ok(Survivors([], {}, None))
    case Some(text) =>
      match Gather(Lines(text), |Lines(text)|)
      case Err(e) => Err(e)
      case Ok((rows, torn)) =>
        match KeysOf(rows, key)
        case Err(e) => Err(e)
        case Ok(done) => Ok(Survivors(rows, done, torn))
  }

  // ----- what the completed keys are

  /** The record's pairs, in the order they are written. */
  function Pairs(fields: Json.Fields): seq<(Json.Text, Json.Value)> {
    match fields
    case NoFields => []
    case Field(k, v, rest) => [(k, v)] + Pairs(rest)
  }

  /** v is what the record holds under a key: of several pairs with the key the last one counts. */
  ghost predicate Holds(fields: Json.Fields, key: Json.Text, v: Json.Value) {
    exists i :: 0 <= i < |Pairs(fields)| && Pairs(fields)[i] == (key, v)
                && forall j :: i < j < |Pairs(fields)| ==> Pairs(fields)[j].0 != key
  }

  function Elements(items: Json.Items): seq<Json.Value> {
    match items
    case NoItems => []
    case Item(head, tail) => [head] + Elements(tail)
  }

  /** Why taking a row's key raises: it holds a list or a dict, or the row is no dict; a list or a string
      raises only if the key is in it. */
  ghost predicate Raises(row: Json.Value, key: Json.Text) {
    match row
    case Obj(fields) => exists v :: Holds(fields, key, v) && (v.Arr? || v.Obj?)
    case Arr(items) => Json.Str(key) in Elements(items)
    case Str(us) => exists i, j :: 0 <= i <= j <= |us| && us[i..j] == key
    case _ => true
  }

  lemma PairHeld(k: Json.Text, x: Json.Value, rest: Json.Fields, key: Json.Text, v: Json.Value)
    ensures Holds(rest, key, v) ==> Holds(Json.Field(k, x, rest), key, v)
  {
    var ps, all := Pairs(rest), Pairs(Json.Field(k, x, rest));
    assert all[1..] == ps;
    if Holds(rest, key, v) {
      var i :| 0 <= i < |ps| && ps[i] == (key, v) && forall j :: i < j < |ps| ==> ps[j].0 != key;
      assert all[i + 1] == (key, v);
      forall j | i + 1 < j < |all| ensures all[j].0 != key { assert all[j] == ps[j - 1]; }
    }
  }

  /** The first pair counts if the key is in no later one. */
  lemma FirstHeld(k: Json.Text, x: Json.Value, rest: Json.Fields)
    requires forall j :: 0 <= j < |Pairs(rest)| ==> Pairs(rest)[j].0 != k
    ensures Holds(Json.Field(k, x, rest), k, x)
  {
    var all := Pairs(Json.Field(k, x, rest));
    assert all[0] == (k, x);
    forall j | 0 < j < |all| ensures all[j].0 != k { assert all[j] == Pairs(rest)[j - 1]; }
  }

  lemma {:induction false} LookupIsLast(fields: Json.Fields, key: Json.Text)
    ensures Lookup(fields, key).Some? ==> Holds(fields, key, Lookup(fields, key).value)
    ensures Lookup(fields, key).None? ==> forall j :: 0 <= j < |Pairs(fields)| ==> Pairs(fields)[j].0 != key
  {
    match fields
    case NoFields =>
    case Field(k, x, rest) =>
      LookupIsLast(rest, key);
      if Lookup(rest, key).Some? {
        PairHeld(k, x, rest, key, Lookup(rest, key).value);
      } else if k == key {
        FirstHeld(k, x, rest);
      } else {
        var all := Pairs(fields);
        forall j | 0 <= j < |all| ensures all[j].0 != key { if j > 0 { assert all[j] == Pairs(rest)[j - 1]; } }
      }
  }

  lemma HoldsOneValue(fields: Json.Fields, key: Json.Text, v: Json.Value, w: Json.Value)
    requires Holds(fields, key, v) && Holds(fields, key, w)
    ensures v == w
  {
    var ps := Pairs(fields);
    var i :| 0 <= i < |ps| && ps[i] == (key, v) && forall j :: i < j < |ps| ==> ps[j].0 != key;
    var k :| 0 <= k < |ps| && ps[k] == (key, w) && forall j :: k < j < |ps| ==> ps[j].0 != key;
    assert i == k;
  }

  lemma LookupMeans(fields: Json.Fields, key: Json.Text, v: Json.Value)
    ensures Lookup(fields, key) == Some(v) <==> Holds(fields, key, v)
  {
    LookupIsLast(fields, key);
    if Holds(fields, key, v) {
      var ps := Pairs(fields);
      var i :| 0 <= i < |ps| && ps[i] == (key, v) && forall j :: i < j < |ps| ==> ps[j].0 != key;
      assert ps[i].0 == key;
      HoldsOneValue(fields, key, v, Lookup(fields, key).value);
    }
  }

  lemma {:induction false} ContainsMeans(items: Json.Items, key: Json.Text)
    ensures Contains(items, key) <==> Json.Str(key) in Elements(items)
  {
    if items.Item? { ContainsMeans(items.tail, key); }
  }

  lemma SubstringMeans(us: Json.Text, key: Json.Text)
    ensures Substring(us, key) <==> exists i, j :: 0 <= i <= j <= |us| && us[i..j] == key
  {
    if Substring(us, key) {
      var i :| 0 <= i <= |us| && key <= us[i..];
      assert us[i..i + |key|] == key;
    }
    if i, j :| 0 <= i <= j <= |us| && us[i..j] == key { assert us[i..j] <= us[i..]; }
  }

  /** What a row adds to the completed keys. */
  lemma KeyOfMeans(row: Json.Value, key: Json.Text)
    ensures KeyOf(row, key).Err? <==> Raises(row, key)
    ensures KeyOf(row, key).Ok? ==>
              forall v :: v in KeyOf(row, key).value <==> row.Obj? && Holds(row.fields, key, v)
  {
    match row
    case Obj(fields) =>
      forall v ensures Lookup(fields, key) == Some(v) <==> Holds(fields, key, v) { LookupMeans(fields, key, v); }
    case Arr(items) => ContainsMeans(items, key);
    case Str(us) => SubstringMeans(us, key);
    case _ =>
  }

  lemma {:induction false} KeysOfMeans(rows: seq<Json.Value>, key: Json.Text)
    ensures KeysOf(rows, key).Err? <==> exists row :: row in rows && Raises(row, key)
    ensures KeysOf(rows, key).Ok? ==>
              forall v :: v in KeysOf(rows, key).value <==>
                          exists row :: row in rows && row.Obj? && Holds(row.fields, key, v)
  {
    if rows != [] {
      var before, row := rows[..|rows| - 1], rows[|rows| - 1];
      assert rows == before + [row];
      KeysOfMeans(before, key);
      KeyOfMeans(row, key);
    }
  }

  /** Reading a file whose lines are sound: the completed keys are what the kept rows hold under the key,
      no more and no less, and it raises exactly if that is a list or a dict, or a row is no dict. */
  lemma CompletedKeysAre(text: string, key: Json.Text)
    requires Gather(Lines(text), |Lines(text)|).Ok?
    ensures var rows, got := Gather(Lines(text), |Lines(text)|).value.0, Survived(Some(text), key);
            && (got.Err? <==> exists row :: row in rows && Raises(row, key))
            && (got.Ok? ==> got.value.rows == rows
                            && forall v :: v in got.value.done <==>
                                           exists row :: row in rows && row.Obj? && Holds(row.fields, key, v))
  {
    KeysOfMeans(Gather(Lines(text), |Lines(text)|).value.0, key);
  }

  lemma {:induction false} CorruptionStays(lines: seq<string>, n: nat)
    requires n <= |lines| && Gather(lines, n).Err?
    ensures Gather(lines, |lines|) == Gather(lines, n)
    decreases |lines| - n
  {
    if n < |lines| { CorruptionStays(lines, n + 1); }
  }

  lemma {:induction false} KeyErrorStays(rows: seq<Json.Value>, key: Json.Text, n: nat)
    requires n <= |rows| && KeysOf(rows[..n], key).Err?
    ensures KeysOf(rows, key) == KeysOf(rows[..n], key)
    decreases |rows| - n
  {
    if n < |rows| {
      assert rows[..n + 1][..n] == rows[..n];
      KeyErrorStays(rows, key, n + 1);
    } else {
      assert rows[..n] == rows;
    }
  }

  method ReadCompleted(file: Option<string>, key: Json.Text) returns (r: Result<Survivors>)
    ensures r == Survived(file, key)
  {
    if file.None? { return Ok(Survivors([], {}, None)); }
    var lines := Lines(file.value);
    var rows: seq<Json.Value>, torn: Option<nat> := [], None;
    for i := 0 to |lines|
      invariant Gather(lines, i) == Ok((rows, torn))
    {
      var line := lines[i];
      if Blank(line) { continue; }
      var v := Json.Decode(line);
      if v.Some? {
        rows := rows + [v.value];
      } else if i == |lines| - 1 {
        torn := Some(|line|);
      } else {
        CorruptionStays(lines, i + 1);
        return Err("corruption");
      }
    }
    var done := {};
    for i := 0 to |rows|
      invariant KeysOf(rows[..i], key) == Ok(done)
    {
      assert rows[..i + 1][..i] == rows[..i];
      var k := KeyOf(rows[i], key);
      if k.Err? {
        KeyErrorStays(rows, key, i + 1);
        return Err(k.error);
      }
      done := done + k.value;
    }
    assert rows[..|rows|] == rows;
    r := Ok(Survivors(rows, done, torn));
  }

  // ----- a file is whole lines and a tail

  lemma {:induction false} LineEndsAt(b: string, k: string)
    requires Json.Printable(b) && (k == "" || Break(k[0]))
    ensures LineEnd(b + k) == |b|
  {
    if b == "" {
      assert b + k == k;
    } else {
      assert (b + k)[1..] == b[1..] + k;
      LineEndsAt(b[1..], k);
    }
  }

  lemma BodyIs(r: Record)
    ensures Json.Printable(Body(r)) && Body(r) != "" && Body(r)[0] == '{' && !Blank(Body(r))
    ensures Json.Decode(Body(r)) == Some(Json.Obj(r))
  {
    Json.WritePrints(Json.Obj(r), "");
    Json.RoundTrip(Json.Obj(r));
    assert !White(Body(r)[0]);
  }

  lemma LinesStep(b: string, k: string)
    requires Json.Printable(b)
    ensures Lines((b + "\n") + k) == [b] + Lines(k)
  {
    var t := (b + "\n") + k;
    assert t == b + (['\n'] + k);
    LineEndsAt(b, ['\n'] + k);
    assert t[..|b|] == b && t[|b|..] == ['\n'] + k && t[|b| + 1..] == k;
  }

  lemma {:induction false} LinesOfWhole(rs: seq<Record>, k: string)
    ensures Lines(Whole(rs) + k) == Bodies(rs) + Lines(k)
  {
    if rs == [] {
      assert Whole(rs) + k == k && Bodies(rs) + Lines(k) == Lines(k);
    } else {
      BodyIs(rs[0]);
      var more := Whole(rs[1..]) + k;
      LinesStep(Body(rs[0]), more);
      LinesOfWhole(rs[1..], k);
      Associates(Line(rs[0]), Whole(rs[1..]), k);
      Associates([Body(rs[0])], Bodies(rs[1..]), Lines(k));
    }
  }

  lemma {:induction false} LinesOfTail(tail: string)
    requires Json.Printable(tail)
    ensures Lines(tail) == if tail == "" then [] else [tail]
  {
    LineEndsAt(tail, "");
    assert tail + "" == tail && tail[..|tail|] == tail && tail[|tail|..] == "";
  }

  lemma {:induction false} BodiesAt(rs: seq<Record>)
    ensures |Bodies(rs)| == |rs| && forall i :: 0 <= i < |rs| ==> Bodies(rs)[i] == Body(rs[i])
  {
    if rs != [] { BodiesAt(rs[1..]); }
  }

  /** Whole lines in front give their rows. */
  lemma {:induction false} GatherWhole(rs: seq<Record>, lines: seq<string>, n: nat)
    requires n <= |rs| && Bodies(rs) <= lines && |rs| <= |lines|
    ensures Gather(lines, n) == Ok((Rows(rs[..n]), None))
  {
    if n > 0 {
      GatherWhole(rs, lines, n - 1);
      BodiesAt(rs);
      BodyIs(rs[n - 1]);
      assert lines[n - 1] == Bodies(rs)[n - 1];
      assert rs[..n][..n - 1] == rs[..n - 1];
    }
  }

  /** What a kill can leave behind the last whole line: the front of a line, short of its newline. */
  function Tail(r: Record, n: nat): string
    requires n < |Line(r)|
  {
    Line(r)[..n]
  }

  lemma TailIs(r: Record, n: nat)
    requires n < |Line(r)|
    ensures Tail(r, n) == Body(r)[..n] && Json.Printable(Tail(r, n))
    ensures n > 0 ==> Tail(r, n)[0] == '{' && !Blank(Tail(r, n))
    ensures n > 0 ==> Json.Decode(Tail(r, n)) == if n == |Body(r)| then Some(Json.Obj(r)) else None
  {
    BodyIs(r);
    if n == |Body(r)| {
      assert Body(r)[..n] == Body(r);
    } else {
      Json.TornNeverReads(r, n);
    }
    if n > 0 { assert !White(Tail(r, n)[0]); }
  }

  /** The records whose JSON text reached the file whole. */
  function Reached(rs: seq<Record>, r: Record, n: nat): seq<Record> {
    if n >= |Body(r)| then rs + [r] else rs
  }

  /** The note about a torn last line. */
  function Torn(r: Record, n: nat): Option<nat> {
    if 0 < n < |Body(r)| then Some(n) else None
  }

  lemma GatherLast(rs: seq<Record>, r: Record, n: nat, lines: seq<string>)
    requires 0 < n < |Line(r)| && lines == Bodies(rs) + [Tail(r, n)]
    ensures Gather(lines, |lines|) == Ok((Rows(Reached(rs, r, n)), Torn(r, n)))
  {
    BodiesAt(rs);
    GatherWhole(rs, lines, |rs|);
    assert rs[..|rs|] == rs && (rs + [r])[..|rs|] == rs;
    TailIs(r, n);
  }

  lemma GatherTailed(rs: seq<Record>, r: Record, n: nat)
    requires n < |Line(r)|
    ensures var lines := Lines(Whole(rs) + Tail(r, n));
            Gather(lines, |lines|) == Ok((Rows(Reached(rs, r, n)), Torn(r, n)))
  {
    TailIs(r, n);
    BodyIs(r);
    LinesOfWhole(rs, Tail(r, n));
    LinesOfTail(Tail(r, n));
    if n > 0 {
      GatherLast(rs, r, n, Bodies(rs) + [Tail(r, n)]);
    } else {
      assert Bodies(rs) + [] == Bodies(rs);
      BodiesAt(rs);
      GatherWhole(rs, Bodies(rs), |rs|);
      assert rs[..|rs|] == rs;
    }
  }

  // ----- which rows have a key that can be kept

  /** The row's key, if it has one, holds a scalar. */
  predicate Hashable(r: Record, key: Json.Text) {
    Lookup(r, key).Some? ==> !Lookup(r, key).value.Arr? && !Lookup(r, key).value.Obj?
  }

  function Keys(rs: seq<Record>, key: Json.Text): set<Json.Value> {
    set r | r in rs && Lookup(r, key).Some? :: Lookup(r, key).value
  }

  predicate AllHashable(rs: seq<Record>, key: Json.Text) { forall r :: r in rs ==> Hashable(r, key) }

  lemma AllHashableGrows(before: seq<Record>, r: Record, key: Json.Text)
    ensures AllHashable(before + [r], key) <==> AllHashable(before, key) && Hashable(r, key)
  {
    assert r in before + [r];
  }

  lemma KeyOfRow(r: Record, key: Json.Text)
    ensures KeyOf(Json.Obj(r), key).Ok? <==> Hashable(r, key)
    ensures Hashable(r, key) ==>
              KeyOf(Json.Obj(r), key) == Ok(if Lookup(r, key).Some? then {Lookup(r, key).value} else {})
  {
  }

  lemma {:induction false} KeysOfRows(rs: seq<Record>, key: Json.Text)
    ensures |Rows(rs)| == |rs|
    ensures KeysOf(Rows(rs), key).Ok? <==> AllHashable(rs, key)
    ensures KeysOf(Rows(rs), key).Ok? ==> KeysOf(Rows(rs), key).value == Keys(rs, key)
  {
    if rs != [] {
      var before, r := rs[..|rs| - 1], rs[|rs| - 1];
      KeysOfRows(before, key);
      assert rs == before + [r];
      KeysOfOneMore(Rows(before), Json.Obj(r), key);
      AllHashableGrows(before, r, key);
      KeyOfRow(r, key);
      KeysGrow(before, r, key);
    }
  }

  lemma KeysOfOneMore(rows: seq<Json.Value>, row: Json.Value, key: Json.Text)
    ensures KeysOf(rows + [row], key).Ok? <==> KeysOf(rows, key).Ok? && KeyOf(row, key).Ok?
    ensures KeysOf(rows + [row], key).Ok? ==>
              KeysOf(rows + [row], key).value == KeysOf(rows, key).value + KeyOf(row, key).value
  {
    assert (rows + [row])[..|rows|] == rows;
  }

  /** The kept keys and the records that raise, by the records' own pairs. */
  lemma RecordKeysMean(rs: seq<Record>, key: Json.Text)
    ensures forall v :: v in Keys(rs, key) <==> exists r: Record :: r in rs && Holds(r, key, v)
    ensures !AllHashable(rs, key) <==> exists r: Record, v :: r in rs && Holds(r, key, v) && (v.Arr? || v.Obj?)
  {
    forall r: Record, v ensures Lookup(r, key) == Some(v) <==> Holds(r, key, v) { LookupMeans(r, key, v); }
  }

  lemma KeysGrow(before: seq<Record>, r: Record, key: Json.Text)
    ensures Keys(before + [r], key) ==
            Keys(before, key) + if Lookup(r, key).Some? then {Lookup(r, key).value} else {}
  {
  }

  /** A file of whole lines and a tail reads back exactly the records that reached it whole, in order,
      with a note if the tail is torn.  It raises only over a key whose value is a list or a dict. */
  lemma TailedFileReads(rs: seq<Record>, r: Record, n: nat, key: Json.Text)
    requires n < |Line(r)|
    ensures var got, whole := Survived(Some(Whole(rs) + Tail(r, n)), key), Reached(rs, r, n);
            && (got.Ok? <==> AllHashable(whole, key))
            && (got.Ok? ==> got.value == Survivors(Rows(whole), Keys(whole, key), Torn(r, n)))
  {
    GatherTailed(rs, r, n);
    KeysOfRows(Reached(rs, r, n), key);
  }

  /** The same with the tail a front of a line, up to the line itself. */
  lemma FrontFileReads(rs: seq<Record>, r: Record, n: nat, key: Json.Text)
    requires n <= |Line(r)|
    ensures var got, whole := Survived(Some(Whole(rs) + Line(r)[..n]), key), Reached(rs, r, n);
            && (got.Ok? <==> AllHashable(whole, key))
            && (got.Ok? ==> got.value == Survivors(Rows(whole), Keys(whole, key), Torn(r, n)))
  {
    if n < |Line(r)| {
      TailedFileReads(rs, r, n, key);
    } else {
      WholeGrows(rs, r);
      WholeFileReads(rs + [r], key);
      assert Line(r)[..n] == Line(r);
    }
  }

  lemma WholeFileReads(rs: seq<Record>, key: Json.Text)
    ensures var got := Survived(Some(Whole(rs)), key);
            && (got.Ok? <==> AllHashable(rs, key))
            && (got.Ok? ==> got.value == Survivors(Rows(rs), Keys(rs, key), None))
  {
    BodyIs(Json.NoFields);
    TailedFileReads(rs, Json.NoFields, 0, key);
    assert Whole(rs) + Tail(Json.NoFields, 0) == Whole(rs);
  }

  lemma {:induction false} WholeGrows(rs: seq<Record>, r: Record)
    ensures Whole(rs + [r]) == Whole(rs) + Line(r)
  {
    if rs == [] {
      assert [r][1..] == [] && Line(r) + "" == Line(r) == "" + Line(r) && [] + [r] == [r];
    } else {
      assert (rs + [r])[1..] == rs[1..] + [r];
      WholeGrows(rs[1..], r);
      Associates(Line(rs[0]), Whole(rs[1..]), Line(r));
    }
  }

  // ----- appending behind a tail

  lemma GluedIs(r: Record, n: nat, next: Record)
    requires 0 < n < |Line(r)|
    ensures var t := Tail(r, n) + Body(next);
            Json.Printable(t) && !Blank(t) && Json.Decode(t).None? && (t + "\n") == Tail(r, n) + Line(next)
  {
    TailIs(r, n);
    BodyIs(next);
    Associates(Tail(r, n), Body(next), "\n");
    if n == |Body(r)| {
      assert Tail(r, n) == Body(r);
      Json.GluedToWholeNeverReads(r, next);
    } else {
      Json.GluedToCutNeverReads(r, n, next);
    }
    assert !White((Tail(r, n) + Body(next))[0]);
  }

  lemma GluedLines(rs: seq<Record>, r: Record, n: nat, next: Record, k: string)
    requires 0 < n < |Line(r)|
    ensures Lines(Whole(rs) + (Tail(r, n) + Line(next) + k)) == Bodies(rs) + ([Tail(r, n) + Body(next)] + Lines(k))
  {
    GluedIs(r, n, next);
    LinesStep(Tail(r, n) + Body(next), k);
    LinesOfWhole(rs, Tail(r, n) + Line(next) + k);
  }

  lemma GatherGlued(rs: seq<Record>, lines: seq<string>)
    requires Bodies(rs) < lines && |lines| > |rs| && !Blank(lines[|rs|]) && Json.Decode(lines[|rs|]).None?
    ensures |lines| == |rs| + 1 ==> Gather(lines, |lines|) == Ok((Rows(rs), Some(|lines[|rs|]|)))
    ensures |lines| > |rs| + 1 ==> Gather(lines, |lines|).Err?
  {
    GatherWhole(rs, lines, |rs|);
    assert rs[..|rs|] == rs;
    assert |lines| > |rs| + 1 ==> Gather(lines, |rs| + 1).Err?;
    if |lines| > |rs| + 1 { CorruptionStays(lines, |rs| + 1); }
  }

  lemma LinesNotEmpty(t: string)
    requires t != ""
    ensures Lines(t) != []
  {
  }

  lemma Between<T>(a: seq<T>, x: T, b: seq<T>)
    ensures var s := a + ([x] + b); a < s && s[|a|] == x && |s| == |a| + 1 + |b|
  {
  }

  lemma Regroups(a: string, b: string, c: string, d: string)
    ensures a + (b + c + d) == a + b + c + d
  {
  }

  /** The text of whole lines, a tail, a record behind it and more. */
  ghost predicate BehindTail(text: string, rs: seq<Record>, r: Record, n: nat, next: Record, k: string) {
    0 < n < |Line(r)| && text == Whole(rs) + Tail(r, n) + Line(next) + k
  }

  lemma LinesBehindTail(text: string, rs: seq<Record>, r: Record, n: nat, next: Record, k: string)
    requires BehindTail(text, rs, r, n, next, k)
    ensures Lines(text) == Bodies(rs) + ([Tail(r, n) + Body(next)] + Lines(k))
  {
    Regroups(Whole(rs), Tail(r, n), Line(next), k);
    GluedLines(rs, r, n, next, k);
  }

  lemma LineBehindTail(text: string, rs: seq<Record>, r: Record, n: nat, next: Record, k: string)
    requires BehindTail(text, rs, r, n, next, k)
    ensures Bodies(rs) < Lines(text) && |rs| < |Lines(text)| && Lines(text)[|rs|] == Tail(r, n) + Body(next)
    ensures |Lines(text)| > |rs| + 1 <==> k != ""
  {
    LinesBehindTail(text, rs, r, n, next, k);
    BodiesAt(rs);
    if k != "" { LinesNotEmpty(k); }
    Between(Bodies(rs), Tail(r, n) + Body(next), Lines(k));
  }

  lemma GluedReads(r: Record, n: nat, next: Record) returns (t: string)
    requires 0 < n < |Line(r)|
    ensures t == Tail(r, n) + Body(next) && |t| == n + |Body(next)| && !Blank(t) && Json.Decode(t).None?
  {
    GluedIs(r, n, next);
    t := Tail(r, n) + Body(next);
  }

  lemma CorruptBehindTail(text: string, rs: seq<Record>, r: Record, n: nat, next: Record, k: string)
    requires BehindTail(text, rs, r, n, next, k) && k != ""
    ensures Gather(Lines(text), |Lines(text)|).Err?
  {
    var t := GluedReads(r, n, next);
    LineBehindTail(text, rs, r, n, next, k);
    GatherGlued(rs, Lines(text));
  }

  lemma GatheredIsSurvived(text: string, rs: seq<Record>, torn: nat, key: Json.Text)
    requires Gather(Lines(text), |Lines(text)|) == Ok((Rows(rs), Some(torn)))
    requires AllHashable(rs, key)
    ensures Survived(Some(text), key) == Ok(Survivors(Rows(rs), Keys(rs, key), Some(torn)))
  {
    KeysOfRows(rs, key);
  }

  lemma TornBehindTail(text: string, rs: seq<Record>, r: Record, n: nat, next: Record) returns (torn: nat)
    requires BehindTail(text, rs, r, n, next, "")
    ensures torn == n + |Body(next)| && Gather(Lines(text), |Lines(text)|) == Ok((Rows(rs), Some(torn)))
  {
    var t := GluedReads(r, n, next);
    torn := |t|;
    LineBehindTail(text, rs, r, n, next, "");
    GatherGlued(rs, Lines(text));
  }

  /** Behind a tail, be it a torn record or one that lost only its newline, the next record is lost,
      and with it the one in the tail, as a torn last line. */
  lemma AppendToTailLoses(text: string, rs: seq<Record>, r: Record, n: nat, next: Record, key: Json.Text)
    requires BehindTail(text, rs, r, n, next, "") && AllHashable(rs, key)
    ensures Survived(Some(text), key) == Ok(Survivors(Rows(rs), Keys(rs, key), Some(n + |Body(next)|)))
  {
    var torn := TornBehindTail(text, rs, r, n, next);
    GatheredIsSurvived(text, rs, torn, key);
  }

  /** As soon as anything follows them, reading raises. */
  lemma AppendMoreRaises(text: string, rs: seq<Record>, r: Record, n: nat, next: Record, k: string, key: Json.Text)
    requires BehindTail(text, rs, r, n, next, k) && k != ""
    ensures Survived(Some(text), key).Err?
  {
    CorruptBehindTail(text, rs, r, n, next, k);
  }

  // ----- the writer

  /** A path and the temporary file beside it; `tmpSynced` is how much of the temporary an `fsync` has
      covered, and `held` every content the path has had. */
  class LogFile {
    var file: Option<string>
    var tmp: Option<string>
    var tmpSynced: nat
    ghost var held: seq<Option<string>>

    constructor (file: Option<string>)
      ensures this.file == file && tmp == None && tmpSynced == 0 && held == [file]
    {
      this.file, tmp, tmpSynced, held := file, None, 0, [file];
    }

    /** `rewrite_atomically` fills the temporary file line by line, syncs it whole and renames it: the
        path goes from its old content to the rows' lines with nothing in between, and only once every
        byte of them is synced. */
    method RewriteAtomically(rows: seq<Record>)
      modifies this
      ensures file == Some(Whole(rows)) && tmp == None
      ensures held == old(held) + [Some(Whole(rows))] && tmpSynced == |Whole(rows)|
    {
      tmp, tmpSynced := Some(""), 0;
      for i := 0 to |rows|
        invariant file == old(file) && held == old(held) && tmp == Some(Whole(rows[..i]))
      {
        WholeGrows(rows[..i], rows[i]);
        assert rows[..i + 1] == rows[..i] + [rows[i]];
        tmp := Some(tmp.value + Line(rows[i]));
      }
      assert rows[..|rows|] == rows;
      tmpSynced := |tmp.value|;
      file, tmp := tmp, None;
      held := held + [file];
    }
  }

  /** `synced` is how much of the file an `fsync` has covered. */
  class JsonlWriter {
    var file: Option<string>
    var open: bool
    var count: nat
    var synced: nat
    const fsyncEvery: nat

    predicate Valid()
      reads this
    {
      (open ==> file.Some?) && synced <= |file.GetOr("")|
    }

    constructor (file: Option<string>, fsyncEvery: nat)
      ensures Valid() && this.file == file && !open && count == 0 && this.fsyncEvery == fsyncEvery
    {
      this.file, open, count, synced, this.fsyncEvery := file, false, 0, 0, fsyncEvery;
    }

    /** Opening appends: what survived stays. */
    method Enter()
      requires Valid()
      modifies this
      ensures Valid() && open && count == old(count)
      ensures file == Some(old(file).GetOr(""))
    {
      file, open := Some(file.GetOr("")), true;
    }

    /** One row, whole; outside the context manager the assertion fails and nothing happens. */
    method Write(row: Record) returns (ok: bool)
      requires Valid()
      modifies this
      ensures Valid() && ok == old(open) == open
      ensures !ok ==> file == old(file) && count == old(count) && synced == old(synced)
      ensures ok ==> file == Some(old(file).value + Line(row)) && count == old(count) + 1
      ensures ok ==> synced == if fsyncEvery > 0 && count % fsyncEvery == 0 then |file.value| else old(synced)
    {
      ok := open;
      if ok {
        file, count := Some(file.value + Line(row)), count + 1;
        if fsyncEvery > 0 && count % fsyncEvery == 0 { synced := |file.value|; }
      }
    }

    method Exit()
      requires Valid()
      modifies this
      ensures Valid() && !open && file == old(file) && count == old(count)
      ensures old(open) ==> synced == |file.value|
    {
      if open { synced, open := |file.value|, false; }
    }
  }
}
