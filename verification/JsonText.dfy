/**
 JSON texts: the printer that the encoder follows, and a reader written from the grammar of
 RFC 8259 (sections 2 to 7). They meet in TextReadsBack.
 */
module JsonText {
  import opened Options
  import opened Decimal

  datatype Member = Member(name: string, value: Json)

  /** A JSON value; a number is kept as its text, as fastjson keeps it. */
  datatype Json =
    | Null
    | Bool(b: bool)
    | Num(text: string)
    | Str(s: string)
    | Arr(items: seq<Json>)
    | Obj(members: seq<Member>)

  // ---- printing ----

  function Escape(c: char): string {
    if c == '"' then "\\\""
    else if c == '\\' then "\\\\"
    else if c == '\n' then "\\n"
    else if c == '\r' then "\\r"
    else if c == '\t' then "\\t"
    else [c]
  }

  function Escaped(s: string): string {
    if s == "" then "" else Escape(s[0]) + Escaped(s[1..])
  }

  function Quote(s: string): string {
    "\"" + Escaped(s) + "\""
  }

  function Literal(b: bool): string {
    if b then "true" else "false"
  }

  function Print(j: Json): string
    decreases j
  {
    match j
    case Null => "null"
    case Bool(b) => Literal(b)
    case Num(text) => text
    case Str(s) => Quote(s)
    case Arr(items) => "[" + PrintItems(items) + "]"
    case Obj(members) => "{" + PrintMembers(members) + "}"
  }

  function PrintItems(items: seq<Json>): string
    decreases items
  {
    if items == [] then "" else Print(items[0]) + MoreItems(items[1..])
  }

  function MoreItems(items: seq<Json>): string
    decreases items
  {
    if items == [] then "" else "," + Print(items[0]) + MoreItems(items[1..])
  }

  function PrintMember(m: Member): string
    decreases m
  {
    Quote(m.name) + ":" + Print(m.value)
  }

  function PrintMembers(members: seq<Member>): string
    decreases members
  {
    if members == [] then "" else PrintMember(members[0]) + MoreMembers(members[1..])
  }

  function MoreMembers(members: seq<Member>): string
    decreases members
  {
    if members == [] then "" else "," + PrintMember(members[0]) + MoreMembers(members[1..])
  }

  // ---- reading ----

  datatype Parsed<T> = Fail | Done(value: T, rest: string)

  predicate IsSpace(c: char) {
    c == ' ' || c == '\t' || c == '\n' || c == '\r'
  }

  function SkipSpace(s: string): (r: string)
    ensures |r| <= |s|
  {
    if s != "" && IsSpace(s[0]) then SkipSpace(s[1..]) else s
  }

  predicate IsNumberChar(c: char) {
    IsDigit(c) || c == '-' || c == '+' || c == '.' || c == 'e' || c == 'E'
  }

  /** The length of the longest start of s that only has number characters. */
  function NumberRun(s: string): (n: nat)
    ensures n <= |s|
  {
    if s != "" && IsNumberChar(s[0]) then 1 + NumberRun(s[1..]) else 0
  }

  function DigitRun(s: string): (n: nat)
    ensures n <= |s|
  {
    if s != "" && IsDigit(s[0]) then 1 + DigitRun(s[1..]) else 0
  }

  /** number = [ minus ] int [ frac ] [ exp ] */
  predicate IsNumber(s: string) {
    var u := if s != "" && s[0] == '-' then s[1..] else s;
    var n := DigitRun(u);
    n > 0 && (n > 1 ==> u[0] != '0') && IsFraction(u[n..])
  }

  predicate IsFraction(s: string) {
    if s != "" && s[0] == '.' then
      var n := DigitRun(s[1..]);
      n > 0 && IsExponent(s[1..][n..])
    else
      IsExponent(s)
  }

  predicate IsExponent(s: string) {
    s == "" ||
      ((s[0] == 'e' || s[0] == 'E') &&
       var u := if |s| > 1 && (s[1] == '+' || s[1] == '-') then s[2..] else s[1..];
       u != "" && AllDigits(u))
  }

  function HexValue(c: char): Option<nat> {
    if IsDigit(c) then Some(c as int - '0' as int)
    else if 'a' <= c <= 'f' then Some(c as int - 'a' as int + 10)
    else if 'A' <= c <= 'F' then Some(c as int - 'A' as int + 10)
    else None
  }

  /** The code unit of four hexadecimal digits at the start of s. */
  function Hex4(s: string): Option<nat> {
    if |s| < 4 then None else
      match (HexValue(s[0]), HexValue(s[1]), HexValue(s[2]), HexValue(s[3]))
      case (Some(a), Some(b), Some(c), Some(d)) => Some(((a * 16 + b) * 16 + c) * 16 + d)
      case _ => None
  }

  function Surrogates(hi: nat, lo: nat): Option<char> {
    if 0xD800 <= hi < 0xDC00 && 0xDC00 <= lo < 0xE000 then
      Some((0x10000 + (hi - 0xD800) * 0x400 + (lo - 0xDC00)) as char)
    else None
  }

  /** The character of a \u escape whose digits start s, and how much of s it takes. */
  function ReadUnicode(s: string): Option<(char, nat)> {
    match Hex4(s)
    case None => None
    case Some(u) =>
      if u < 0xD800 || 0xE000 <= u < 0x10000 then Some((u as char, 4))
      else if |s| < 10 || s[4..6] != "\\u" then None
      else
        match Hex4(s[6..])
        case None => None
        case Some(lo) =>
          match Surrogates(u, lo)
          case None => None
          case Some(c) => Some((c, 10))
  }

  /** A character or an escape at the start of s, and how much of s it takes. */
  function ReadChar(s: string): (r: Option<(char, nat)>)
    requires s != ""
    ensures r.Some? ==> 0 < r.value.1 <= |s|
  {
    if s[0] != '\\' then
      if s[0] < ' ' then None else Some((s[0], 1))
    else if |s| < 2 then None
    else match s[1]
      case '"' => Some(('"', 2))
      case '\\' => Some(('\\', 2))
      case '/' => Some(('/', 2))
      case 'b' => Some((8 as char, 2))
      case 'f' => Some((12 as char, 2))
      case 'n' => Some(('\n', 2))
      case 'r' => Some(('\r', 2))
      case 't' => Some(('\t', 2))
      case 'u' =>
        (match ReadUnicode(s[2..])
         case None => None
         case Some(p) => if p.1 <= |s| - 2 then Some((p.0, p.1 + 2)) else None)
      case _ => None
  }

  /** The rest of a string, after its opening quote. */
  function ReadChars(s: string): (r: Parsed<string>)
    ensures r.Done? ==> |r.rest| < |s|
    decreases |s|
  {
    if s == "" then Fail
    else if s[0] == '"' then Done("", s[1..])
    else
      match ReadChar(s)
      case None => Fail
      case Some((c, n)) =>
        match ReadChars(s[n..])
        case Fail => Fail
        case Done(t, rest) => Done([c] + t, rest)
  }

  function ReadWord(s: string, word: string, j: Json): (r: Parsed<Json>)
    requires word != ""
    ensures r.Done? ==> |r.rest| < |s|
  {
    if word <= s then Done(j, s[|word|..]) else Fail
  }

  function ReadNumber(s: string): (r: Parsed<Json>)
    ensures r.Done? ==> |r.rest| < |s|
  {
    var n := NumberRun(s);
    if IsNumber(s[..n]) then Done(Num(s[..n]), s[n..]) else Fail
  }

  function ReadValue(s: string): (r: Parsed<Json>)
    ensures r.Done? ==> |r.rest| < |s|
    decreases |s|, 0
  {
    var t := SkipSpace(s);
    if t == "" then Fail
    else if t[0] == '"' then
      match ReadChars(t[1..])
      case Fail => Fail
      case Done(str, rest) => Done(Str(str), rest)
    else if t[0] == '[' then ReadArray(t[1..])
    else if t[0] == '{' then ReadObject(t[1..])
    else if t[0] == 'n' then ReadWord(t, "null", Null)
    else if t[0] == 't' then ReadWord(t, "true", Bool(true))
    else if t[0] == 'f' then ReadWord(t, "false", Bool(false))
    else ReadNumber(t)
  }

  function ReadArray(s: string): (r: Parsed<Json>)
    ensures r.Done? ==> |r.rest| < |s|
    decreases |s|, 2
  {
    var t := SkipSpace(s);
    if t != "" && t[0] == ']' then Done(Arr([]), t[1..])
    else
      match ReadItems(t)
      case Fail => Fail
      case Done(items, rest) => Done(Arr(items), rest)
  }

  function ReadItems(s: string): (r: Parsed<seq<Json>>)
    ensures r.Done? ==> |r.rest| < |s|
    decreases |s|, 1
  {
    match ReadValue(s)
    case Fail => Fail
    case Done(j, rest) =>
      var t := SkipSpace(rest);
      if t == "" then Fail
      else if t[0] == ']' then Done([j], t[1..])
      else if t[0] != ',' then Fail
      else
        match ReadItems(t[1..])
        case Fail => Fail
        case Done(items, rest') => Done([j] + items, rest')
  }

  function ReadObject(s: string): (r: Parsed<Json>)
    ensures r.Done? ==> |r.rest| < |s|
    decreases |s|, 2
  {
    var t := SkipSpace(s);
    if t != "" && t[0] == '}' then Done(Obj([]), t[1..])
    else
      match ReadMembers(t)
      case Fail => Fail
      case Done(members, rest) => Done(Obj(members), rest)
  }

  function ReadMember(s: string): (r: Parsed<Member>)
    ensures r.Done? ==> |r.rest| < |s|
    decreases |s|, 0
  {
    var t := SkipSpace(s);
    if t == "" || t[0] != '"' then Fail
    else
      match ReadChars(t[1..])
      case Fail => Fail
      case Done(name, rest) =>
        var u := SkipSpace(rest);
        if u == "" || u[0] != ':' then Fail
        else
          match ReadValue(u[1..])
          case Fail => Fail
          case Done(j, rest') => Done(Member(name, j), rest')
  }

  function ReadMembers(s: string): (r: Parsed<seq<Member>>)
    ensures r.Done? ==> |r.rest| < |s|
    decreases |s|, 1
  {
    match ReadMember(s)
    case Fail => Fail
    case Done(m, rest) =>
      var t := SkipSpace(rest);
      if t == "" then Fail
      else if t[0] == '}' then Done([m], t[1..])
      else if t[0] != ',' then Fail
      else
        match ReadMembers(t[1..])
        case Fail => Fail
        case Done(members, rest') => Done([m] + members, rest')
  }

  /** JSON-text = ws value ws */
  function Read(s: string): Option<Json> {
    match ReadValue(s)
    case Fail => None
    case Done(j, rest) => if SkipSpace(rest) == "" then Some(j) else None
  }

  // ---- printed texts read back ----

  /** A character that the encoder prints legally: it escapes only these three control characters. */
  predicate CleanChar(c: char) {
    c >= ' ' || c == '\n' || c == '\r' || c == '\t'
  }

  predicate CleanString(s: string) {
    forall i :: 0 <= i < |s| ==> CleanChar(s[i])
  }

  predicate Clean(j: Json)
    decreases j
  {
    match j
    case Str(s) => CleanString(s)
    case Arr(items) => CleanItems(items)
    case Obj(members) => CleanMembers(members)
    case _ => true
  }

  predicate CleanItems(items: seq<Json>)
    decreases items
  {
    items == [] || (Clean(items[0]) && CleanItems(items[1..]))
  }

  predicate CleanMember(m: Member)
    decreases m
  {
    CleanString(m.name) && Clean(m.value)
  }

  predicate CleanMembers(members: seq<Member>)
    decreases members
  {
    members == [] || (CleanMember(members[0]) && CleanMembers(members[1..]))
  }

  /** Every number in the value carries the text of a number. */
  predicate Numeric(j: Json)
    decreases j
  {
    match j
    case Num(text) => IsNumber(text)
    case Arr(items) => NumericItems(items)
    case Obj(members) => NumericMembers(members)
    case _ => true
  }

  predicate NumericItems(items: seq<Json>)
    decreases items
  {
    items == [] || (Numeric(items[0]) && NumericItems(items[1..]))
  }

  predicate NumericMember(m: Member)
    decreases m
  {
    Numeric(m.value)
  }

  predicate NumericMembers(members: seq<Member>)
    decreases members
  {
    members == [] || (NumericMember(members[0]) && NumericMembers(members[1..]))
  }

  /** What may follow a value: nothing, a comma or a closing bracket. */
  predicate Stops(rest: string) {
    rest == "" || rest[0] == ',' || rest[0] == ']' || rest[0] == '}'
  }

  function Outcome<T>(ok: bool, value: T, rest: string): Parsed<T> {
    if ok then Done(value, rest) else Fail
  }

  lemma {:induction false} CharReads(c: char, rest: string)
    requires c != '"'
    ensures Escape(c) + rest != "" && (Escape(c) + rest)[0] != '"'
    ensures ReadChar(Escape(c) + rest) == if CleanChar(c) then Some((c, |Escape(c)|)) else None
  {
  }

  lemma {:induction false} QuoteReads(rest: string)
    ensures Escape('"') + rest != "" && (Escape('"') + rest)[0] == '\\'
    ensures ReadChar(Escape('"') + rest) == Some(('"', 2))
  {
  }

  lemma {:induction false} CharsRead(s: string, rest: string)
    ensures ReadChars(Escaped(s) + "\"" + rest) == Outcome(CleanString(s), s, rest)
  {
    if s == "" {
      assert "" + "\"" + rest == "\"" + rest;
      assert ("\"" + rest)[1..] == rest;
    } else {
      var e, tail := Escape(s[0]), Escaped(s[1..]) + "\"" + rest;
      assert Escaped(s) + "\"" + rest == e + tail;
      assert (e + tail)[|e|..] == tail;
      CharsRead(s[1..], rest);
      if s[0] == '"' { QuoteReads(tail); } else { CharReads(s[0], tail); }
      assert s == [s[0]] + s[1..];
      CleanStep(s);
    }
  }

  lemma {:induction false} CleanStep(s: string)
    requires s != ""
    ensures CleanString(s) <==> CleanChar(s[0]) && CleanString(s[1..])
  {
    assert forall i :: 1 <= i < |s| ==> s[i] == s[1..][i - 1];
  }

  predicate NumberChars(s: string) {
    forall i :: 0 <= i < |s| ==> IsNumberChar(s[i])
  }

  lemma {:induction false} DigitRunChars(s: string)
    ensures AllDigits(s[..DigitRun(s)])
  {
    if s != "" && IsDigit(s[0]) {
      DigitRunChars(s[1..]);
      assert s[..DigitRun(s)] == [s[0]] + s[1..][..DigitRun(s[1..])];
    }
  }

  lemma {:induction false} DigitRunAll(s: string)
    requires AllDigits(s)
    ensures DigitRun(s) == |s|
  {
    if s != "" {
      DigitRunAll(s[1..]);
    }
  }

  lemma {:induction false} CharsJoin(a: string, b: string)
    requires NumberChars(a) && NumberChars(b)
    ensures NumberChars(a + b)
  {
  }

  lemma {:induction false} ExponentChars(s: string)
    requires IsExponent(s)
    ensures NumberChars(s)
  {
    if s != "" {
      var u := if |s| > 1 && (s[1] == '+' || s[1] == '-') then s[2..] else s[1..];
      assert NumberChars(u);
      assert s == s[..|s| - |u|] + u;
      CharsJoin(s[..|s| - |u|], u);
    }
  }

  lemma {:induction false} FractionChars(s: string)
    requires IsFraction(s)
    ensures NumberChars(s)
  {
    if s != "" && s[0] == '.' {
      var n := DigitRun(s[1..]);
      DigitRunChars(s[1..]);
      ExponentChars(s[1..][n..]);
      CharsJoin(s[1..][..n], s[1..][n..]);
      assert s[1..] == s[1..][..n] + s[1..][n..];
      CharsJoin(".", s[1..]);
      assert s == "." + s[1..];
    } else {
      ExponentChars(s);
    }
  }

  lemma {:induction false} Halves(u: string, n: nat)
    requires 0 < n <= |u| && AllDigits(u[..n]) && NumberChars(u[n..])
    ensures NumberChars(u) && u != "" && IsDigit(u[0])
  {
    CharsJoin(u[..n], u[n..]);
    assert u == u[..n] + u[n..];
  }

  lemma {:induction false} UnsignedChars(u: string)
    requires DigitRun(u) > 0 && IsFraction(u[DigitRun(u)..])
    ensures NumberChars(u) && u != "" && IsDigit(u[0])
  {
    DigitRunChars(u);
    FractionChars(u[DigitRun(u)..]);
    Halves(u, DigitRun(u));
  }

  lemma {:induction false} IsNumberChars(s: string)
    requires IsNumber(s)
    ensures NumberChars(s) && s != "" && (s[0] == '-' || IsDigit(s[0]))
  {
    if s != "" && s[0] == '-' {
      UnsignedChars(s[1..]);
      assert s == "-" + s[1..];
      CharsJoin("-", s[1..]);
    } else {
      UnsignedChars(s);
    }
  }

  lemma {:induction false} NumberRunStops(s: string, rest: string)
    requires NumberChars(s) && Stops(rest)
    ensures NumberRun(s + rest) == |s|
  {
    if s == "" {
      assert "" + rest == rest;
    } else {
      NumberRunStops(s[1..], rest);
      assert (s + rest)[1..] == s[1..] + rest;
    }
  }

  /** The decimal form of an integer is a number of the grammar. */
  lemma {:induction false} IntegerIsNumber(n: int)
    ensures IsNumber(Integer(n))
  {
    var m := if n < 0 then -n else n;
    NaturalReads(m);
    DigitRunAll(Natural(m));
    if n < 0 {
      assert Integer(n)[1..] == Natural(m);
    }
    assert Natural(m)[|Natural(m)|..] == "";
  }

  lemma {:induction false} NumberReads(text: string, rest: string)
    requires IsNumber(text) && Stops(rest)
    ensures ReadValue(text + rest) == Done(Num(text), rest)
  {
    IsNumberChars(text);
    NumberRunStops(text, rest);
    assert (text + rest)[0] == text[0];
    assert (text + rest)[..|text|] == text && (text + rest)[|text|..] == rest;
  }

  lemma {:induction false} StringReads(s: string, rest: string)
    ensures ReadValue(Quote(s) + rest) == Outcome(CleanString(s), Str(s), rest)
  {
    CharsRead(s, rest);
    assert (Quote(s) + rest)[0] == '"' && (Quote(s) + rest)[1..] == Escaped(s) + "\"" + rest;
  }

  lemma {:induction false} WordReads(word: string, j: Json, rest: string)
    requires word != ""
    ensures ReadWord(word + rest, word, j) == Done(j, rest)
  {
    assert (word + rest)[|word|..] == rest;
  }

  /** A printed value starts with neither a space nor a closing bracket. */
  lemma {:induction false} PrintStarts(j: Json)
    requires Numeric(j)
    ensures Print(j) != "" && !IsSpace(Print(j)[0]) && Print(j)[0] != ']'
  {
    match j
    case Num(text) => IsNumberChars(text);
    case _ =>
  }

  /** A printed value reads back as itself, whatever stopper follows; an illegal string stops the reader. */
  lemma {:induction false} ValueReads(j: Json, rest: string)
    requires Numeric(j) && Stops(rest)
    ensures ReadValue(Print(j) + rest) == Outcome(Clean(j), j, rest)
    decreases j, 1
  {
    match j
    case Null => WordReads("null", Null, rest);
    case Bool(b) => WordReads(Literal(b), j, rest);
    case Num(text) => NumberReads(text, rest);
    case Str(s) => StringReads(s, rest);
    case Arr(items) =>
      ArrayReads(items, rest);
      Bracketed("[", PrintItems(items), "]", rest);
    case Obj(members) =>
      ObjectReads(members, rest);
      Bracketed("{", PrintMembers(members), "}", rest);
  }

  lemma {:induction false} Bracketed(open: string, body: string, close: string, rest: string)
    requires open == "[" || open == "{"
    ensures ReadValue(open + body + close + rest) ==
            if open == "[" then ReadArray(body + close + rest) else ReadObject(body + close + rest)
  {
    var t := open + body + close + rest;
    assert t[0] == open[0] && t[1..] == body + close + rest;
  }

  lemma {:induction false} Regroup(a: string, b: string, c: string)
    ensures a + b + c == a + (b + c)
  {
  }

  lemma {:induction false} AfterComma(a: string, b: string, c: string)
    ensures ("," + a + b + c)[1..] == a + b + c
  {
  }

  lemma {:induction false} NoSpace(s: string)
    requires s != "" && s[0] in "]}\""
    ensures SkipSpace(s) == s
  {
    assert s[0] == ']' || s[0] == '}' || s[0] == '"';
  }

  lemma {:induction false} ArrayReads(items: seq<Json>, rest: string)
    requires NumericItems(items) && Stops(rest)
    ensures ReadArray(PrintItems(items) + "]" + rest) == Outcome(CleanItems(items), Arr(items), rest)
    decreases items, 2
  {
    var end := "]" + rest;
    assert end[1..] == rest;
    var t := PrintItems(items) + end;
    assert PrintItems(items) + "]" + rest == t;
    if items == [] {
      assert t == end;
      NoSpace(end);
    } else {
      ItemsRead(items, end);
      PrintStarts(items[0]);
      ItemsText(items, end);
      assert t[0] == Print(items[0])[0];
    }
  }

  lemma {:induction false} ItemsText(items: seq<Json>, end: string)
    requires items != []
    ensures PrintItems(items) + end == Print(items[0]) + (MoreItems(items[1..]) + end)
    ensures items[1..] != [] ==> (MoreItems(items[1..]) + end)[1..] == PrintItems(items[1..]) + end
  {
    Regroup(Print(items[0]), MoreItems(items[1..]), end);
    if items[1..] != [] {
      AfterComma(Print(items[1]), MoreItems(items[2..]), end);
      assert items[1..][1..] == items[2..];
    }
  }

  lemma {:induction false} MoreStarts(items: seq<Json>, end: string)
    requires end != "" && (end[0] == ']' || end[0] == '}')
    ensures var t := MoreItems(items) + end; Stops(t) && t != "" && SkipSpace(t) == t
    ensures items != [] ==> (MoreItems(items) + end)[0] == ','
  {
  }

  lemma {:induction false} ItemsStep(s: string, j: Json, after: string)
    requires ReadValue(s) == Done(j, after) && after != "" && SkipSpace(after) == after
    ensures after[0] == ']' ==> ReadItems(s) == Done([j], after[1..])
    ensures after[0] == ',' ==>
              (ReadItems(s) == var r := ReadItems(after[1..]); if r.Fail? then Fail else Done([j] + r.value, r.rest))
  {
  }

  lemma {:induction false} ItemsRead(items: seq<Json>, end: string)
    requires items != [] && NumericItems(items)
    requires end != "" && end[0] == ']' && Stops(end[1..])
    ensures ReadItems(PrintItems(items) + end) == Outcome(CleanItems(items), items, end[1..])
    decreases items, 1
  {
    var s, after := PrintItems(items) + end, MoreItems(items[1..]) + end;
    ItemsText(items, end);
    MoreStarts(items[1..], end);
    ValueReads(items[0], after);
    if Clean(items[0]) {
      ItemsStep(s, items[0], after);
      assert items == [items[0]] + items[1..];
      if items[1..] == [] {
        assert after == end;
        assert items == [items[0]];
        assert ReadItems(s) == Done(items, end[1..]);
      } else {
        ItemsRead(items[1..], end);
        assert after[1..] == PrintItems(items[1..]) + end;
        assert ReadItems(s) == Outcome(CleanItems(items[1..]), items, end[1..]);
      }
    } else {
      assert ReadValue(s).Fail?;
    }
  }

  lemma {:induction false} ObjectReads(members: seq<Member>, rest: string)
    requires NumericMembers(members) && Stops(rest)
    ensures ReadObject(PrintMembers(members) + "}" + rest) == Outcome(CleanMembers(members), Obj(members), rest)
    decreases members, 2
  {
    var end := "}" + rest;
    assert end[1..] == rest;
    var t := PrintMembers(members) + end;
    assert PrintMembers(members) + "}" + rest == t;
    if members == [] {
      assert t == end;
      NoSpace(end);
    } else {
      MembersRead(members, end);
      MembersText(members, end);
      assert t[0] == '"';
      NoSpace(t);
    }
  }

  lemma {:induction false} MembersText(members: seq<Member>, end: string)
    requires members != []
    ensures PrintMembers(members) + end == PrintMember(members[0]) + (MoreMembers(members[1..]) + end)
    ensures members[1..] != [] ==> (MoreMembers(members[1..]) + end)[1..] == PrintMembers(members[1..]) + end
  {
    var m, more := PrintMember(members[0]), MoreMembers(members[1..]);
    Regroup(m, more, end);
    if members[1..] != [] {
      AfterComma(PrintMember(members[1]), MoreMembers(members[2..]), end);
      assert members[1..][1..] == members[2..];
    }
  }

  lemma {:induction false} MoreMembersStart(members: seq<Member>, end: string)
    requires end != "" && (end[0] == ']' || end[0] == '}')
    ensures var t := MoreMembers(members) + end; Stops(t) && t != "" && SkipSpace(t) == t
    ensures members != [] ==> (MoreMembers(members) + end)[0] == ','
  {
  }

  lemma {:induction false} MembersStep(s: string, m: Member, after: string)
    requires ReadMember(s) == Done(m, after) && after != "" && SkipSpace(after) == after
    ensures after[0] == '}' ==> ReadMembers(s) == Done([m], after[1..])
    ensures after[0] == ',' ==>
              (ReadMembers(s) == var r := ReadMembers(after[1..]); if r.Fail? then Fail else Done([m] + r.value, r.rest))
  {
  }

  lemma {:induction false} MembersRead(members: seq<Member>, end: string)
    requires members != [] && NumericMembers(members)
    requires end != "" && end[0] == '}' && Stops(end[1..])
    ensures ReadMembers(PrintMembers(members) + end) == Outcome(CleanMembers(members), members, end[1..])
    decreases members, 1
  {
    var s, after := PrintMembers(members) + end, MoreMembers(members[1..]) + end;
    MembersText(members, end);
    MoreMembersStart(members[1..], end);
    MemberReads(members[0], after);
    if CleanMember(members[0]) {
      MembersStep(s, members[0], after);
      assert members == [members[0]] + members[1..];
      if members[1..] == [] {
        assert after == end;
        assert members == [members[0]];
        assert ReadMembers(s) == Done(members, end[1..]);
      } else {
        MembersRead(members[1..], end);
        assert after[1..] == PrintMembers(members[1..]) + end;
        assert ReadMembers(s) == Outcome(CleanMembers(members[1..]), members, end[1..]);
      }
    } else {
      assert ReadMember(s).Fail?;
    }
  }

  lemma {:induction false} MemberText(m: Member, rest: string)
    ensures var after := ":" + (Print(m.value) + rest);
            PrintMember(m) + rest == "\"" + (Escaped(m.name) + "\"" + after) && after[1..] == Print(m.value) + rest
  {
    var v := Print(m.value);
    assert Quote(m.name) + ":" + v + rest == "\"" + (Escaped(m.name) + "\"" + (":" + (v + rest)));
  }

  lemma {:induction false} MemberReads(m: Member, rest: string)
    requires NumericMember(m) && Stops(rest)
    ensures ReadMember(PrintMember(m) + rest) == Outcome(CleanMember(m), m, rest)
    decreases m, 1
  {
    var after := ":" + (Print(m.value) + rest);
    var name := Escaped(m.name) + "\"" + after;
    MemberText(m, rest);
    assert ("\"" + name)[1..] == name;
    CharsRead(m.name, after);
    ValueReads(m.value, rest);
  }

  /**
   The encoder's texts are JSON texts that denote the printed value, exactly when no string holds
   a control character other than newline, carriage return and tab.
   */
  lemma {:induction false} TextReadsBack(j: Json)
    requires Numeric(j)
    ensures Read(Print(j)) == if Clean(j) then Some(j) else None
  {
    ValueReads(j, "");
    assert Print(j) + "" == Print(j);
  }
}
