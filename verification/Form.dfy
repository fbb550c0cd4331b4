/** Form binding of bodyparser_form.go: dotted and indexed keys bound to nested values. */
module Form {
  import opened Options
  import opened Decimal
  import opened JsonSchema
  import opened Sets

  /** url.Values: the values given for each key. */
  type Values = map<string, seq<string>>

  // ---- scalars ----

  /** strconv.ParseBool */
  function ParseBool(s: string): Option<bool> {
    if s in ["1", "t", "T", "TRUE", "true", "True"] then Some(true)
    else if s in ["0", "f", "F", "FALSE", "false", "False"] then Some(false)
    else None
  }

  /** strconv.ParseInt in base ten: an optional sign, digits, and a result of the given width. */
  function ParseInt(s: string, bits: nat): Option<int> {
    var digits := if s != "" && (s[0] == '-' || s[0] == '+') then s[1..] else s;
    if digits == "" || !AllDigits(digits) then None
    else
      var n := if s[0] == '-' then 0 - ValueOf(digits) else ValueOf(digits);
      if InRange(n, bits) then Some(n) else None
  }

  datatype Parsed = Nil | Got(value: Value) | Malformed

  /** PrimitiveFromStr; the empty string is nil. */
  function Parse(s: Shape, text: string): Parsed {
    match s
    case StrKind => if text == "" then Nil else Got(StrV(text))
    case BoolKind =>
      (match ParseBool(text)
       case Some(b) => Got(BoolV(b))
       case None => Malformed)
    case IntKind(bits) =>
      (match ParseInt(text, bits)
       case Some(n) => Got(IntV(n))
       case None => Malformed)
    case _ => Malformed
  }

  /** bindValue of the parsed text; nil leaves the field as it is. */
  function BindScalar(s: Shape, text: string, body: Value): Option<Value> {
    match Parse(s, text)
    case Nil => Some(body)
    case Got(v) => Some(v)
    case Malformed => None
  }

  /** runValidation on the parsed text. */
  predicate TextPasses(r: Rule, text: string) {
    var p := Parse(r.shape, text);
    Passes(r, if p.Got? then Some(p.value) else None)
  }

  function BindScalars(s: Shape, texts: seq<string>, done: seq<Value>): Option<Value> {
    if texts == [] then Some(SliceV(done))
    else
      match BindScalar(s, texts[0], Zero(s))
      case None => None
      case Some(v) => BindScalars(s, texts[1..], done + [v])
  }

  // ---- prefixes ----

  function IndexPrefix(key: string, i: nat): string {
    key + "." + Natural(i) + "."
  }

  predicate Found(form: Values, prefix: string) {
    exists k :: k in form && prefix <= k
  }

  /** The entries under a prefix, with the prefix cut off. */
  function Sub(form: Values, prefix: string): Values {
    map t | t in (set k | k in form && prefix <= k :: k[|prefix|..]) && prefix + t in form :: form[prefix + t]
  }

  lemma {:induction false} SubAt(form: Values, prefix: string, t: string)
    ensures t in Sub(form, prefix) <==> prefix + t in form
    ensures t in Sub(form, prefix) ==> Sub(form, prefix)[t] == form[prefix + t]
  {
    if prefix + t in form {
      assert (prefix + t)[|prefix|..] == t;
    }
  }

  predicate DotFree(s: string) {
    forall i :: 0 <= i < |s| ==> s[i] != '.'
  }

  /** Two dot-free words that both stand before a dot at the start of k are one word. */
  lemma {:induction false} WordBeforeDot(a: string, b: string, k: string)
    requires DotFree(a) && DotFree(b) && a + "." <= k && b + "." <= k
    ensures a == b
  {
    assert k[..|a|] == a && k[|a|] == '.';
    assert k[..|b|] == b && k[|b|] == '.';
  }

  lemma {:induction false} NaturalDotFree(n: nat)
    ensures DotFree(Natural(n))
  {
    NaturalReads(n);
    forall i | 0 <= i < |Natural(n)|
      ensures Natural(n)[i] != '.'
    {
      assert IsDigit(Natural(n)[i]);
    }
  }

  /** No key has two indices. */
  lemma {:induction false} IndexUnique(key: string, i: nat, j: nat, k: string)
    requires IndexPrefix(key, i) <= k && IndexPrefix(key, j) <= k
    ensures i == j
  {
    var base := key + ".";
    var rest := k[|base|..];
    NaturalDotFree(i);
    NaturalDotFree(j);
    AfterBase(base, Natural(i) + ".", k);
    AfterBase(base, Natural(j) + ".", k);
    assert IndexPrefix(key, i) == base + (Natural(i) + ".");
    assert IndexPrefix(key, j) == base + (Natural(j) + ".");
    WordBeforeDot(Natural(i), Natural(j), rest);
    NaturalInjective(i, j);
  }

  lemma {:induction false} AfterBase(base: string, t: string, k: string)
    ensures base + t <= k <==> base <= k && t <= k[|base|..]
  {
    if base <= k && t <= k[|base|..] {
      assert k == base + k[|base|..];
      assert k[..|base + t|] == base + t;
    }
    if base + t <= k {
      assert k[..|base|] == base;
      assert k[|base|..][..|t|] == (base + t)[|base|..];
    }
  }

  /** The keys whose index is at least i. */
  ghost function KeysFrom(form: Values, key: string, i: nat): set<string> {
    set k | k in form && exists j: nat :: i <= j && IndexPrefix(key, j) <= k
  }

  /** A round that finds a key with index i uses up keys that no later round can see. */
  lemma {:induction false} KeysFall(form: Values, key: string, i: nat)
    requires Found(form, IndexPrefix(key, i))
    ensures |KeysFrom(form, key, i + 1)| < |KeysFrom(form, key, i)|
  {
    var k :| k in form && IndexPrefix(key, i) <= k;
    var now, next := KeysFrom(form, key, i), KeysFrom(form, key, i + 1);
    assert k in now;
    if k in next {
      var j: nat :| i + 1 <= j && IndexPrefix(key, j) <= k;
      IndexUnique(key, i, j, k);
    }
    assert next <= now - {k};
    Smaller(next, now, k);
  }

  lemma {:induction false} Smaller(a: set<string>, b: set<string>, k: string)
    requires a <= b - {k} && k in b
    ensures |a| < |b|
  {
    Subset(a, b - {k});
  }

  // ---- the specification; None is an error report ----

  /** bindStruct: every field of the struct, each from its own keys. */
  function Bind(form: Values, r: Rule, body: Value): Option<Value>
    decreases r, 2
  {
    if r.shape.Struct? && body.StructV? && |body.fields| == |r.shape.props| then
      var fs := seq(|body.fields|, i requires 0 <= i < |body.fields| => BindField(form, r.shape.props[i], body.fields[i]));
      if AllSome(fs) then Some(StructV(Unwrapped(fs))) else None
    else None
  }

  predicate AllSome(fs: seq<Option<Value>>) {
    forall i :: 0 <= i < |fs| ==> fs[i].Some?
  }

  function Unwrapped(fs: seq<Option<Value>>): (vs: seq<Value>)
    requires AllSome(fs)
    ensures |vs| == |fs| && forall i :: 0 <= i < |fs| ==> vs[i] == fs[i].value
  {
    seq(|fs|, i requires 0 <= i < |fs| => fs[i].value)
  }

  function BindField(form: Values, p: Prop, body: Value): Option<Value>
    decreases p.rule, 3
  {
    match p.rule.shape
    case Slice(item) =>
      if item.shape.Struct? then BindItems(form, p.name, item, 0, [])
      else BindScalars(item.shape, if p.name in form then form[p.name] else [], [])
    case Struct(_) => Bind(Sub(form, p.name + "."), p.rule, body)
    case s =>
      if p.name !in form then (if p.rule.Flagged() then None else Some(body))
      else if form[p.name] == [] then Some(body)
      else BindScalar(s, form[p.name][0], body)
  }

  /** The indexed loop from index i on. */
  function BindItems(form: Values, key: string, item: Rule, i: nat, done: seq<Value>): Option<Value>
    decreases item, 3, |KeysFrom(form, key, i)|
  {
    if !Found(form, IndexPrefix(key, i)) then Some(SliceV(done))
    else
      match Bind(Sub(form, IndexPrefix(key, i)), item, Zero(item.shape))
      case None => None
      case Some(v) =>
        KeysFall(form, key, i);
        BindItems(form, key, item, i + 1, done + [v])
  }

  /** A field of the body itself: one without keys is skipped, unless it is flagged; a scalar's validators run. */
  function BindTop(form: Values, p: Prop, body: Value): Option<Value> {
    var s := p.rule.shape;
    if p.name !in form && !((s.Slice? || s.Struct?) && Found(form, p.name + ".")) then
      (if p.rule.Flagged() then None else Some(body))
    else if Scalar(s) && form[p.name] != [] && !TextPasses(p.rule, form[p.name][0]) then None
    else
      var v := BindField(form, p, body);
      if s.Slice? && s.item.shape.Struct? && p.rule.required && !p.rule.Present() && v == Some(SliceV([])) then None else v
  }

  function BindBody(form: Values, r: Rule, body: Value): Option<Value> {
    if r.shape.Struct? && body.StructV? && |body.fields| == |r.shape.props| then
      var fs := seq(|body.fields|, i requires 0 <= i < |body.fields| => BindTop(form, r.shape.props[i], body.fields[i]));
      if AllSome(fs) then Some(StructV(Unwrapped(fs))) else None
    else None
  }

  // ---- the binder ----

  function UpTo(n: nat): (s: set<nat>)
    ensures forall i: nat :: i in s <==> i < n
  {
    if n == 0 then {} else UpTo(n - 1) + {n - 1}
  }

  method HasPrefix(form: Values, prefix: string) returns (found: bool)
    ensures found <==> Found(form, prefix)
  {
    var todo := form.Keys;
    found := false;
    while todo != {}
      invariant todo <= form.Keys
      invariant forall k :: k in form && k !in todo ==> !(prefix <= k)
      decreases |todo|
    {
      var k :| k in todo;
      if prefix <= k {
        return true;
      }
      todo := todo - {k};
    }
  }

  method SubForm(form: Values, prefix: string) returns (sub: Values)
    ensures sub == Sub(form, prefix)
  {
    sub := map[];
    var todo := form.Keys;
    while todo != {}
      invariant todo <= form.Keys
      invariant forall t :: t in sub <==> prefix + t in form && prefix + t !in todo
      invariant forall t :: t in sub ==> sub[t] == form[prefix + t]
      decreases |todo|
    {
      var k :| k in todo;
      if prefix <= k {
        assert prefix + k[|prefix|..] == k;
        forall t | prefix + t == k
          ensures t == k[|prefix|..]
        {
          assert (prefix + t)[|prefix|..] == t;
        }
        sub := sub[k[|prefix|..] := form[k]];
      }
      todo := todo - {k};
    }
    forall t: string
      ensures t in sub <==> t in Sub(form, prefix)
      ensures t in sub ==> sub[t] == Sub(form, prefix)[t]
    {
      SubAt(form, prefix, t);
    }
    assert sub == Sub(form, prefix);
  }

  /** The range over properties visits the fields in any order; one failed field fails the struct. */
  method BindStruct(form: Values, r: Rule, body: Value) returns (res: Option<Value>)
    requires r.shape.Struct? && body.StructV? && |body.fields| == |r.shape.props|
    ensures res == Bind(form, r, body)
    decreases r, 2
  {
    var fields := body.fields;
    var todo := UpTo(|fields|);
    while todo != {}
      invariant |fields| == |body.fields|
      invariant forall i :: i in todo ==> 0 <= i < |fields| && fields[i] == body.fields[i]
      invariant forall i :: 0 <= i < |fields| && i !in todo ==>
                  BindField(form, r.shape.props[i], body.fields[i]) == Some(fields[i])
      decreases |todo|
    {
      var i :| i in todo;
      var f := BindOne(form, r.shape.props[i], fields[i]);
      if f.None? {
        ghost var fs := seq(|body.fields|, k requires 0 <= k < |body.fields| =>
          BindField(form, r.shape.props[k], body.fields[k]));
        assert fs[i].None?;
        return None;
      }
      fields := fields[i := f.value];
      todo := todo - {i};
    }
    ghost var fs := seq(|body.fields|,
        i requires 0 <= i < |body.fields| => BindField(form, r.shape.props[i], body.fields[i]));
    assert fields == Unwrapped(fs);
    res := Some(StructV(fields));
  }

  method BindOne(form: Values, p: Prop, body: Value) returns (res: Option<Value>)
    ensures res == BindField(form, p, body)
    decreases p.rule, 3
  {
    match p.rule.shape {
      case Slice(item) =>
        if item.shape.Struct? {
          res := BindIndexed(form, p.name, item);
        } else {
          var texts := if p.name in form then form[p.name] else [];
          res := BindTexts(item.shape, texts);
        }
      case Struct(props) =>
        if body.StructV? && |body.fields| == |props| {
          var sub := SubForm(form, p.name + ".");
          res := BindStruct(sub, p.rule, body);
        } else {
          res := None;
        }
      case s =>
        if p.name !in form {
          if p.rule.Flagged() {
            return None;
          }
          return Some(body);
        }
        if |form[p.name]| > 0 {
          res := BindScalar(s, form[p.name][0], body);
        } else {
          res := Some(body);
        }
    }
  }

  method BindTexts(s: Shape, texts: seq<string>) returns (res: Option<Value>)
    ensures res == BindScalars(s, texts, [])
  {
    var done: seq<Value> := [];
    assert texts[0..] == texts;
    for i := 0 to |texts|
      invariant BindScalars(s, texts, []) == BindScalars(s, texts[i..], done)
    {
      assert texts[i..][1..] == texts[i + 1..];
      var v := BindScalar(s, texts[i], Zero(s));
      if v.None? {
        return None;
      }
      done := done + [v.value];
    }
    res := Some(SliceV(done));
  }

  /** The loop over key.0., key.1., … has no bound of its own: it ends because the keys run out. */
  method BindIndexed(form: Values, key: string, item: Rule) returns (res: Option<Value>)
    requires item.shape.Struct?
    ensures res == BindItems(form, key, item, 0, [])
    decreases item, 3
  {
    var i := 0;
    var done: seq<Value> := [];
    while true
      invariant BindItems(form, key, item, 0, []) == BindItems(form, key, item, i, done)
      decreases |KeysFrom(form, key, i)|
    {
      var prefix := IndexPrefix(key, i);
      var found := HasPrefix(form, prefix);
      if !found {
        break;
      }
      KeysFall(form, key, i);
      var sub := SubForm(form, prefix);
      ZeroFields(item.shape);
      var v := BindStruct(sub, item, Zero(item.shape));
      if v.None? {
        return None;
      }
      done := done + [v.value];
      i := i + 1;
    }
    res := Some(SliceV(done));
  }

  lemma {:induction false} ZeroFields(s: Shape)
    requires s.Struct?
    ensures Zero(s).StructV? && |Zero(s).fields| == |s.props|
  {
  }

  method DecodeBody(form: Values, r: Rule, body: Value) returns (res: Option<Value>)
    requires r.shape.Struct? && body.StructV? && |body.fields| == |r.shape.props|
    ensures res == BindBody(form, r, body)
  {
    var fields := body.fields;
    var todo := UpTo(|fields|);
    while todo != {}
      invariant |fields| == |body.fields|
      invariant forall i :: i in todo ==> 0 <= i < |fields| && fields[i] == body.fields[i]
      invariant forall i :: 0 <= i < |fields| && i !in todo ==>
                  BindTop(form, r.shape.props[i], body.fields[i]) == Some(fields[i])
      decreases |todo|
    {
      var i :| i in todo;
      var f := DecodeField(form, r.shape.props[i], fields[i]);
      if f.None? {
        ghost var fs := seq(|body.fields|, k requires 0 <= k < |body.fields| =>
          BindTop(form, r.shape.props[k], body.fields[k]));
        assert fs[i].None?;
        return None;
      }
      fields := fields[i := f.value];
      todo := todo - {i};
    }
    ghost var fs := seq(|body.fields|,
        i requires 0 <= i < |body.fields| => BindTop(form, r.shape.props[i], body.fields[i]));
    assert fields == Unwrapped(fs);
    res := Some(StructV(fields));
  }

  method DecodeField(form: Values, p: Prop, body: Value) returns (res: Option<Value>)
    ensures res == BindTop(form, p, body)
  {
    var hasNested := false;
    if p.rule.shape.Slice? || p.rule.shape.Struct? {
      hasNested := HasPrefix(form, p.name + ".");
    }
    if p.name !in form && !hasNested {
      if p.rule.Flagged() {
        return None;
      }
      return Some(body);
    }
    if Scalar(p.rule.shape) && |form[p.name]| > 0 {
      var val := Parse(p.rule.shape, form[p.name][0]);
      if val.Malformed? || !Passes(p.rule, if val.Got? then Some(val.value) else None) {
        return None;
      }
    }
    res := BindOne(form, p, body);
    if p.rule.shape.Slice? && p.rule.shape.item.shape.Struct? {
      if res == Some(SliceV([])) && p.rule.required && !p.rule.Present() {
        res := None;
      }
    }
  }
}
