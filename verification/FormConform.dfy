/**
 Which forms the binder takes and what it makes of them, for every form, rule and destination: stated over
 the keys and their texts.
 */
module FormConform {
  import opened Options
  import opened Decimal
  import opened JsonSchema
  import opened JsonConform
  import opened Form
  import R = FormRoundTrip

  // ---- texts ----

  const TRUE_TEXTS: set<string> := {"1", "t", "T", "true", "TRUE", "True"}
  const FALSE_TEXTS: set<string> := {"0", "f", "F", "false", "FALSE", "False"}

  /** Decimal digits behind at most one sign. */
  predicate Signed(text: string) {
    text != "" &&
    if text[0] == '-' || text[0] == '+' then |text| > 1 && AllDigits(text[1..]) else AllDigits(text)
  }

  function SignedValue(text: string): int
    requires Signed(text)
  {
    if text[0] == '-' then 0 - ValueOf(text[1..])
    else if text[0] == '+' then ValueOf(text[1..])
    else ValueOf(text)
  }

  predicate TextOk(s: Shape, text: string) {
    match s
    case BoolKind => text in TRUE_TEXTS || text in FALSE_TEXTS
    case StrKind => true
    case IntKind(bits) => Signed(text) && 0 - Pow2(Width(bits) - 1) <= SignedValue(text) < Pow2(Width(bits) - 1)
    case _ => false
  }

  /** The value of a text; the empty string leaves what is there. */
  predicate TextMeans(s: Shape, text: string, body: Value, v: Value) {
    match s
    case BoolKind => v == BoolV(text in TRUE_TEXTS)
    case StrKind => v == if text == "" then body else StrV(text)
    case IntKind(_) => Signed(text) && v == IntV(SignedValue(text))
    case _ => false
  }

  lemma {:induction false} TextBinds(s: Shape, text: string, body: Value)
    requires Fits(s, body)
    ensures var res := BindScalar(s, text, body);
            && (res.Some? <==> TextOk(s, text))
            && (res.Some? ==> Fits(s, res.value) && TextMeans(s, text, body, res.value))
  {
    if s.IntKind? {
      HalfIsPower(s.bits);
    }
  }

  // ---- forms ----

  /** The form can be bound to the struct: each field from its own keys. */
  ghost predicate FormOk(form: Values, r: Rule)
    decreases r, 2
  {
    r.shape.Struct? && forall i :: 0 <= i < |r.shape.props| ==> FieldOk(form, r.shape.props[i])
  }

  ghost predicate FieldOk(form: Values, p: Prop)
    decreases p.rule, 3
  {
    match p.rule.shape
    case Slice(item) =>
      if item.shape.Struct? then Numbered(form, p.name, item, 0)
      else p.name in form ==> forall i :: 0 <= i < |form[p.name]| ==> TextOk(item.shape, form[p.name][i])
    case Struct(_) => FormOk(Sub(form, p.name + "."), p.rule)
    case s =>
      if p.name !in form then !Wanted(p.rule)
      else form[p.name] == [] || TextOk(s, form[p.name][0])
  }

  /** From index i on the elements come without a gap, and each can be bound. */
  ghost predicate Numbered(form: Values, key: string, item: Rule, i: nat)
    decreases item, 3, 2
  {
    exists n: nat :: Elements(form, key, item, i, n)
  }

  /** From index i up to n there are entries for each element, and none for n. */
  ghost predicate Elements(form: Values, key: string, item: Rule, i: nat, n: nat)
    decreases item, 3, 1
  {
    && i <= n && !Found(form, key + "." + Natural(n) + ".")
    && forall k: nat :: i <= k < n ==> Element(form, key, item, k)
  }

  ghost predicate Element(form: Values, key: string, item: Rule, k: nat)
    decreases item, 3, 0
  {
    Found(form, key + "." + Natural(k) + ".") && FormOk(Sub(form, key + "." + Natural(k) + "."), item)
  }

  /** A field of the body: its scalar also passes the validators, and a required slice of structs has an element. */
  ghost predicate TopOk(form: Values, p: Prop) {
    var s := p.rule.shape;
    if p.name !in form && !((s.Slice? || s.Struct?) && Found(form, p.name + ".")) then !Wanted(p.rule)
    else
      && FieldOk(form, p)
      && (Scalar(s) && form[p.name] != [] ==> Accepts(p.rule, form[p.name][0]))
      && (s.Slice? && s.item.shape.Struct? && p.rule.required && !p.rule.allowZero && !p.rule.presentTag ==>
            Found(form, p.name + ".0."))
  }

  /** The empty string is no value; a zero is one, but not to required alone. */
  predicate Accepts(r: Rule, text: string) {
    match r.shape
    case StrKind => Wanted(r) ==> text != ""
    case BoolKind => NonZero(r) ==> text in TRUE_TEXTS
    case IntKind(_) => NonZero(r) && Signed(text) ==> SignedValue(text) != 0
    case _ => true
  }

  // ---- what a bound form means ----

  /** v is what the form makes of a struct that holds body. */
  ghost predicate FormMeans(form: Values, r: Rule, body: Value, v: Value)
    decreases r, 2
  {
    r.shape.Struct? && v.StructV? && body.StructV? && |v.fields| == |body.fields| == |r.shape.props| &&
    forall i :: 0 <= i < |r.shape.props| ==> FieldMeans(form, r.shape.props[i], body.fields[i], v.fields[i])
  }

  ghost predicate FieldMeans(form: Values, p: Prop, body: Value, v: Value)
    decreases p.rule, 3
  {
    match p.rule.shape
    case Slice(item) =>
      v.SliceV? &&
      if item.shape.Struct? then ItemsMean(form, p.name, item, 0, v.items)
      else TextsMean(item.shape, if p.name in form then form[p.name] else [], v.items)
    case Struct(_) => FormMeans(Sub(form, p.name + "."), p.rule, body, v)
    case s => if p.name !in form || form[p.name] == [] then v == body else TextMeans(s, form[p.name][0], body, v)
  }

  /** From index i on each item comes from the entries of its own index, and there are none behind the last. */
  ghost predicate ItemsMean(form: Values, key: string, item: Rule, i: nat, items: seq<Value>)
    decreases item, 3, 1
  {
    && i <= |items| && !Found(form, key + "." + Natural(|items|) + ".")
    && forall k :: i <= k < |items| ==> ItemMeans(form, key, item, k, items[k])
  }

  ghost predicate ItemMeans(form: Values, key: string, item: Rule, k: nat, v: Value)
    decreases item, 3, 0
  {
    FormMeans(Sub(form, key + "." + Natural(k) + "."), item, Zero(item.shape), v)
  }

  predicate TextsMean(s: Shape, texts: seq<string>, items: seq<Value>) {
    |items| == |texts| && forall i :: 0 <= i < |texts| ==> TextMeans(s, texts[i], Zero(s), items[i])
  }

  /** A field of the body without keys keeps what is there. */
  ghost predicate TopMeans(form: Values, p: Prop, body: Value, v: Value) {
    var s := p.rule.shape;
    if p.name !in form && !((s.Slice? || s.Struct?) && Found(form, p.name + ".")) then v == body
    else FieldMeans(form, p, body, v)
  }

  // ---- the binder ----

  lemma {:induction false} TextsBind(s: Shape, texts: seq<string>, done: seq<Value>)
    requires forall i :: 0 <= i < |done| ==> Fits(s, done[i])
    ensures var res := BindScalars(s, texts, done);
            && (res.Some? <==> forall i :: 0 <= i < |texts| ==> TextOk(s, texts[i]))
            && (res.Some? ==> res.value.SliceV? && forall i :: 0 <= i < |res.value.items| ==> Fits(s, res.value.items[i]))
            && (res.Some? ==> done <= res.value.items && TextsMean(s, texts, res.value.items[|done|..]))
    decreases |texts|
  {
    if texts != [] {
      ZeroFits(s);
      TextBinds(s, texts[0], Zero(s));
      assert forall i :: 1 <= i < |texts| ==> texts[i] == texts[1..][i - 1];
      var v := BindScalar(s, texts[0], Zero(s));
      if v.Some? {
        TextsBind(s, texts[1..], done + [v.value]);
        var res := BindScalars(s, texts, done);
        if res.Some? {
          TextsMeanStep(s, texts, done, v.value, res.value.items);
        }
      }
    }
  }

  lemma TextsMeanStep(s: Shape, texts: seq<string>, done: seq<Value>, v: Value, items: seq<Value>)
    requires texts != [] && done + [v] <= items && TextMeans(s, texts[0], Zero(s), v)
    requires TextsMean(s, texts[1..], items[|done + [v]|..])
    ensures done <= items && TextsMean(s, texts, items[|done|..])
  {
    var rest := items[|done|..];
    assert items[|done + [v]|..] == rest[1..] && rest[0] == v;
    forall i | 0 <= i < |texts| ensures TextMeans(s, texts[i], Zero(s), rest[i]) {
      assert i > 0 ==> texts[i] == texts[1..][i - 1] && rest[i] == rest[1..][i - 1];
    }
  }

  /** Binding a struct succeeds exactly on the forms that can be bound, with the value of its type that they mean. */
  lemma {:induction false} BindOk(form: Values, r: Rule, body: Value)
    requires r.shape.Struct? && Fits(r.shape, body)
    ensures var res := Bind(form, r, body);
            (res.Some? <==> FormOk(form, r)) &&
            (res.Some? ==> Fits(r.shape, res.value) && FormMeans(form, r, body, res.value))
    decreases r, 2
  {
    var props := r.shape.props;
    var fs := seq(|body.fields|, i requires 0 <= i < |body.fields| => BindField(form, props[i], body.fields[i]));
    forall i | 0 <= i < |props|
      ensures fs[i].Some? <==> FieldOk(form, props[i])
      ensures fs[i].Some? ==> Fits(props[i].rule.shape, fs[i].value) && FieldMeans(form, props[i], body.fields[i], fs[i].value)
    {
      FieldBindsOk(form, props[i], body.fields[i]);
    }
  }

  lemma {:induction false} FieldBindsOk(form: Values, p: Prop, body: Value)
    requires Fits(p.rule.shape, body)
    ensures var res := BindField(form, p, body);
            (res.Some? <==> FieldOk(form, p)) &&
            (res.Some? ==> Fits(p.rule.shape, res.value) && FieldMeans(form, p, body, res.value))
    decreases p.rule, 3
  {
    match p.rule.shape {
      case Slice(item) =>
        if item.shape.Struct? {
          ItemsOk(form, p.name, item, 0, []);
        } else {
          var texts := if p.name in form then form[p.name] else [];
          TextsBind(item.shape, texts, []);
          var res := BindScalars(item.shape, texts, []);
          assert res.Some? ==> res.value.items[0..] == res.value.items;
        }
      case Struct(_) => BindOk(Sub(form, p.name + "."), p.rule, body);
      case s =>
        if p.name in form && form[p.name] != [] {
          TextBinds(s, form[p.name][0], body);
        }
    }
  }

  lemma {:induction false} ItemsOk(form: Values, key: string, item: Rule, i: nat, done: seq<Value>)
    requires item.shape.Struct? && |done| == i && forall k :: 0 <= k < |done| ==> Fits(item.shape, done[k])
    ensures var res := BindItems(form, key, item, i, done);
            && (res.Some? <==> Numbered(form, key, item, i))
            && (res.Some? ==> res.value.SliceV? &&
                              forall k :: 0 <= k < |res.value.items| ==> Fits(item.shape, res.value.items[k]))
            && (res.Some? ==> done <= res.value.items && ItemsMean(form, key, item, i, res.value.items))
    decreases item, 3, |KeysFrom(form, key, i)|
  {
    var prefix := IndexPrefix(key, i);
    assert prefix == key + "." + Natural(i) + ".";
    if Found(form, prefix) {
      ZeroFits(item.shape);
      BindOk(Sub(form, prefix), item, Zero(item.shape));
      KeysFall(form, key, i);
      var v := Bind(Sub(form, prefix), item, Zero(item.shape));
      if v.Some? {
        ItemsOk(form, key, item, i + 1, done + [v.value]);
        assert ItemMeans(form, key, item, i, v.value);
      }
      OneElementMore(form, key, item, i, i + 1);
    } else {
      assert Elements(form, key, item, i, i);
    }
  }

  lemma {:induction false} OneElementMore(form: Values, key: string, item: Rule, i: nat, j: nat)
    requires Found(form, key + "." + Natural(i) + ".") && j == i + 1
    ensures Numbered(form, key, item, i) <==> Element(form, key, item, i) && Numbered(form, key, item, j)
  {
    if n: nat :| Elements(form, key, item, i, n) {
      assert n != i && Element(form, key, item, i);
      assert Elements(form, key, item, j, n);
    }
    if Element(form, key, item, i) {
      if n: nat :| Elements(form, key, item, j, n) {
        assert Elements(form, key, item, i, n);
      }
    }
  }

  /** A scalar's text passes the validators exactly if the rule accepts it. */
  lemma {:induction false} TextPassesIff(r: Rule, text: string)
    requires Scalar(r.shape) && TextOk(r.shape, text)
    ensures TextPasses(r, text) <==> Accepts(r, text)
  {
    var p := Parse(r.shape, text);
    ZeroFits(r.shape);
    TextBinds(r.shape, text, Zero(r.shape));
    if p.Got? {
      PassesIff(r, Some(p.value));
    } else {
      PassesIff(r, None);
    }
  }

  lemma {:induction false} TopBindsOk(form: Values, p: Prop, body: Value)
    requires Fits(p.rule.shape, body)
    ensures var res := BindTop(form, p, body);
            (res.Some? <==> TopOk(form, p)) &&
            (res.Some? ==> Fits(p.rule.shape, res.value) && TopMeans(form, p, body, res.value))
  {
    FieldBindsOk(form, p, body);
    var s := p.rule.shape;
    if Scalar(s) && p.name in form && form[p.name] != [] && TextOk(s, form[p.name][0]) {
      TextPassesIff(p.rule, form[p.name][0]);
    }
    if s.Slice? && s.item.shape.Struct? {
      EmptySlice(form, p.name, s.item);
    }
  }

  /** The slice is empty exactly if there is no entry for element zero. */
  lemma {:induction false} EmptySlice(form: Values, key: string, item: Rule)
    ensures BindItems(form, key, item, 0, []) == Some(SliceV([])) <==> !Found(form, key + ".0.")
  {
    var v := SliceV([]);
    assert v.items[..0] == [];
    R.ItemsRead(form, key, item, 0, v);
    R.IndicesFromZero(key);
  }

  /** Binding a body succeeds exactly when every field of it can be bound, with the value that its keys mean. */
  lemma {:induction false} BodyOk(form: Values, r: Rule, body: Value)
    requires r.shape.Struct? && Fits(r.shape, body)
    ensures var res := BindBody(form, r, body);
            && (res.Some? <==> forall i :: 0 <= i < |r.shape.props| ==> TopOk(form, r.shape.props[i]))
            && (res.Some? ==> Fits(r.shape, res.value) && forall i :: 0 <= i < |r.shape.props| ==>
                  TopMeans(form, r.shape.props[i], body.fields[i], res.value.fields[i]))
  {
    var props := r.shape.props;
    var fs := seq(|body.fields|, i requires 0 <= i < |body.fields| => BindTop(form, props[i], body.fields[i]));
    forall i | 0 <= i < |props|
      ensures fs[i].Some? <==> TopOk(form, props[i])
      ensures fs[i].Some? ==> Fits(props[i].rule.shape, fs[i].value) && TopMeans(form, props[i], body.fields[i], fs[i].value)
    {
      TopBindsOk(form, props[i], body.fields[i]);
    }
  }
}
