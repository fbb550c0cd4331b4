/** Flattening a nested value into dotted and indexed keys, and binding it back. */
module FormRoundTrip {
  import opened Options
  import opened Decimal
  import opened JsonSchema
  import opened Form

  /** Scalars, slices of scalars or structs, and structs, with dot-free names told apart. */
  ghost predicate FormRule(r: Rule)
    decreases r
  {
    match r.shape
    case Slice(item) => Scalar(item.shape) || (item.shape.Struct? && FormRule(item))
    case MapOf(_) => false
    case Struct(props) =>
      DistinctNames(props) &&
      forall i :: 0 <= i < |props| ==> DotFree(props[i].name) && FormRule(props[i].rule)
    case _ => true
  }

  // ---- flattening ----

  function Text(v: Value): string {
    match v
    case BoolV(b) => if b then "true" else "false"
    case IntV(n) => Integer(n)
    case StrV(s) => s
    case _ => ""
  }

  function Texts(vs: seq<Value>): (ts: seq<string>)
    ensures |ts| == |vs| && forall i :: 0 <= i < |vs| ==> ts[i] == Text(vs[i])
  {
    seq(|vs|, i requires 0 <= i < |vs| => Text(vs[i]))
  }

  function Prefixed(prefix: string, form: Values): Values {
    map k | k in (set t | t in form :: prefix + t) && k[|prefix|..] in form :: form[k[|prefix|..]]
  }

  /** The entries of all the forms; the binder never lets two of them share a key. */
  function Union(forms: seq<Values>): Values {
    if forms == [] then map[] else Union(forms[..|forms| - 1]) + forms[|forms| - 1]
  }

  /** The form a client sends for a struct; it may leave out an empty scalar that is marked omitEmpty. */
  function Flatten(r: Rule, v: Value): Values
    requires FormRule(r) && r.shape.Struct? && Fits(r.shape, v)
    decreases v, 2
  {
    Union(FieldForms(r, v))
  }

  function FieldForms(r: Rule, v: Value): (forms: seq<Values>)
    requires FormRule(r) && r.shape.Struct? && Fits(r.shape, v)
    ensures |forms| == |r.shape.props|
    decreases v, 1
  {
    seq(|r.shape.props|, i requires 0 <= i < |r.shape.props| => FieldForm(r.shape.props[i], v.fields[i]))
  }

  function FieldForm(p: Prop, v: Value): Values
    requires FormRule(p.rule) && Fits(p.rule.shape, v)
    decreases v, 3
  {
    match p.rule.shape
    case Slice(item) =>
      if item.shape.Struct? then Union(ItemForms(p.name, p.rule, v))
      else if v.items == [] then map[]
      else map[p.name := Texts(v.items)]
    case Struct(_) => Prefixed(p.name + ".", Flatten(p.rule, v))
    case _ => if p.omitEmpty && IsEmpty(v) then map[] else map[p.name := [Text(v)]]
  }

  function ItemForms(key: string, r: Rule, v: Value): (forms: seq<Values>)
    requires FormRule(r) && r.shape.Slice? && r.shape.item.shape.Struct? && Fits(r.shape, v)
    ensures |forms| == |v.items|
    decreases v, 1
  {
    seq(|v.items|, i requires 0 <= i < |v.items| => Prefixed(IndexPrefix(key, i), Flatten(r.shape.item, v.items[i])))
  }

  lemma {:induction false} UnionAt(forms: seq<Values>, i: nat, k: string)
    requires i < |forms| && forall j :: 0 <= j < |forms| && j != i ==> k !in forms[j]
    ensures k in Union(forms) <==> k in forms[i]
    ensures k in forms[i] ==> Union(forms)[k] == forms[i][k]
  {
    var init := forms[..|forms| - 1];
    if i == |init| {
      UnionKeys(init, k);
    } else {
      UnionAt(init, i, k);
    }
  }

  lemma {:induction false} UnionKeys(forms: seq<Values>, k: string)
    ensures k in Union(forms) <==> exists j :: 0 <= j < |forms| && k in forms[j]
  {
    if forms != [] {
      var init := forms[..|forms| - 1];
      UnionKeys(init, k);
      if j :| 0 <= j < |forms| && k in forms[j] {
        assert j < |init| ==> k in init[j];
      }
    }
  }

  lemma {:induction false} PrefixedAt(prefix: string, form: Values, t: string)
    ensures prefix + t in Prefixed(prefix, form) <==> t in form
    ensures t in form ==> Prefixed(prefix, form)[prefix + t] == form[t]
  {
    assert (prefix + t)[|prefix|..] == t;
  }

  lemma {:induction false} PrefixedKeys(prefix: string, form: Values)
    ensures forall k :: k in Prefixed(prefix, form) ==> prefix <= k
    ensures form != map[] ==> Prefixed(prefix, form) != map[]
  {
    if form != map[] {
      var t :| t in form;
      PrefixedAt(prefix, form, t);
    }
  }

  // ---- whose key is it ----

  /** The keys that belong to a field of the given name. */
  predicate Owns(name: string, k: string) {
    k == name || name + "." <= k
  }

  lemma {:induction false} HasDot(a: string, k: string)
    ensures a + "." <= k ==> !DotFree(k)
  {
    if a + "." <= k {
      assert k[|a|] == '.';
    }
  }

  lemma {:induction false} OneOwner(a: string, b: string, k: string)
    requires DotFree(a) && DotFree(b) && Owns(a, k) && Owns(b, k)
    ensures a == b
  {
    HasDot(a, k);
    HasDot(b, k);
    if a + "." <= k && b + "." <= k {
      WordBeforeDot(a, b, k);
    }
  }

  lemma {:induction false} IndexOwned(key: string, i: nat, k: string)
    requires IndexPrefix(key, i) <= k
    ensures key + "." <= k
  {
    assert IndexPrefix(key, i) == (key + ".") + (Natural(i) + ".");
    AfterBase(key + ".", Natural(i) + ".", k);
  }

  lemma {:induction false} FieldKeys(p: Prop, v: Value, k: string)
    requires FormRule(p.rule) && Fits(p.rule.shape, v) && k in FieldForm(p, v)
    ensures Owns(p.name, k)
  {
    match p.rule.shape {
      case Slice(item) =>
        if item.shape.Struct? {
          var i := ItemOf(p, v, k);
          IndexOwned(p.name, i, k);
        }
      case Struct(_) => PrefixedKeys(p.name + ".", Flatten(p.rule, v));
      case _ =>
    }
  }

  /** The item whose form holds the key. */
  lemma {:induction false} ItemOf(p: Prop, v: Value, k: string) returns (i: nat)
    requires FormRule(p.rule) && p.rule.shape.Slice? && p.rule.shape.item.shape.Struct? && Fits(p.rule.shape, v)
    requires k in FieldForm(p, v)
    ensures i < |v.items| && IndexPrefix(p.name, i) <= k
  {
    var forms := ItemForms(p.name, p.rule, v);
    UnionKeys(forms, k);
    i :| 0 <= i < |forms| && k in forms[i];
    PrefixedKeys(IndexPrefix(p.name, i), Flatten(p.rule.shape.item, v.items[i]));
  }

  /** On the keys of the name, form is the field's own form. */
  ghost predicate Agrees(form: Values, own: Values, name: string) {
    forall k :: Owns(name, k) ==> (k in form <==> k in own) && (k in own ==> form[k] == own[k])
  }

  lemma {:induction false} FieldsAgree(r: Rule, v: Value, i: nat)
    requires FormRule(r) && r.shape.Struct? && Fits(r.shape, v) && i < |r.shape.props|
    ensures Agrees(Flatten(r, v), FieldForm(r.shape.props[i], v.fields[i]), r.shape.props[i].name)
  {
    var props, forms := r.shape.props, FieldForms(r, v);
    forall k | Owns(props[i].name, k)
      ensures k in Union(forms) <==> k in forms[i]
      ensures k in forms[i] ==> Union(forms)[k] == forms[i][k]
    {
      forall j | 0 <= j < |forms| && j != i
        ensures k !in forms[j]
      {
        NotTheirs(props[i], props[j], v.fields[j], k);
      }
      UnionAt(forms, i, k);
    }
  }

  lemma {:induction false} NotTheirs(p: Prop, q: Prop, v: Value, k: string)
    requires FormRule(q.rule) && Fits(q.rule.shape, v) && DotFree(p.name) && DotFree(q.name) && p.name != q.name
    requires Owns(p.name, k)
    ensures k !in FieldForm(q, v)
  {
    if k in FieldForm(q, v) {
      FieldKeys(q, v, k);
      OneOwner(p.name, q.name, k);
    }
  }

  lemma {:induction false} ItemAt(p: Prop, v: Value, i: nat, k: string)
    requires FormRule(p.rule) && p.rule.shape.Slice? && p.rule.shape.item.shape.Struct? && Fits(p.rule.shape, v)
    requires i < |v.items| && IndexPrefix(p.name, i) <= k
    ensures var own := Prefixed(IndexPrefix(p.name, i), Flatten(p.rule.shape.item, v.items[i]));
            (k in FieldForm(p, v) <==> k in own) && (k in own ==> FieldForm(p, v)[k] == own[k])
  {
    var forms := ItemForms(p.name, p.rule, v);
    forall j | 0 <= j < |forms| && j != i
      ensures k !in forms[j]
    {
      NotThatItem(p.name, j, Flatten(p.rule.shape.item, v.items[j]), i, k);
    }
    UnionAt(forms, i, k);
  }

  lemma {:induction false} NotThatItem(key: string, n: nat, own: Values, i: nat, k: string)
    requires i != n && IndexPrefix(key, i) <= k
    ensures k !in Prefixed(IndexPrefix(key, n), own)
  {
    PrefixedKeys(IndexPrefix(key, n), own);
    if IndexPrefix(key, n) <= k {
      IndexUnique(key, i, n, k);
    }
  }

  // ---- what is left out of the form, and when that is noticed ----

  /** Every dropped scalar is optional, and every struct in a slice shows at least one key. */
  predicate Shows(r: Rule, v: Value)
    requires FormRule(r) && r.shape.Struct? && Fits(r.shape, v)
    decreases v, 2
  {
    forall i :: 0 <= i < |r.shape.props| ==> FieldShows(r.shape.props[i], v.fields[i])
  }

  predicate FieldShows(p: Prop, v: Value)
    requires FormRule(p.rule) && Fits(p.rule.shape, v)
    decreases v, 3
  {
    match p.rule.shape
    case Slice(item) =>
      !item.shape.Struct? ||
      forall i :: 0 <= i < |v.items| ==> Flatten(item, v.items[i]) != map[] && Shows(item, v.items[i])
    case Struct(_) => Shows(p.rule, v)
    case _ => p.omitEmpty && IsEmpty(v) ==> !p.rule.Flagged()
  }

  // ---- binding undoes flattening ----

  lemma {:induction false} IntegerBinds(n: int, bits: nat)
    requires InRange(n, bits)
    ensures ParseInt(Integer(n), bits) == Some(n)
  {
    NaturalReads(if n < 0 then -n else n);
    if n < 0 {
      assert Integer(n)[1..] == Natural(-n);
    } else {
      assert IsDigit(Natural(n)[0]);
    }
  }

  lemma {:induction false} ScalarBinds(s: Shape, v: Value)
    requires Scalar(s) && Fits(s, v)
    ensures BindScalar(s, Text(v), Zero(s)) == Some(v)
  {
    match s {
      case BoolKind => assert Text(v) == "true" || Text(v) == "false";
      case IntKind(bits) => IntegerBinds(v.n, bits);
      case _ =>
    }
  }

  lemma {:induction false} TextsBind(s: Shape, v: Value, i: nat)
    requires Scalar(s) && v.SliceV? && i <= |v.items|
    requires forall k :: 0 <= k < |v.items| ==> Fits(s, v.items[k])
    ensures BindScalars(s, Texts(v.items)[i..], v.items[..i]) == Some(v)
    decreases |v.items| - i
  {
    if i == |v.items| {
      assert v.items[..i] == v.items;
    } else {
      ScalarBinds(s, v.items[i]);
      NextText(v.items, i);
      OneText(s, Texts(v.items)[i..], v.items[..i], v.items[i]);
      TextsBind(s, v, i + 1);
    }
  }

  lemma OneText(s: Shape, texts: seq<string>, done: seq<Value>, w: Value)
    requires texts != [] && BindScalar(s, texts[0], Zero(s)) == Some(w)
    ensures BindScalars(s, texts, done) == BindScalars(s, texts[1..], done + [w])
  {
  }

  lemma {:induction false} NextText(vs: seq<Value>, i: nat)
    requires i < |vs|
    ensures Texts(vs)[i..] != [] && Texts(vs)[i..][0] == Text(vs[i]) && Texts(vs)[i..][1..] == Texts(vs)[i + 1..]
    ensures vs[..i] + [vs[i]] == vs[..i + 1]
  {
  }

  lemma {:induction false} SubAgrees(form: Values, own: Values, name: string, prefix: string)
    requires Agrees(form, Prefixed(name + ".", own), name) && prefix == name + "."
    ensures Sub(form, prefix) == own
  {
    forall t: string
      ensures t in Sub(form, prefix) <==> t in own
      ensures t in own ==> Sub(form, prefix)[t] == own[t]
    {
      SubAt(form, prefix, t);
      PrefixedAt(prefix, own, t);
      assert Owns(name, prefix + t);
    }
    assert Sub(form, prefix) == own;
  }

  lemma {:induction false} FieldBinds(form: Values, p: Prop, v: Value)
    requires FormRule(p.rule) && Fits(p.rule.shape, v) && Agrees(form, FieldForm(p, v), p.name)
    ensures BindField(form, p, Zero(p.rule.shape)) == Some(v) <==> FieldShows(p, v)
    decreases v, 3
  {
    assert Owns(p.name, p.name);
    match p.rule.shape {
      case Slice(item) =>
        if item.shape.Struct? {
          assert v.items[..0] == [];
          ItemsBind(form, p, v, 0);
          AllShowEach(item, v.items, 0);
        } else {
          TextsBind(item.shape, v, 0);
          assert Texts(v.items)[0..] == Texts(v.items);
          assert v.items[..0] == [];
          if v.items == [] {
            assert Texts(v.items) == [];
          }
        }
      case Struct(_) =>
        SubAgrees(form, Flatten(p.rule, v), p.name, p.name + ".");
        StructBinds(p.rule, v);
      case _ =>
        ScalarBinds(p.rule.shape, v);
    }
  }

  lemma {:induction false} StructBinds(r: Rule, v: Value)
    requires FormRule(r) && r.shape.Struct? && Fits(r.shape, v)
    ensures Bind(Flatten(r, v), r, Zero(r.shape)) == Some(v) <==> Shows(r, v)
    decreases v, 2
  {
    var form, props, zeros := Flatten(r, v), r.shape.props, Zeros(r.shape.props);
    var fs := seq(|zeros|, i requires 0 <= i < |zeros| => BindField(form, props[i], zeros[i]));
    forall i | 0 <= i < |props|
      ensures fs[i] == Some(v.fields[i]) <==> FieldShows(props[i], v.fields[i])
    {
      ZerosAt(props, i);
      FieldsAgree(r, v, i);
      FieldBinds(form, props[i], v.fields[i]);
    }
    AllBound(fs, v.fields);
  }

  lemma {:induction false} AllBound(fs: seq<Option<Value>>, vs: seq<Value>)
    requires |fs| == |vs|
    ensures AllSome(fs) && Unwrapped(fs) == vs <==> forall i :: 0 <= i < |fs| ==> fs[i] == Some(vs[i])
  {
    if forall i :: 0 <= i < |fs| ==> fs[i] == Some(vs[i]) {
      assert Unwrapped(fs) == vs;
    }
  }

  predicate ItemShows(item: Rule, v: Value)
    requires FormRule(item) && item.shape.Struct? && Fits(item.shape, v)
  {
    Flatten(item, v) != map[] && Shows(item, v)
  }

  /** An item's entries in the form are the item's own form. */
  lemma {:induction false} ItemSub(form: Values, p: Prop, v: Value, i: nat)
    requires FormRule(p.rule) && p.rule.shape.Slice? && p.rule.shape.item.shape.Struct? && Fits(p.rule.shape, v)
    requires Agrees(form, FieldForm(p, v), p.name) && i < |v.items|
    ensures Sub(form, IndexPrefix(p.name, i)) == Flatten(p.rule.shape.item, v.items[i])
    ensures Found(form, IndexPrefix(p.name, i)) <==> Flatten(p.rule.shape.item, v.items[i]) != map[]
  {
    var prefix, own := IndexPrefix(p.name, i), Flatten(p.rule.shape.item, v.items[i]);
    forall k | prefix <= k
      ensures (k in form <==> k in Prefixed(prefix, own)) && (k in form ==> form[k] == Prefixed(prefix, own)[k])
    {
      IndexOwned(p.name, i, k);
      assert Owns(p.name, k);
      ItemAt(p, v, i, k);
    }
    SameSub(form, own, prefix);
  }

  lemma {:induction false} SameSub(form: Values, own: Values, prefix: string)
    requires forall k :: prefix <= k ==>
               (k in form <==> k in Prefixed(prefix, own)) && (k in form ==> form[k] == Prefixed(prefix, own)[k])
    ensures Sub(form, prefix) == own && (Found(form, prefix) <==> own != map[])
  {
    forall t: string
      ensures t in Sub(form, prefix) <==> t in own
      ensures t in own ==> Sub(form, prefix)[t] == own[t]
      ensures t in own ==> prefix + t in form && prefix <= prefix + t
    {
      SubAt(form, prefix, t);
      PrefixedAt(prefix, own, t);
      assert prefix <= prefix + t;
    }
    assert Sub(form, prefix) == own;
    if Found(form, prefix) {
      var k :| k in form && prefix <= k;
      assert k == prefix + k[|prefix|..];
    }
    if own != map[] {
      var t :| t in own;
      assert prefix + t in form;
    }
  }

  /** The loop only adds to what it has. */
  lemma {:induction false} ItemsKeep(form: Values, key: string, item: Rule, i: nat, done: seq<Value>)
    ensures var res := BindItems(form, key, item, i, done);
            res.Some? ==> res.value.SliceV? && done <= res.value.items
    decreases |KeysFrom(form, key, i)|
  {
    if Found(form, IndexPrefix(key, i)) {
      KeysFall(form, key, i);
      var v := Bind(Sub(form, IndexPrefix(key, i)), item, Zero(item.shape));
      if v.Some? {
        ItemsKeep(form, key, item, i + 1, done + [v.value]);
      }
    }
  }

  predicate AllShow(item: Rule, items: seq<Value>, i: nat)
    requires FormRule(item) && item.shape.Struct? && i <= |items|
    requires forall k :: 0 <= k < |items| ==> Fits(item.shape, items[k])
    decreases |items| - i
  {
    i == |items| || (ItemShows(item, items[i]) && AllShow(item, items, i + 1))
  }

  lemma {:induction false} AllShowEach(item: Rule, items: seq<Value>, i: nat)
    requires FormRule(item) && item.shape.Struct? && i <= |items|
    requires forall k :: 0 <= k < |items| ==> Fits(item.shape, items[k])
    ensures AllShow(item, items, i) <==> forall k :: i <= k < |items| ==> ItemShows(item, items[k])
    decreases |items| - i
  {
    if i < |items| {
      AllShowEach(item, items, i + 1);
    }
  }

  lemma {:induction false} ItemsBind(form: Values, p: Prop, v: Value, i: nat)
    requires FormRule(p.rule) && p.rule.shape.Slice? && p.rule.shape.item.shape.Struct? && Fits(p.rule.shape, v)
    requires Agrees(form, FieldForm(p, v), p.name) && i <= |v.items|
    ensures BindItems(form, p.name, p.rule.shape.item, i, v.items[..i]) == Some(v) <==>
            AllShow(p.rule.shape.item, v.items, i)
    decreases v, 2, |v.items| - i
  {
    if i == |v.items| {
      assert v.items[..i] == v.items;
      NoMoreItems(form, p, v);
    } else {
      ItemBinds(form, p, v, i);
      ItemsBind(form, p, v, i + 1);
      ItemStep(form, p.name, p.rule.shape.item, v, i);
    }
  }

  lemma {:induction false} ItemBinds(form: Values, p: Prop, v: Value, i: nat)
    requires FormRule(p.rule) && p.rule.shape.Slice? && p.rule.shape.item.shape.Struct? && Fits(p.rule.shape, v)
    requires Agrees(form, FieldForm(p, v), p.name) && i < |v.items|
    ensures var prefix, item := IndexPrefix(p.name, i), p.rule.shape.item;
            Found(form, prefix) && Bind(Sub(form, prefix), item, Zero(item.shape)) == Some(v.items[i]) <==>
            ItemShows(item, v.items[i])
    decreases v, 1
  {
    ItemSub(form, p, v, i);
    StructBinds(p.rule.shape.item, v.items[i]);
  }

  /** One round: the loop goes on to build v only if this item is found and bound as it was. */
  lemma {:induction false} ItemStep(form: Values, key: string, item: Rule, v: Value, i: nat)
    requires v.SliceV? && i < |v.items|
    ensures var prefix := IndexPrefix(key, i);
            BindItems(form, key, item, i, v.items[..i]) == Some(v) <==>
            Found(form, prefix) && Bind(Sub(form, prefix), item, Zero(item.shape)) == Some(v.items[i]) &&
            BindItems(form, key, item, i + 1, v.items[..i + 1]) == Some(v)
  {
    var done := v.items[..i];
    if Found(form, IndexPrefix(key, i)) {
      var w := Bind(Sub(form, IndexPrefix(key, i)), item, Zero(item.shape));
      if w.Some? {
        assert done + [v.items[i]] == v.items[..i + 1];
        ItemsKeep(form, key, item, i + 1, done + [w.value]);
        assert (done + [w.value])[i] == w.value;
      }
    } else {
      assert |done| < |v.items|;
    }
  }

  /** Element i of a slice of structs, under key.i. in decimal. */
  ghost predicate ItemRead(form: Values, key: string, item: Rule, i: nat, w: Value) {
    var prefix := key + "." + Natural(i) + ".";
    Found(form, prefix) && Bind(Sub(form, prefix), item, Zero(item.shape)) == Some(w)
  }

  /** The loop reads element i from exactly the entries under key.i., until an index has none. */
  lemma {:induction false} ItemsRead(form: Values, key: string, item: Rule, i: nat, v: Value)
    requires v.SliceV? && i <= |v.items|
    ensures BindItems(form, key, item, i, v.items[..i]) == Some(v) <==>
            (forall k :: i <= k < |v.items| ==> ItemRead(form, key, item, k, v.items[k])) &&
            !Found(form, key + "." + Natural(|v.items|) + ".")
    decreases |v.items| - i
  {
    if i == |v.items| {
      assert v.items[..i] == v.items;
      LoopEnds(form, key, item, v);
    } else {
      ItemsRead(form, key, item, i + 1, v);
      ItemStep(form, key, item, v, i);
      assert IndexPrefix(key, i) == key + "." + Natural(i) + ".";
      assert BindItems(form, key, item, i, v.items[..i]) == Some(v) <==>
        ItemRead(form, key, item, i, v.items[i]) && BindItems(form, key, item, i + 1, v.items[..i + 1]) == Some(v);
    }
  }

  lemma {:induction false} LoopEnds(form: Values, key: string, item: Rule, v: Value)
    requires v.SliceV?
    ensures BindItems(form, key, item, |v.items|, v.items) == Some(v) <==>
            !Found(form, key + "." + Natural(|v.items|) + ".")
  {
    var prefix := IndexPrefix(key, |v.items|);
    assert prefix == key + "." + Natural(|v.items|) + ".";
    if Found(form, prefix) {
      var w := Bind(Sub(form, prefix), item, Zero(item.shape));
      if w.Some? {
        KeysFall(form, key, |v.items|);
        ItemsKeep(form, key, item, |v.items| + 1, v.items + [w.value]);
      }
    }
  }

  /** The indices are decimal and count from zero. */
  lemma IndicesFromZero(key: string)
    ensures key + "." + Natural(0) + "." == key + ".0." && key + "." + Natural(1) + "." == key + ".1."
    ensures key + "." + Natural(10) + "." == key + ".10."
  {
    assert Natural(0) == "0" && Natural(1) == "1";
    assert Natural(10) == Natural(1) + "0";
    Joined(key, "0");
    Joined(key, "1");
    Joined(key, "10");
  }

  lemma Joined(key: string, n: string)
    ensures key + "." + n + "." == key + ("." + n + ".")
  {
  }

  /** k is key.i.t, for a key t of element i. */
  ghost predicate ItemKey(p: Prop, v: Value, i: nat, t: string, k: string)
    requires FormRule(p.rule) && p.rule.shape.Slice? && p.rule.shape.item.shape.Struct? && Fits(p.rule.shape, v)
  {
    i < |v.items| && t in Flatten(p.rule.shape.item, v.items[i]) && k == p.name + "." + Natural(i) + "." + t
  }

  /** The flattened form of a slice of structs has exactly the keys of its elements. */
  lemma {:induction false} ItemKeys(p: Prop, v: Value, k: string)
    requires FormRule(p.rule) && p.rule.shape.Slice? && p.rule.shape.item.shape.Struct? && Fits(p.rule.shape, v)
    ensures k in FieldForm(p, v) <==> exists i: nat, t :: ItemKey(p, v, i, t, k)
  {
    if k in FieldForm(p, v) {
      var i := ItemOf(p, v, k);
      ItemAt(p, v, i, k);
      PrefixedCut(IndexPrefix(p.name, i), Flatten(p.rule.shape.item, v.items[i]), k);
      assert ItemKey(p, v, i, k[|IndexPrefix(p.name, i)|..], k);
    }
    if i: nat, t :| ItemKey(p, v, i, t, k) {
      ItemEntry(p, v, i, t);
    }
  }

  lemma {:induction false} PrefixedCut(prefix: string, form: Values, k: string)
    requires k in Prefixed(prefix, form)
    ensures prefix <= k && k[|prefix|..] in form && k == prefix + k[|prefix|..]
  {
    PrefixedKeys(prefix, form);
  }

  /** And under each the element's own entry. */
  lemma {:induction false} ItemEntry(p: Prop, v: Value, i: nat, t: string)
    requires FormRule(p.rule) && p.rule.shape.Slice? && p.rule.shape.item.shape.Struct? && Fits(p.rule.shape, v)
    requires i < |v.items| && t in Flatten(p.rule.shape.item, v.items[i])
    ensures var k := p.name + "." + Natural(i) + "." + t;
      k in FieldForm(p, v) && FieldForm(p, v)[k] == Flatten(p.rule.shape.item, v.items[i])[t]
  {
    var prefix, own := IndexPrefix(p.name, i), Flatten(p.rule.shape.item, v.items[i]);
    assert prefix + t == p.name + "." + Natural(i) + "." + t && prefix <= prefix + t;
    PrefixedAt(prefix, own, t);
    ItemAt(p, v, i, prefix + t);
  }

  lemma {:induction false} NoMoreItems(form: Values, p: Prop, v: Value)
    requires FormRule(p.rule) && p.rule.shape.Slice? && p.rule.shape.item.shape.Struct? && Fits(p.rule.shape, v)
    requires Agrees(form, FieldForm(p, v), p.name)
    ensures !Found(form, IndexPrefix(p.name, |v.items|))
  {
    forall k | IndexPrefix(p.name, |v.items|) <= k
      ensures k !in form
    {
      IndexOwned(p.name, |v.items|, k);
      assert Owns(p.name, k);
      if k in FieldForm(p, v) {
        var i := ItemOf(p, v, k);
        IndexUnique(p.name, i, |v.items|, k);
      }
    }
  }

  // ---- the body itself ----

  /**
   A field without keys is skipped, so it must be optional and zero; the validators of a scalar pass,
   to whom an empty string is nil.
   */
  predicate TopShows(p: Prop, v: Value)
    requires FormRule(p.rule) && Fits(p.rule.shape, v)
  {
    if FieldForm(p, v) == map[] then !p.rule.Flagged() && v == Zero(p.rule.shape)
    else FieldShows(p, v) && (Scalar(p.rule.shape) ==> Passes(p.rule, if v == StrV("") then None else Some(v)))
  }

  lemma {:induction false} TopBinds(form: Values, p: Prop, v: Value)
    requires FormRule(p.rule) && Fits(p.rule.shape, v) && Agrees(form, FieldForm(p, v), p.name)
    ensures BindTop(form, p, Zero(p.rule.shape)) == Some(v) <==> TopShows(p, v)
  {
    var own, s := FieldForm(p, v), p.rule.shape;
    FieldBinds(form, p, v);
    assert Owns(p.name, p.name);
    if own == map[] {
      forall k | p.name + "." <= k
        ensures k !in form
      {
        assert Owns(p.name, k);
      }
    } else {
      var k :| k in own;
      FieldKeys(p, v, k);
      assert k in form;
      assert p.name in form || Found(form, p.name + ".");
    }
  }

  /** Binding the flattened body gives the body back, exactly when nothing it needs was left out of the form. */
  lemma {:induction false} BindUndoesFlatten(r: Rule, v: Value)
    requires FormRule(r) && r.shape.Struct? && Fits(r.shape, v)
    ensures BindBody(Flatten(r, v), r, Zero(r.shape)) == Some(v) <==>
            forall i :: 0 <= i < |r.shape.props| ==> TopShows(r.shape.props[i], v.fields[i])
  {
    var form, props, zeros := Flatten(r, v), r.shape.props, Zeros(r.shape.props);
    var fs := seq(|zeros|, i requires 0 <= i < |zeros| => BindTop(form, props[i], zeros[i]));
    forall i | 0 <= i < |props|
      ensures fs[i] == Some(v.fields[i]) <==> TopShows(props[i], v.fields[i])
    {
      ZerosAt(props, i);
      FieldsAgree(r, v, i);
      TopBinds(form, props[i], v.fields[i]);
    }
    AllBound(fs, v.fields);
  }
}
