/**
 What the decoder takes, and what it makes of it, for every node, rule and destination: stated over
 the kinds of JSON values and the ranges of the Go types.
 */
module JsonConform {
  import opened Options
  import opened Decimal
  import opened JsonText
  import opened JsonSchema
  import opened JsonDecoder

  // ---- scalars ----

  /** The kind of JSON value that a scalar field takes; integers are read in 64 bits. */
  predicate Suits(s: Shape, j: Json) {
    match s
    case BoolKind => j.Bool?
    case StrKind => j.Str?
    case IntKind(_) => j.Num? && IsInteger(j.text) && 0 - Pow2(63) <= IntegerOf(j.text) < Pow2(63)
    case _ => false
  }

  /** v is the Go value for j: an integer agrees with it in the bits of its type. */
  predicate Reads(s: Shape, j: Json, v: Value) {
    match s
    case BoolKind => j.Bool? && v == BoolV(j.b)
    case StrKind => j.Str? && v == StrV(j.s)
    case IntKind(bits) =>
      j.Num? && IsInteger(j.text) && v.IntV? &&
      0 - Pow2(Width(bits) - 1) <= v.n < Pow2(Width(bits) - 1) && (v.n - IntegerOf(j.text)) % Pow2(Width(bits)) == 0
    case _ => false
  }

  /** The Go value for j is the zero of its type. */
  predicate Vanishes(s: Shape, j: Json) {
    match s
    case BoolKind => j == Json.Bool(false)
    case StrKind => j == Str("")
    case IntKind(bits) => j.Num? && IsInteger(j.text) && IntegerOf(j.text) % Pow2(Width(bits)) == 0
    case _ => false
  }

  predicate Absence(node: Option<Json>) {
    node == None || node == Some(Json.Null)
  }

  function NonNull(items: seq<Json>): (js: seq<Json>)
    ensures forall i :: 0 <= i < |js| ==> js[i] in items && js[i] != Json.Null
  {
    if items == [] then []
    else if items[0] == Json.Null then NonNull(items[1..])
    else [items[0]] + NonNull(items[1..])
  }

  // ---- whole nodes ----

  /** The node can be decoded under the rule; a node that is no object has no members. */
  ghost predicate Conforms(node: Option<Json>, r: Rule, depth: nat, max: nat)
    decreases r
  {
    depth <= max &&
    if Absence(node) then
      if r.default.Some? then NonZero(r) ==> r.default.value != Zero(r.shape)
      else
        !Wanted(r) ||
        (r.shape.Struct? &&
         forall i :: 0 <= i < |r.shape.props| ==> Conforms(None, r.shape.props[i].rule, depth + 1, max))
    else
      match r.shape
      case Struct(props) =>
        forall i :: 0 <= i < |props| ==> Conforms(Get(node, props[i].name), props[i].rule, depth + 1, max)
      case MapOf(elem) =>
        node.value.Obj? &&
        forall i :: 0 <= i < |node.value.members| ==> Conforms(Some(node.value.members[i].value), elem, depth + 1, max)
      case Slice(item) =>
        node.value.Arr? &&
        if Scalar(item.shape) then
          (forall i :: 0 <= i < |node.value.items| ==>
             node.value.items[i] == Json.Null || Suits(item.shape, node.value.items[i])) &&
          (NonZero(r) ==> NonNull(node.value.items) != [])
        else
          (forall i :: 0 <= i < |node.value.items| ==> Conforms(Some(node.value.items[i]), item, depth + 1, max)) &&
          (NonZero(r) ==> node.value.items != [])
      case _ => Suits(r.shape, node.value) && (NonZero(r) ==> !Vanishes(r.shape, node.value))
  }

  /** No later member has the name. */
  predicate LastNamed(ms: seq<Member>, i: nat)
    requires i < |ms|
  {
    forall k :: i < k < |ms| ==> ms[k].name != ms[i].name
  }

  ghost predicate IsName(ms: seq<Member>, k: string) {
    exists i :: 0 <= i < |ms| && ms[i].name == k
  }

  /** v is what the node makes of a destination that holds body. */
  ghost predicate Means(node: Option<Json>, r: Rule, body: Value, v: Value)
    decreases r, 0
  {
    if Absence(node) && (r.default.Some? || !r.shape.Struct? || !Wanted(r)) then
      v == if r.default.Some? then r.default.value else body
    else
      match r.shape
      case Struct(props) =>
        v.StructV? && body.StructV? && |v.fields| == |body.fields| == |props| &&
        forall i :: 0 <= i < |props| ==> Means(Get(node, props[i].name), props[i].rule, body.fields[i], v.fields[i])
      case MapOf(elem) =>
        v.MapV? && node.value.Obj? && MapMeans(node.value.members, elem, v)
      case Slice(item) =>
        v.SliceV? && node.value.Arr? &&
        if Scalar(item.shape) then
          |v.items| == |NonNull(node.value.items)| &&
          forall i :: 0 <= i < |v.items| ==> Reads(item.shape, NonNull(node.value.items)[i], v.items[i])
        else
          |v.items| == |node.value.items| &&
          forall i :: 0 <= i < |v.items| ==> Means(Some(node.value.items[i]), item, Zero(item.shape), v.items[i])
      case _ => Reads(r.shape, node.value, v)
  }

  /** A repeated name has the value of its last member. */
  ghost predicate MapMeans(ms: seq<Member>, elem: Rule, v: Value)
    requires v.MapV?
    decreases elem, 1
  {
    && (forall k :: k in v.entries <==> IsName(ms, k))
    && forall i :: 0 <= i < |ms| && LastNamed(ms, i) ==>
         ms[i].name in v.entries && Means(Some(ms[i].value), elem, Zero(elem.shape), v.entries[ms[i].name])
  }

  // ---- the field taken from an object ----

  /** A field is read from the first member of its name. */
  lemma {:induction false} FindIsFirst(ms: seq<Member>, name: string)
    ensures match Find(ms, name)
            case None => !IsName(ms, name)
            case Some(j) =>
              exists i :: 0 <= i < |ms| && ms[i] == Member(name, j) && forall k :: 0 <= k < i ==> ms[k].name != name
  {
    if ms != [] && ms[0].name != name {
      FindIsFirst(ms[1..], name);
      if Find(ms, name).Some? {
        var i :| 0 <= i < |ms[1..]| && ms[1..][i] == Member(name, Find(ms, name).value) &&
          forall k :: 0 <= k < i ==> ms[1..][k].name != name;
        assert ms[i + 1] == Member(name, Find(ms, name).value);
        assert forall k :: 1 <= k < i + 1 ==> ms[k] == ms[1..][k - 1];
      } else {
        assert forall k :: 1 <= k < |ms| ==> ms[k] == ms[1..][k - 1];
      }
    } else if ms != [] {
      assert ms[0] == Member(name, ms[0].value);
    }
  }

  // ---- the decoder on scalars ----

  lemma Cut8(n: int)
    ensures var w := (n + 0x80) % 0x100 - 0x80; (w - n) % 0x100 == 0 && (w == 0 <==> n % 0x100 == 0)
  {
  }

  lemma Cut16(n: int)
    ensures var w := (n + 0x8000) % 0x1_0000 - 0x8000; (w - n) % 0x1_0000 == 0 && (w == 0 <==> n % 0x1_0000 == 0)
  {
  }

  lemma Cut32(n: int)
    ensures var m := 0x1_0000_0000; var w := (n + 0x8000_0000) % m - 0x8000_0000;
      (w - n) % m == 0 && (w == 0 <==> n % m == 0)
  {
  }

  lemma Cut64(n: int)
    ensures var m, h := 0x1_0000_0000_0000_0000, 0x8000_0000_0000_0000; var w := (n + h) % m - h;
      (w - n) % m == 0 && (w == 0 <==> n % m == 0)
  {
  }

  lemma {:induction false} WrapReads(n: int, bits: nat)
    ensures 0 - Pow2(Width(bits) - 1) <= Wrap(n, bits) < Pow2(Width(bits) - 1)
    ensures (Wrap(n, bits) - n) % Pow2(Width(bits)) == 0 && InRange(Wrap(n, bits), bits)
    ensures Wrap(n, bits) == 0 <==> n % Pow2(Width(bits)) == 0
  {
    HalfIsPower(bits);
    WrapCut(n, bits);
  }

  lemma {:induction false} WrapCut(n: int, bits: nat)
    ensures var m := 2 * Half(bits); (Wrap(n, bits) - n) % m == 0 && (Wrap(n, bits) == 0 <==> n % m == 0)
    ensures 0 - Half(bits) <= Wrap(n, bits) < Half(bits)
  {
    if bits == 8 {
      Cut8(n);
    } else if bits == 16 {
      Cut16(n);
    } else if bits == 32 {
      Cut32(n);
    } else {
      Cut64(n);
    }
  }

  lemma {:induction false} ScalarReads(s: Shape, j: Json)
    requires Scalar(s)
    ensures var res := ScalarOf(s, j);
            && (res.Ok? <==> Suits(s, j))
            && (res.Ok? ==> Reads(s, j, res.value) && Fits(s, res.value) && (res.value == Zero(s) <==> Vanishes(s, j)))
  {
    if s.IntKind? && j.Num? && IsInteger(j.text) {
      IntegerReads(s.bits, j, IntegerOf(j.text));
    }
  }

  lemma {:induction false} IntegerReads(bits: nat, j: Json, n: int)
    requires j.Num? && IsInteger(j.text) && IntegerOf(j.text) == n
    ensures var s, v := IntKind(bits), IntV(Wrap(n, bits));
            && (InRange(n, 64) <==> Suits(s, j))
            && Reads(s, j, v) && Fits(s, v) && (v == Zero(s) <==> Vanishes(s, j))
  {
    HalfIsPower(64);
    WrapReads(n, bits);
  }

  // ---- the decoder on nodes ----

  lemma {:induction false} ZeroFits(s: Shape)
    ensures Fits(s, Zero(s))
  {
    if s.Struct? {
      forall i | 0 <= i < |s.props|
        ensures Fits(s.props[i].rule.shape, Zero(s).fields[i])
      {
        ZerosAt(s.props, i);
        ZeroFits(s.props[i].rule.shape);
      }
    }
  }

  /** Decoding succeeds exactly on the nodes that conform, with a value of the type that means the node. */
  lemma {:induction false} WalkMeans(node: Option<Json>, r: Rule, body: Value, depth: nat, max: nat)
    requires WellFormed(r) && Fits(r.shape, body)
    ensures var res := Walk(node, r, body, depth, max);
            && (res.Ok? <==> Conforms(node, r, depth, max))
            && (res.Ok? ==> Fits(r.shape, res.value) && Means(node, r, body, res.value))
    decreases r, 3
  {
    if depth <= max && !(Missing(node) && r.default.None? && !r.Flagged()) {
      match r.shape {
        case Struct(props) => StructMeans(node, r, body, depth, max);
        case MapOf(_) => ObjectMeans(node, r, body, depth, max);
        case Slice(item) => SliceMeans(node, r, body, depth, max);
        case _ => ScalarMeans(node, r, body);
      }
    }
  }

  lemma {:induction false} StructMeans(node: Option<Json>, r: Rule, body: Value, depth: nat, max: nat)
    requires WellFormed(r) && r.shape.Struct? && Fits(r.shape, body) && depth <= max
    requires !(Missing(node) && !r.Flagged())
    ensures var res := Walk(node, r, body, depth, max);
            && (res.Ok? <==> Conforms(node, r, depth, max))
            && (res.Ok? ==> Fits(r.shape, res.value) && Means(node, r, body, res.value))
    decreases r, 2, |r.shape.props| + 1
  {
    FieldsMean(node, r, body, 0, body.fields, depth + 1, max);
    if Missing(node) {
      assert forall i :: 0 <= i < |r.shape.props| ==> Get(node, r.shape.props[i].name) == None;
    }
  }

  lemma {:induction false} ObjectMeans(node: Option<Json>, r: Rule, body: Value, depth: nat, max: nat)
    requires WellFormed(r) && r.shape.MapOf? && depth <= max && !(Missing(node) && !r.Flagged())
    ensures var res := Walk(node, r, body, depth, max);
            && (res.Ok? <==> Conforms(node, r, depth, max))
            && (res.Ok? ==> Fits(r.shape, res.value) && Means(node, r, body, res.value))
    decreases r, 2, if node.Some? && node.value.Obj? then |node.value.members| + 1 else 0
  {
    if node.Some? && node.value.Obj? {
      MembersMean(node.value.members, r, map[], None, depth + 1, max);
    }
  }

  lemma {:induction false} ScalarMeans(node: Option<Json>, r: Rule, body: Value)
    requires WellFormed(r) && Scalar(r.shape) && Fits(r.shape, body) && !(Missing(node) && r.default.None? && !r.Flagged())
    ensures var res := WalkScalar(node, r, body);
            && (res.Ok? <==> Conforms(node, r, 0, 0))
            && (res.Ok? ==> Fits(r.shape, res.value) && Means(node, r, body, res.value))
  {
    if Missing(node) {
      PassesIff(r, r.default);
    } else {
      ScalarReads(r.shape, node.value);
      var res := ScalarOf(r.shape, node.value);
      if res.Ok? {
        PassesIff(r, Some(res.value));
      }
    }
  }

  lemma {:induction false} FieldsMean(node: Option<Json>, r: Rule, body: Value, i: nat, fields: seq<Value>,
      depth: nat, max: nat)
    requires WellFormed(r) && r.shape.Struct? && Fits(r.shape, body) && i <= |r.shape.props| == |fields|
    requires forall k :: 0 <= k < i ==>
      Fits(r.shape.props[k].rule.shape, fields[k]) &&
      Means(Get(node, r.shape.props[k].name), r.shape.props[k].rule, body.fields[k], fields[k])
    requires forall k :: i <= k < |fields| ==> fields[k] == body.fields[k]
    ensures var res := WalkFields(node, r, i, fields, depth, max); var props := r.shape.props;
            && (res.Ok? <==> forall k :: i <= k < |props| ==> Conforms(Get(node, props[k].name), props[k].rule, depth, max))
            && (res.Ok? ==> Fits(r.shape, res.value) && forall k :: 0 <= k < |props| ==>
                  Means(Get(node, props[k].name), props[k].rule, body.fields[k], res.value.fields[k]))
    decreases r, 2, |fields| - i
  {
    if i < |fields| {
      var p := r.shape.props[i];
      WalkMeans(Get(node, p.name), p.rule, fields[i], depth, max);
      var res := Walk(Get(node, p.name), p.rule, fields[i], depth, max);
      if res.Ok? {
        FieldsMean(node, r, body, i + 1, fields[i := res.value], depth, max);
      }
    }
  }

  lemma {:induction false} MembersMean(ms: seq<Member>, r: Rule, entries: map<string, Value>, failed: Option<Error>,
      depth: nat, max: nat)
    requires WellFormed(r) && r.shape.MapOf? && forall k :: k in entries ==> Fits(r.shape.elem.shape, entries[k])
    ensures var res := WalkMembers(ms, r, entries, failed, depth, max); var elem := r.shape.elem;
            && (res.Ok? <==>
                 (failed.None? && forall i :: 0 <= i < |ms| ==> Conforms(Some(ms[i].value), elem, depth, max)))
            && (res.Ok? ==> Fits(r.shape, res.value))
            && (res.Ok? ==> forall k :: k in res.value.entries <==> k in entries || IsName(ms, k))
            && (res.Ok? ==> forall k :: k in entries && !IsName(ms, k) ==> res.value.entries[k] == entries[k])
            && (res.Ok? ==> forall i :: 0 <= i < |ms| && LastNamed(ms, i) ==>
                  ms[i].name in res.value.entries &&
                  Means(Some(ms[i].value), elem, Zero(elem.shape), res.value.entries[ms[i].name]))
    decreases r, 2, |ms|
  {
    if ms != [] {
      var elem := r.shape.elem;
      ZeroFits(elem.shape);
      WalkMeans(Some(ms[0].value), elem, Zero(elem.shape), depth, max);
      var v := Walk(Some(ms[0].value), elem, Zero(elem.shape), depth, max);
      var first := if v.Ok? then entries[ms[0].name := v.value] else entries;
      MembersMean(ms[1..], r, first, if v.Ok? then failed else Some(v.error), depth, max);
      NamesTail(ms);
      assert forall i :: 1 <= i < |ms| ==> ms[i] == ms[1..][i - 1];
      var res := WalkMembers(ms, r, entries, failed, depth, max);
      if res.Ok? {
        LastMeans(ms, elem, res.value);
      }
    }
  }

  /** The first member counts only if its name does not come again. */
  lemma {:induction false} LastMeans(ms: seq<Member>, elem: Rule, v: Value)
    requires ms != [] && v.MapV? && forall k :: IsName(ms, k) ==> k in v.entries
    requires forall i :: 0 <= i < |ms[1..]| && LastNamed(ms[1..], i) ==>
      ms[1..][i].name in v.entries && Means(Some(ms[1..][i].value), elem, Zero(elem.shape), v.entries[ms[1..][i].name])
    requires ms[0].name in v.entries
    requires !IsName(ms[1..], ms[0].name) ==> Means(Some(ms[0].value), elem, Zero(elem.shape), v.entries[ms[0].name])
    ensures forall i :: 0 <= i < |ms| && LastNamed(ms, i) ==>
      ms[i].name in v.entries && Means(Some(ms[i].value), elem, Zero(elem.shape), v.entries[ms[i].name])
  {
    forall i | 0 <= i < |ms| && LastNamed(ms, i)
      ensures ms[i].name in v.entries && Means(Some(ms[i].value), elem, Zero(elem.shape), v.entries[ms[i].name])
    {
      if i == 0 {
        assert !IsName(ms[1..], ms[0].name);
      } else {
        assert ms[1..][i - 1] == ms[i] && LastNamed(ms[1..], i - 1);
      }
    }
  }

  lemma {:induction false} NamesTail(ms: seq<Member>)
    requires ms != []
    ensures forall k :: IsName(ms, k) <==> k == ms[0].name || IsName(ms[1..], k)
  {
    forall k | IsName(ms, k)
      ensures k == ms[0].name || IsName(ms[1..], k)
    {
      var i :| 0 <= i < |ms| && ms[i].name == k;
      if i > 0 {
        assert ms[1..][i - 1].name == k;
      }
    }
    forall k | IsName(ms[1..], k)
      ensures IsName(ms, k)
    {
      var i :| 0 <= i < |ms[1..]| && ms[1..][i].name == k;
      assert ms[i + 1].name == k;
    }
  }

  lemma {:induction false} SliceMeans(node: Option<Json>, r: Rule, body: Value, depth: nat, max: nat)
    requires WellFormed(r) && r.shape.Slice? && depth <= max && !(Missing(node) && !r.Flagged())
    ensures var res := Walk(node, r, body, depth, max);
            && (res.Ok? <==> Conforms(node, r, depth, max))
            && (res.Ok? ==> Fits(r.shape, res.value) && Means(node, r, body, res.value))
    decreases r, 2, if node.Some? && node.value.Arr? then |node.value.items| + 1 else 0
  {
    if node.Some? && node.value.Arr? {
      ArrayMeans(node, r, body, depth, max);
    }
  }

  lemma {:induction false} ArrayMeans(node: Option<Json>, r: Rule, body: Value, depth: nat, max: nat)
    requires WellFormed(r) && r.shape.Slice? && node.Some? && node.value.Arr? && depth <= max
    ensures var res := Walk(node, r, body, depth, max);
            && (res.Ok? <==> Conforms(node, r, depth, max))
            && (res.Ok? ==> Fits(r.shape, res.value) && Means(node, r, body, res.value))
    decreases r, 2, |node.value.items| + 1, 0
  {
    var items := node.value.items;
    if Scalar(r.shape.item.shape) {
      ScalarsMean(items, r, []);
      var res := WalkScalars(items, r.shape.item, []);
      if res.Ok? {
        PassesIff(r, Some(res.value));
      }
    } else {
      ItemsMean(items, r, [], 0, depth + 1, max);
      assert items[0..] == items;
      var res := WalkItems(items, r, [], depth + 1, max);
      if res.Ok? {
        PassesIff(r, Some(res.value));
      }
    }
  }

  lemma {:induction false} ScalarsMean(items: seq<Json>, r: Rule, done: seq<Value>)
    requires r.shape.Slice? && Scalar(r.shape.item.shape)
    requires forall i :: 0 <= i < |done| ==> Fits(r.shape.item.shape, done[i])
    ensures var res := WalkScalars(items, r.shape.item, done); var s := r.shape.item.shape;
            && (res.Ok? <==> forall i :: 0 <= i < |items| ==> items[i] == Json.Null || Suits(s, items[i]))
            && (res.Ok? ==> Fits(r.shape, res.value) && |res.value.items| == |done| + |NonNull(items)| && done <= res.value.items)
            && (res.Ok? ==> forall i :: 0 <= i < |NonNull(items)| ==>
                  Reads(s, NonNull(items)[i], res.value.items[|done| + i]))
    decreases |items|
  {
    if items != [] {
      var s := r.shape.item.shape;
      assert forall i :: 1 <= i < |items| ==> items[i] == items[1..][i - 1];
      if items[0].Null? {
        ScalarsMean(items[1..], r, done);
      } else {
        ScalarReads(s, items[0]);
        var v := ScalarOf(s, items[0]);
        if v.Ok? {
          ScalarsMean(items[1..], r, done + [v.value]);
          ShiftedReads(items, s, done, v.value, WalkScalars(items[1..], r.shape.item, done + [v.value]));
        }
      }
    }
  }

  lemma {:induction false} ShiftedReads(items: seq<Json>, s: Shape, done: seq<Value>, v: Value, res: Result)
    requires items != [] && items[0] != Json.Null && Reads(s, items[0], v)
    requires res.Ok? && res.value.SliceV? ==>
      |res.value.items| == |done| + 1 + |NonNull(items[1..])| && done + [v] <= res.value.items &&
      forall i :: 0 <= i < |NonNull(items[1..])| ==> Reads(s, NonNull(items[1..])[i], res.value.items[|done| + 1 + i])
    ensures res.Ok? && res.value.SliceV? ==>
      |NonNull(items)| == 1 + |NonNull(items[1..])| && done <= res.value.items &&
      forall i :: 0 <= i < |NonNull(items)| ==> Reads(s, NonNull(items)[i], res.value.items[|done| + i])
  {
    if res.Ok? && res.value.SliceV? {
      assert (done + [v])[|done|] == v && res.value.items[|done|] == v;
      forall i | 0 <= i < |NonNull(items)|
        ensures Reads(s, NonNull(items)[i], res.value.items[|done| + i])
      {
        if i > 0 {
          var k := i - 1;
          assert NonNull(items)[i] == NonNull(items[1..])[k];
          assert Reads(s, NonNull(items[1..])[k], res.value.items[|done| + 1 + k]);
        }
      }
    }
  }

  lemma {:induction false} ItemsMean(items: seq<Json>, r: Rule, done: seq<Value>, i: nat, depth: nat, max: nat)
    requires WellFormed(r) && r.shape.Slice? && i == |done| <= |items|
    requires forall k :: 0 <= k < i ==>
      Fits(r.shape.item.shape, done[k]) && Means(Some(items[k]), r.shape.item, Zero(r.shape.item.shape), done[k])
    ensures var res := WalkItems(items[i..], r, done, depth, max); var item := r.shape.item;
            && (res.Ok? <==> forall k :: i <= k < |items| ==> Conforms(Some(items[k]), item, depth, max))
            && (res.Ok? ==> Fits(r.shape, res.value) && |res.value.items| == |items|)
            && (res.Ok? ==> forall k :: 0 <= k < |items| ==>
                  Means(Some(items[k]), item, Zero(item.shape), res.value.items[k]))
    decreases r, 2, |items| - i
  {
    if i < |items| {
      var item := r.shape.item;
      ZeroFits(item.shape);
      WalkMeans(Some(items[i]), item, Zero(item.shape), depth, max);
      assert items[i..][1..] == items[i + 1..];
      var v := Walk(Some(items[i]), item, Zero(item.shape), depth, max);
      if v.Ok? {
        ItemsMean(items, r, done + [v.value], i + 1, depth, max);
      }
    }
  }
}
