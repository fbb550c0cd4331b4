/** Decoding what was encoded: which values come back, when, and with which defaults. */
module JsonRoundTrip {
  import opened Options
  import opened Decimal
  import opened JsonText
  import opened JsonSchema
  import opened JsonDecoder
  import opened JsonEncoder

  // ---- what comes back ----

  /** What a field without a node decodes to. */
  function Absent(r: Rule): Value
    decreases r
  {
    if r.default.Some? then r.default.value
    else if r.shape.Struct? && r.Flagged() then
      StructV(seq(|r.shape.props|, i requires 0 <= i < |r.shape.props| => Absent(r.shape.props[i].rule)))
    else Zero(r.shape)
  }

  /** A flagged field cannot be absent, unless its default passes; a flagged struct asks its own fields. */
  predicate AbsentOk(r: Rule, depth: nat, max: nat)
    decreases r
  {
    depth <= max &&
    if r.default.Some? then Passes(r, r.default)
    else
      !r.Flagged() ||
      (r.shape.Struct? && forall i :: 0 <= i < |r.shape.props| ==> AbsentOk(r.shape.props[i].rule, depth + 1, max))
  }

  /** What v under r comes back as. */
  function Rebuilt(r: Rule, v: Value): Value
    requires Fits(r.shape, v)
    decreases v
  {
    match v
    case SliceV(items) => SliceV(seq(|items|, i requires 0 <= i < |items| => Rebuilt(r.shape.item, items[i])))
    case MapV(entries) => MapV(map k | k in entries :: Rebuilt(r.shape.elem, entries[k]))
    case StructV(fields) =>
      StructV(seq(|fields|, i requires 0 <= i < |fields| =>
        if Dropped(r.shape.props[i], fields[i]) then Absent(r.shape.props[i].rule)
        else Rebuilt(r.shape.props[i].rule, fields[i])))
    case _ => Applied(r, v)
  }

  /** When it comes back at all. */
  predicate Rebuilds(r: Rule, v: Value, depth: nat, max: nat)
    requires Fits(r.shape, v)
    decreases v
  {
    depth <= max &&
    match v
    case SliceV(items) =>
      Passes(r, Some(v)) &&
      (Scalar(r.shape.item.shape) ||
       forall i :: 0 <= i < |items| ==> Rebuilds(r.shape.item, items[i], depth + 1, max))
    case MapV(entries) => forall k :: k in entries ==> Rebuilds(r.shape.elem, entries[k], depth + 1, max)
    case StructV(fields) =>
      forall i :: 0 <= i < |fields| ==>
        if Dropped(r.shape.props[i], fields[i]) then AbsentOk(r.shape.props[i].rule, depth + 1, max)
        else Rebuilds(r.shape.props[i].rule, fields[i], depth + 1, max)
    case _ => Passes(r, Some(Applied(r, v)))
  }

  function FieldBack(r: Rule, v: Value, i: nat): Value
    requires r.shape.Struct? && Fits(r.shape, v) && i < |r.shape.props|
  {
    if Dropped(r.shape.props[i], v.fields[i]) then Absent(r.shape.props[i].rule)
    else Rebuilt(r.shape.props[i].rule, v.fields[i])
  }

  predicate FieldOk(r: Rule, v: Value, i: nat, depth: nat, max: nat)
    requires r.shape.Struct? && Fits(r.shape, v) && i < |r.shape.props|
  {
    if Dropped(r.shape.props[i], v.fields[i]) then AbsentOk(r.shape.props[i].rule, depth, max)
    else Rebuilds(r.shape.props[i].rule, v.fields[i], depth, max)
  }

  // ---- scalars ----

  lemma {:induction false} WrapKeeps(n: int, bits: nat)
    requires InRange(n, bits)
    ensures Wrap(n, bits) == n && InRange(n, 64)
  {
  }

  lemma {:induction false} ScalarBack(r: Rule, v: Value, j: Json)
    requires WellFormed(r) && Scalar(r.shape) && Fits(r.shape, v) && Denotes(r, v, j)
    ensures !j.Null? && ScalarOf(r.shape, j) == Ok(Applied(r, v))
  {
    var w := Applied(r, v);
    if w.IntV? {
      IntegerReads(w.n);
      WrapKeeps(w.n, r.shape.bits);
    }
  }

  // ---- absent fields ----

  lemma {:induction false} AbsentBack(r: Rule, depth: nat, max: nat)
    requires WellFormed(r)
    ensures var res := Walk(None, r, Zero(r.shape), depth, max);
            res.Ok? == AbsentOk(r, depth, max) && (res.Ok? ==> res.value == Absent(r))
    decreases r, 1
  {
    if depth <= max && r.shape.Struct? && r.Flagged() {
      forall k | 0 <= k < |r.shape.props|
        ensures Zeros(r.shape.props)[k] == Zero(r.shape.props[k].rule.shape)
      {
        ZerosAt(r.shape.props, k);
      }
      AbsentFieldsBack(r, 0, Zeros(r.shape.props), depth + 1, max);
    }
  }

  lemma {:induction false} AbsentFieldsBack(r: Rule, i: nat, fields: seq<Value>, depth: nat, max: nat)
    requires WellFormed(r) && r.shape.Struct? && i <= |r.shape.props| == |fields|
    requires forall k :: 0 <= k < i ==> fields[k] == Absent(r.shape.props[k].rule)
    requires forall k :: i <= k < |fields| ==> fields[k] == Zero(r.shape.props[k].rule.shape)
    ensures var res := WalkFields(None, r, i, fields, depth, max);
            && (res.Ok? <==> forall k :: i <= k < |fields| ==> AbsentOk(r.shape.props[k].rule, depth, max))
            && (res.Ok? ==> res.value.StructV? && |res.value.fields| == |fields| &&
                            forall k :: 0 <= k < |fields| ==> res.value.fields[k] == Absent(r.shape.props[k].rule))
    decreases r, 0, |fields| - i
  {
    if i < |fields| {
      AbsentBack(r.shape.props[i].rule, depth, max);
      if AbsentOk(r.shape.props[i].rule, depth, max) {
        AbsentFieldsBack(r, i + 1, fields[i := Absent(r.shape.props[i].rule)], depth, max);
      }
    }
  }

  // ---- finding a field among the members ----

  lemma {:induction false} FindLast(ms: seq<Member>, m: Member, name: string)
    ensures Find(ms + [m], name) ==
            if Find(ms, name).Some? then Find(ms, name) else if m.name == name then Some(m.value) else None
  {
    if ms == [] {
      assert ms + [m] == [m];
    } else {
      FindLast(ms[1..], m, name);
      assert (ms + [m])[1..] == ms[1..] + [m];
    }
  }

  lemma {:induction false} FieldFound(props: seq<Prop>, v: Value, n: nat, ms: seq<Member>, i: nat)
    requires v.StructV? && |v.fields| == |props| && n <= |props| && i < |props| && DistinctNames(props)
    requires FieldsDenote(props, v, n, ms)
    ensures i < n && !Dropped(props[i], v.fields[i]) ==>
            Find(ms, props[i].name).Some? && Denotes(props[i].rule, v.fields[i], Find(ms, props[i].name).value)
    ensures i >= n || Dropped(props[i], v.fields[i]) ==> Find(ms, props[i].name) == None
    decreases n
  {
    if n > 0 {
      if Dropped(props[n - 1], v.fields[n - 1]) {
        FieldFound(props, v, n - 1, ms, i);
      } else {
        var init, last := ms[..|ms| - 1], ms[|ms| - 1];
        FieldFound(props, v, n - 1, init, i);
        FindLast(init, last, props[i].name);
        assert ms == init + [last];
      }
    }
  }

  // ---- the theorem ----

  lemma {:induction false} WalkBack(r: Rule, v: Value, j: Json, depth: nat, max: nat)
    requires WellFormed(r) && Fits(r.shape, v) && Denotes(r, v, j)
    ensures var res := Walk(Some(j), r, Zero(r.shape), depth, max);
            res.Ok? == Rebuilds(r, v, depth, max) && (res.Ok? ==> res.value == Rebuilt(r, v))
    decreases r, 1
  {
    if depth <= max {
      match r.shape {
        case Struct(props) => StructBack(r, v, j, depth, max);
        case MapOf(_) => MapBack(r, v, j, depth, max);
        case Slice(_) => SliceBack(r, v, j, depth, max);
        case _ => ScalarBack(r, v, j);
      }
    }
  }

  lemma {:induction false} StructBack(r: Rule, v: Value, j: Json, depth: nat, max: nat)
    requires WellFormed(r) && r.shape.Struct? && Fits(r.shape, v) && Denotes(r, v, j) && depth <= max
    ensures var res := Walk(Some(j), r, Zero(r.shape), depth, max);
            res.Ok? == Rebuilds(r, v, depth, max) && (res.Ok? ==> res.value == Rebuilt(r, v))
    decreases r, 0, |r.shape.props| + 1
  {
    var zeros := Zeros(r.shape.props);
    forall k | 0 <= k < |r.shape.props|
      ensures zeros[k] == Zero(r.shape.props[k].rule.shape)
    {
      ZerosAt(r.shape.props, k);
    }
    FieldsBack(r, v, j, 0, zeros, depth + 1, max);
    FieldsOk(r, v, depth, depth + 1, max);
    var res := WalkFields(Some(j), r, 0, zeros, depth + 1, max);
    assert res.Ok? ==> res.value.fields == Rebuilt(r, v).fields;
  }

  lemma {:induction false} FieldsOk(r: Rule, v: Value, depth: nat, below: nat, max: nat)
    requires r.shape.Struct? && Fits(r.shape, v) && below == depth + 1 && depth <= max
    ensures Rebuilds(r, v, depth, max) <==> forall k :: 0 <= k < |r.shape.props| ==> FieldOk(r, v, k, below, max)
  {
    forall k | 0 <= k < |r.shape.props|
      ensures FieldOk(r, v, k, below, max) <==>
              (if Dropped(r.shape.props[k], v.fields[k]) then AbsentOk(r.shape.props[k].rule, depth + 1, max)
               else Rebuilds(r.shape.props[k].rule, v.fields[k], depth + 1, max))
    {
    }
  }

  lemma {:induction false} FieldsBack(r: Rule, v: Value, j: Json, i: nat, fields: seq<Value>, depth: nat, max: nat)
    requires WellFormed(r) && r.shape.Struct? && Fits(r.shape, v) && Denotes(r, v, j)
    requires i <= |r.shape.props| == |fields|
    requires forall k :: 0 <= k < i ==> fields[k] == FieldBack(r, v, k)
    requires forall k :: i <= k < |fields| ==> fields[k] == Zero(r.shape.props[k].rule.shape)
    ensures var res := WalkFields(Some(j), r, i, fields, depth, max);
            && (res.Ok? <==> forall k :: i <= k < |fields| ==> FieldOk(r, v, k, depth, max))
            && (res.Ok? ==> res.value.StructV? && |res.value.fields| == |fields| &&
                            forall k :: 0 <= k < |fields| ==> res.value.fields[k] == FieldBack(r, v, k))
    decreases r, 0, |fields| - i
  {
    if i < |fields| {
      var p := r.shape.props[i];
      FieldFound(r.shape.props, v, |r.shape.props|, j.members, i);
      if Dropped(p, v.fields[i]) {
        AbsentBack(p.rule, depth, max);
      } else {
        WalkBack(p.rule, v.fields[i], Find(j.members, p.name).value, depth, max);
      }
      if FieldOk(r, v, i, depth, max) {
        FieldsBack(r, v, j, i + 1, fields[i := FieldBack(r, v, i)], depth, max);
      }
    }
  }

  lemma {:induction false} SliceBack(r: Rule, v: Value, j: Json, depth: nat, max: nat)
    requires WellFormed(r) && r.shape.Slice? && Fits(r.shape, v) && Denotes(r, v, j) && depth <= max
    ensures var res := Walk(Some(j), r, Zero(r.shape), depth, max);
            res.Ok? == Rebuilds(r, v, depth, max) && (res.Ok? ==> res.value == Rebuilt(r, v))
    decreases r, 0, |v.items| + 1
  {
    assert j.items[0..] == j.items;
    if Scalar(r.shape.item.shape) {
      ScalarsBack(r, v, j, 0, []);
    } else {
      ItemsBack(r, v, j, 0, [], depth + 1, max);
    }
  }

  lemma {:induction false} ScalarsBack(r: Rule, v: Value, j: Json, i: nat, done: seq<Value>)
    requires WellFormed(r) && r.shape.Slice? && Fits(r.shape, v) && Denotes(r, v, j) && Scalar(r.shape.item.shape)
    requires i == |done| <= |v.items|
    requires forall k :: 0 <= k < i ==> done[k] == Rebuilt(r.shape.item, v.items[k])
    ensures WalkScalars(j.items[i..], r.shape.item, done) == Ok(Rebuilt(r, v))
    decreases |v.items| - i
  {
    if i < |v.items| {
      ScalarBack(r.shape.item, v.items[i], j.items[i]);
      assert j.items[i..][1..] == j.items[i + 1..];
      ScalarsBack(r, v, j, i + 1, done + [Rebuilt(r.shape.item, v.items[i])]);
    } else {
      assert done == Rebuilt(r, v).items;
    }
  }

  lemma {:induction false} ItemsBack(r: Rule, v: Value, j: Json, i: nat, done: seq<Value>, depth: nat, max: nat)
    requires WellFormed(r) && r.shape.Slice? && Fits(r.shape, v) && Denotes(r, v, j)
    requires i == |done| <= |v.items|
    requires forall k :: 0 <= k < i ==> done[k] == Rebuilt(r.shape.item, v.items[k])
    ensures var res := WalkItems(j.items[i..], r, done, depth, max);
            && (res.Ok? <==> forall k :: i <= k < |v.items| ==> Rebuilds(r.shape.item, v.items[k], depth, max))
            && (res.Ok? ==> res.value == Rebuilt(r, v))
    decreases r, 0, |v.items| - i
  {
    if i < |v.items| {
      WalkBack(r.shape.item, v.items[i], j.items[i], depth, max);
      assert j.items[i..][1..] == j.items[i + 1..];
      if Rebuilds(r.shape.item, v.items[i], depth, max) {
        ItemsBack(r, v, j, i + 1, done + [Rebuilt(r.shape.item, v.items[i])], depth, max);
      }
    } else {
      assert done == Rebuilt(r, v).items;
    }
  }

  ghost predicate Named(ms: seq<Member>, k: string) {
    exists i :: 0 <= i < |ms| && ms[i].name == k
  }

  lemma {:induction false} MapBack(r: Rule, v: Value, j: Json, depth: nat, max: nat)
    requires WellFormed(r) && r.shape.MapOf? && Fits(r.shape, v) && Denotes(r, v, j) && depth <= max
    ensures var res := Walk(Some(j), r, Zero(r.shape), depth, max);
            res.Ok? == Rebuilds(r, v, depth, max) && (res.Ok? ==> res.value == Rebuilt(r, v))
    decreases r, 0, |j.members| + 2
  {
    MapWalk(r, j, depth, max);
    EntriesBack(r, v, j, depth + 1, max);
    EntriesOk(r, v, depth, depth + 1, max);
  }

  lemma {:induction false} MapWalk(r: Rule, j: Json, depth: nat, max: nat)
    requires r.shape.MapOf? && j.Obj? && depth <= max
    ensures Walk(Some(j), r, Zero(r.shape), depth, max) == WalkMembers(j.members, r, map[], None, depth + 1, max)
  {
  }

  lemma {:induction false} EntriesBack(r: Rule, v: Value, j: Json, depth: nat, max: nat)
    requires WellFormed(r) && r.shape.MapOf? && Fits(r.shape, v) && Denotes(r, v, j)
    ensures var res := WalkMembers(j.members, r, map[], None, depth, max);
            && (res.Ok? <==> forall k :: k in v.entries ==> Rebuilds(r.shape.elem, v.entries[k], depth, max))
            && (res.Ok? ==> res.value == Rebuilt(r, v))
    decreases r, 0, |j.members| + 1
  {
    AllNamed(r, v, j);
    MembersBack(r, v, j.members, map[], None, depth, max);
    var res := WalkMembers(j.members, r, map[], None, depth, max);
    if res.Ok? {
      EntriesRebuilt(r, v, res.value.entries);
    }
  }

  lemma {:induction false} EntriesRebuilt(r: Rule, v: Value, entries: map<string, Value>)
    requires r.shape.MapOf? && Fits(r.shape, v)
    requires forall k :: k in entries <==> k in v.entries
    requires forall k :: k in entries ==> entries[k] == Rebuilt(r.shape.elem, v.entries[k])
    ensures MapV(entries) == Rebuilt(r, v)
  {
    assert entries == Rebuilt(r, v).entries;
  }

  lemma {:induction false} AllNamed(r: Rule, v: Value, j: Json)
    requires r.shape.MapOf? && Fits(r.shape, v) && Denotes(r, v, j)
    ensures forall k :: k in v.entries ==> Named(j.members, k)
    ensures forall k :: Named(j.members, k) ==> k in v.entries
  {
    forall k | Named(j.members, k)
      ensures k in v.entries
    {
      var i :| 0 <= i < |j.members| && j.members[i].name == k;
      assert EntryDenotes(r.shape.elem, v, j.members[i]);
    }
  }

  lemma {:induction false} EntriesOk(r: Rule, v: Value, depth: nat, below: nat, max: nat)
    requires r.shape.MapOf? && Fits(r.shape, v) && below == depth + 1 && depth <= max
    ensures Rebuilds(r, v, depth, max) <==> forall k :: k in v.entries ==> Rebuilds(r.shape.elem, v.entries[k], below, max)
  {
  }

  lemma {:induction false} MembersBack(r: Rule, v: Value, ms: seq<Member>, entries: map<string, Value>,
      failed: Option<Error>, depth: nat, max: nat)
    requires WellFormed(r) && r.shape.MapOf? && Fits(r.shape, v)
    requires forall i :: 0 <= i < |ms| ==> EntryDenotes(r.shape.elem, v, ms[i])
    requires DistinctMembers(ms)
    ensures var res := WalkMembers(ms, r, entries, failed, depth, max);
            && (res.Ok? <==> (failed.None? &&
                forall k :: k in v.entries && Named(ms, k) ==> Rebuilds(r.shape.elem, v.entries[k], depth, max)))
            && (res.Ok? ==> res.value.MapV?)
            && (res.Ok? ==> forall k :: k in res.value.entries <==> k in entries || Named(ms, k))
            && (res.Ok? ==> forall k :: Named(ms, k) ==>
                k in v.entries && res.value.entries[k] == Rebuilt(r.shape.elem, v.entries[k]))
            && (res.Ok? ==> forall k :: k in entries && !Named(ms, k) ==> res.value.entries[k] == entries[k])
    decreases r, 0, |ms|
  {
    if ms != [] {
      var m := ms[0];
      WalkBack(r.shape.elem, v.entries[m.name], m.value, depth, max);
      if Rebuilds(r.shape.elem, v.entries[m.name], depth, max) {
        MembersBack(r, v, ms[1..], entries[m.name := Rebuilt(r.shape.elem, v.entries[m.name])], failed, depth, max);
      } else {
        var e := Walk(Some(m.value), r.shape.elem, Zero(r.shape.elem.shape), depth, max).error;
        MembersBack(r, v, ms[1..], entries, Some(e), depth, max);
      }
      NamedTail(ms);
    }
  }

  lemma {:induction false} NamedTail(ms: seq<Member>)
    requires ms != [] && DistinctMembers(ms)
    ensures forall k :: Named(ms, k) <==> k == ms[0].name || Named(ms[1..], k)
    ensures !Named(ms[1..], ms[0].name) && Named(ms, ms[0].name)
  {
    forall k | Named(ms, k)
      ensures k == ms[0].name || Named(ms[1..], k)
    {
      var i :| 0 <= i < |ms| && ms[i].name == k;
      if i > 0 {
        assert ms[1..][i - 1].name == k;
      }
    }
    forall k | Named(ms[1..], k)
      ensures Named(ms, k)
    {
      var i :| 0 <= i < |ms[1..]| && ms[1..][i].name == k;
      assert ms[i + 1].name == k;
    }
  }

  // ---- which texts are legal ----

  /** The strings that the encoder prints hold no control character but newline, carriage return and tab. */
  predicate CleanValue(r: Rule, v: Value)
    requires Fits(r.shape, v)
    decreases v
  {
    match v
    case StrV(_) => Applied(r, v).StrV? && CleanString(Applied(r, v).s)
    case SliceV(items) => forall i :: 0 <= i < |items| ==> CleanValue(r.shape.item, items[i])
    case MapV(entries) => forall k :: k in entries ==> CleanString(k) && CleanValue(r.shape.elem, entries[k])
    case StructV(fields) =>
      forall i :: 0 <= i < |fields| ==>
        Dropped(r.shape.props[i], fields[i]) || CleanValue(r.shape.props[i].rule, fields[i])
    case _ => true
  }

  lemma {:induction false} CleanItemsAll(items: seq<Json>)
    ensures CleanItems(items) <==> forall i :: 0 <= i < |items| ==> Clean(items[i])
    ensures NumericItems(items) <==> forall i :: 0 <= i < |items| ==> Numeric(items[i])
  {
    if items != [] {
      CleanItemsAll(items[1..]);
      assert forall i :: 1 <= i < |items| ==> items[i] == items[1..][i - 1];
    }
  }

  lemma {:induction false} CleanMembersAll(ms: seq<Member>)
    ensures CleanMembers(ms) <==> forall i :: 0 <= i < |ms| ==> CleanMember(ms[i])
    ensures NumericMembers(ms) <==> forall i :: 0 <= i < |ms| ==> NumericMember(ms[i])
  {
    if ms != [] {
      CleanMembersAll(ms[1..]);
      assert forall i :: 1 <= i < |ms| ==> ms[i] == ms[1..][i - 1];
    }
  }

  lemma {:induction false} DenotedClean(r: Rule, v: Value, j: Json)
    requires WellFormed(r) && Plain(r) && Fits(r.shape, v) && Denotes(r, v, j)
    ensures Numeric(j) && (Clean(j) <==> CleanValue(r, v))
    decreases v, 1
  {
    match r.shape {
      case Slice(item) =>
        CleanItemsAll(j.items);
        forall i | 0 <= i < |v.items|
          ensures Numeric(j.items[i]) && (Clean(j.items[i]) <==> CleanValue(item, v.items[i]))
        {
          DenotedClean(item, v.items[i], j.items[i]);
        }
      case MapOf(elem) =>
        MapClean(r, v, j);
      case Struct(props) =>
        FieldsClean(r, v, |props|, j.members);
        CleanMembersAll(j.members);
      case IntKind(_) => IntegerIsNumber(Applied(r, v).n);
      case _ =>
    }
  }

  lemma {:induction false} MapClean(r: Rule, v: Value, j: Json)
    requires WellFormed(r) && Plain(r) && r.shape.MapOf? && Fits(r.shape, v) && Denotes(r, v, j)
    ensures Numeric(j) && (Clean(j) <==> CleanValue(r, v))
    decreases v, 0
  {
    var ms, elem := j.members, r.shape.elem;
    CleanMembersAll(ms);
    forall i | 0 <= i < |ms|
      ensures NumericMember(ms[i]) && ms[i].name in v.entries
      ensures CleanMember(ms[i]) <==> CleanString(ms[i].name) && CleanValue(elem, v.entries[ms[i].name])
    {
      assert EntryDenotes(elem, v, ms[i]);
      DenotedClean(elem, v.entries[ms[i].name], ms[i].value);
    }
    forall k | k in v.entries && Clean(j)
      ensures CleanString(k) && CleanValue(elem, v.entries[k])
    {
      var i :| 0 <= i < |ms| && ms[i].name == k;
    }
  }

  lemma {:induction false} FieldsClean(r: Rule, v: Value, n: nat, ms: seq<Member>)
    requires WellFormed(r) && Plain(r) && r.shape.Struct? && Fits(r.shape, v) && n <= |v.fields|
    requires FieldsDenote(r.shape.props, v, n, ms)
    ensures NumericMembers(ms)
    ensures CleanMembers(ms) <==> forall i :: 0 <= i < n ==>
              Dropped(r.shape.props[i], v.fields[i]) || CleanValue(r.shape.props[i].rule, v.fields[i])
    decreases v, 0, n
  {
    if n > 0 {
      var p, f := r.shape.props[n - 1], v.fields[n - 1];
      if Dropped(p, f) {
        FieldsClean(r, v, n - 1, ms);
      } else {
        FieldsClean(r, v, n - 1, ms[..|ms| - 1]);
        DenotedClean(p.rule, f, ms[|ms| - 1].value);
        CleanMembersAll(ms);
        CleanMembersAll(ms[..|ms| - 1]);
        PlainIsClean(p.name);
      }
    }
  }

  lemma {:induction false} PlainIsClean(name: string)
    requires PlainName(name)
    ensures CleanString(name)
  {
    forall i | 0 <= i < |name|
      ensures CleanChar(name[i])
    {
    }
  }

  // ---- main results ----

  /** The encoder's text is a JSON text exactly when its strings are clean, and then it is j again. */
  lemma {:induction false} EncodedText(r: Rule, v: Value, j: Json)
    requires WellFormed(r) && Plain(r) && Fits(r.shape, v) && Denotes(r, v, j)
    ensures Read(Print(j)) == if CleanValue(r, v) then Some(j) else None
  {
    DenotedClean(r, v, j);
    TextReadsBack(j);
  }

  /** Decoding the encoded text gives the rebuilt value, exactly when it can be rebuilt. */
  lemma {:induction false} DecodeUndoesEncode(r: Rule, v: Value, j: Json, max: nat)
    requires WellFormed(r) && Plain(r) && Fits(r.shape, v) && Denotes(r, v, j) && CleanValue(r, v)
    ensures var res := Walk(Read(Print(j)), r, Zero(r.shape), 0, max);
            res.Ok? == Rebuilds(r, v, 0, max) && (res.Ok? ==> res.value == Rebuilt(r, v))
  {
    EncodedText(r, v, j);
    WalkBack(r, v, j, 0, max);
  }

  /** ValidateAndEncodeResponse: it succeeds when the validators pass; its text, read and decoded, is the value again. */
  method EncodeResponse(v: Value, r: Rule, ghost max: nat) returns (text: Option<string>)
    requires WellFormed(r) && Fits(r.shape, v)
    ensures text.Some? <==> Encodes(r, v)
    ensures text.Some? && Plain(r) ==> (Read(text.value).Some? <==> CleanValue(r, v))
    ensures text.Some? && Plain(r) && CleanValue(r, v) ==> Denotes(r, v, Read(text.value).value)
    ensures text.Some? && Plain(r) && CleanValue(r, v) ==>
              var res := Walk(Read(text.value), r, Zero(r.shape), 0, max);
              res.Ok? == Rebuilds(r, v, 0, max) && (res.Ok? ==> res.value == Rebuilt(r, v))
  {
    var buf := new Buffer();
    var ok, j := EncodeFieldValue(buf, v, r);
    if !ok {
      return None;
    }
    text := Some(buf.data);
    if Plain(r) {
      assert buf.data == "" + Print(j) == Print(j);
      EncodedText(r, v, j);
      if CleanValue(r, v) {
        DecodeUndoesEncode(r, v, j, max);
      }
    }
  }

  // ---- in the schema's own terms ----

  /** v with every empty field that has a default tag set to its default. */
  function Filled(r: Rule, v: Value): Value
    requires Fits(r.shape, v)
    decreases v
  {
    match v
    case SliceV(items) => SliceV(seq(|items|, i requires 0 <= i < |items| => Filled(r.shape.item, items[i])))
    case MapV(entries) => MapV(map k | k in entries :: Filled(r.shape.elem, entries[k]))
    case StructV(fields) =>
      StructV(seq(|fields|, i requires 0 <= i < |fields| => Filled(r.shape.props[i].rule, fields[i])))
    case _ => Applied(r, v)
  }

  /** No field is hidden, and every default comes from a tag. */
  predicate Open(r: Rule)
    decreases r
  {
    (r.default.Some? ==> r.tagged) &&
    match r.shape
    case Slice(item) => Open(item)
    case MapOf(elem) => Open(elem)
    case Struct(props) => forall i :: 0 <= i < |props| ==> !props[i].hidden && Open(props[i].rule)
    case _ => true
  }

  /** The decoder does without the field: nothing asks for it, or its default passes. */
  predicate Spared(r: Rule)
    decreases r
  {
    if r.default.Some? then Passes(r, r.default)
    else
      !r.Flagged() ||
      (r.shape.Struct? && forall i :: 0 <= i < |r.shape.props| ==> Spared(r.shape.props[i].rule))
  }

  /** No field that the encoder drops is one that the decoder asks for. */
  predicate Regained(r: Rule, v: Value)
    requires Fits(r.shape, v)
    decreases v
  {
    match v
    case SliceV(items) =>
      Scalar(r.shape.item.shape) || forall i :: 0 <= i < |items| ==> Regained(r.shape.item, items[i])
    case MapV(entries) => forall k :: k in entries ==> Regained(r.shape.elem, entries[k])
    case StructV(fields) =>
      forall i :: 0 <= i < |fields| ==>
        if Dropped(r.shape.props[i], fields[i]) then Spared(r.shape.props[i].rule)
        else Regained(r.shape.props[i].rule, fields[i])
    case _ => true
  }

  /** No field has required or present in its validate tag. */
  predicate Optional(r: Rule)
    decreases r
  {
    !r.Flagged() &&
    match r.shape
    case Slice(item) => Optional(item)
    case MapOf(elem) => Optional(elem)
    case Struct(props) => forall i :: 0 <= i < |props| ==> Optional(props[i].rule)
    case _ => true
  }

  /** The rules nest at most n keys deep. */
  predicate Shallow(r: Rule, n: nat)
    decreases r
  {
    match r.shape
    case Slice(item) => Scalar(item.shape) || (n > 0 && Shallow(item, n - 1))
    case MapOf(elem) => n > 0 && Shallow(elem, n - 1)
    case Struct(props) => props == [] || (n > 0 && forall i :: 0 <= i < |props| ==> Shallow(props[i].rule, n - 1))
    case _ => true
  }

  lemma {:induction false} RebuiltIsFilled(r: Rule, v: Value)
    requires WellFormed(r) && Fits(r.shape, v) && Open(r)
    ensures Rebuilt(r, v) == Filled(r, v)
    decreases v
  {
    match v {
      case SliceV(items) =>
        forall i | 0 <= i < |items|
          ensures Rebuilt(r.shape.item, items[i]) == Filled(r.shape.item, items[i])
        {
          RebuiltIsFilled(r.shape.item, items[i]);
        }
        assert Rebuilt(r, v).items == Filled(r, v).items;
      case MapV(entries) =>
        forall k | k in entries
          ensures Rebuilt(r.shape.elem, entries[k]) == Filled(r.shape.elem, entries[k])
        {
          RebuiltIsFilled(r.shape.elem, entries[k]);
        }
        assert Rebuilt(r, v).entries == Filled(r, v).entries;
      case StructV(fields) =>
        forall i | 0 <= i < |fields|
          ensures FieldBack(r, v, i) == Filled(r.shape.props[i].rule, fields[i])
        {
          if Dropped(r.shape.props[i], fields[i]) {
            EmptyIsAbsent(r.shape.props[i].rule, fields[i]);
          } else {
            RebuiltIsFilled(r.shape.props[i].rule, fields[i]);
          }
        }
        assert forall i :: 0 <= i < |fields| ==> Rebuilt(r, v).fields[i] == FieldBack(r, v, i);
        assert Rebuilt(r, v).fields == Filled(r, v).fields;
      case _ =>
    }
  }

  lemma {:induction false} EmptyIsAbsent(r: Rule, v: Value)
    requires WellFormed(r) && Fits(r.shape, v) && Open(r) && IsEmpty(v)
    ensures Absent(r) == Filled(r, v)
  {
    assert v == Zero(r.shape);
    if v.SliceV? {
      assert Filled(r, v).items == [];
    } else if v.MapV? {
      assert Filled(r, v).entries == map[];
    }
  }

  lemma {:induction false} SparedIff(r: Rule, depth: nat, max: nat)
    requires depth <= max && Shallow(r, max - depth)
    ensures AbsentOk(r, depth, max) <==> Spared(r)
    decreases r
  {
    if r.shape.Struct? {
      forall i | 0 <= i < |r.shape.props|
        ensures AbsentOk(r.shape.props[i].rule, depth + 1, max) <==> Spared(r.shape.props[i].rule)
      {
        SparedIff(r.shape.props[i].rule, depth + 1, max);
      }
    }
  }

  /** Within the depth limit, an encoded value comes back exactly when no dropped field is asked for. */
  lemma {:induction false} RebuildsIff(r: Rule, v: Value, depth: nat, max: nat)
    requires WellFormed(r) && Fits(r.shape, v) && Encodes(r, v) && depth <= max && Shallow(r, max - depth)
    ensures Rebuilds(r, v, depth, max) <==> Regained(r, v)
    decreases v
  {
    match v {
      case SliceV(items) =>
        if !Scalar(r.shape.item.shape) {
          forall i | 0 <= i < |items|
            ensures Rebuilds(r.shape.item, items[i], depth + 1, max) <==> Regained(r.shape.item, items[i])
          {
            RebuildsIff(r.shape.item, items[i], depth + 1, max);
          }
        }
      case MapV(entries) =>
        forall k | k in entries
          ensures Rebuilds(r.shape.elem, entries[k], depth + 1, max) <==> Regained(r.shape.elem, entries[k])
        {
          RebuildsIff(r.shape.elem, entries[k], depth + 1, max);
        }
      case StructV(fields) =>
        var below := depth + 1;
        StructEncodes(r, v);
        forall i | 0 <= i < |r.shape.props|
          ensures FieldOk(r, v, i, below, max) <==> FieldRegained(r, v, i)
        {
          assert FieldEncodes(r, v, i);
          if Dropped(r.shape.props[i], fields[i]) {
            SparedIff(r.shape.props[i].rule, below, max);
          } else {
            RebuildsIff(r.shape.props[i].rule, fields[i], below, max);
          }
        }
        FieldsOk(r, v, depth, below, max);
        FieldsRegained(r, v);
      case _ =>
    }
  }

  predicate FieldRegained(r: Rule, v: Value, i: nat)
    requires r.shape.Struct? && Fits(r.shape, v) && i < |r.shape.props|
  {
    if Dropped(r.shape.props[i], v.fields[i]) then Spared(r.shape.props[i].rule)
    else Regained(r.shape.props[i].rule, v.fields[i])
  }

  lemma {:induction false} FieldsRegained(r: Rule, v: Value)
    requires r.shape.Struct? && Fits(r.shape, v)
    ensures Regained(r, v) <==> forall i :: 0 <= i < |r.shape.props| ==> FieldRegained(r, v, i)
  {
    forall i | 0 <= i < |r.shape.props|
      ensures FieldRegained(r, v, i) <==>
              (if Dropped(r.shape.props[i], v.fields[i]) then Spared(r.shape.props[i].rule)
               else Regained(r.shape.props[i].rule, v.fields[i]))
    {
    }
  }

  /** Rules without flags encode every value and miss none. */
  lemma {:induction false} OptionalRegains(r: Rule, v: Value)
    requires WellFormed(r) && Fits(r.shape, v) && Optional(r)
    ensures Encodes(r, v) && Regained(r, v)
    decreases v
  {
    match v {
      case SliceV(items) =>
        forall i | 0 <= i < |items|
          ensures Encodes(r.shape.item, items[i]) && Regained(r.shape.item, items[i])
        {
          OptionalRegains(r.shape.item, items[i]);
        }
      case MapV(entries) =>
        forall k | k in entries
          ensures Encodes(r.shape.elem, entries[k]) && Regained(r.shape.elem, entries[k])
        {
          OptionalRegains(r.shape.elem, entries[k]);
        }
      case StructV(fields) =>
        forall i | 0 <= i < |fields|
          ensures Encodes(r.shape.props[i].rule, fields[i]) && Regained(r.shape.props[i].rule, fields[i])
        {
          OptionalRegains(r.shape.props[i].rule, fields[i]);
        }
      case _ =>
    }
  }

  /**
   Within the depth limit, what was encoded comes back with its empty defaulted fields filled,
   exactly when no field that was dropped is asked for.
   */
  lemma {:induction false} RoundTrip(r: Rule, v: Value, j: Json, max: nat)
    requires WellFormed(r) && Plain(r) && Open(r) && Shallow(r, max)
    requires Fits(r.shape, v) && Encodes(r, v) && CleanValue(r, v) && Denotes(r, v, j)
    ensures var res := Walk(Read(Print(j)), r, Zero(r.shape), 0, max);
            if Regained(r, v) then res == Ok(Filled(r, v)) else res.Err?
  {
    DecodeUndoesEncode(r, v, j, max);
    RebuildsIff(r, v, 0, max);
    RebuiltIsFilled(r, v);
  }

  /** Without flags every value encodes and comes back. */
  lemma {:induction false} OptionalRoundTrip(r: Rule, v: Value, j: Json, max: nat)
    requires WellFormed(r) && Plain(r) && Open(r) && Optional(r) && Shallow(r, max)
    requires Fits(r.shape, v) && CleanValue(r, v) && Denotes(r, v, j)
    ensures Encodes(r, v) && Walk(Read(Print(j)), r, Zero(r.shape), 0, max) == Ok(Filled(r, v))
  {
    OptionalRegains(r, v);
    RoundTrip(r, v, j, max);
  }

  /** A zero that allow_zero permits is dropped by omitempty, and the decoder refuses the text without it. */
  lemma {:induction false} DroppedZeroIsMissed(r: Rule, v: Value, j: Json, max: nat)
    requires r == Rule(false, false, false, false, None,
                       Struct([Prop("n", true, false, Rule(true, false, true, false, None, IntKind(64)))]))
    requires v == StructV([IntV(0)]) && Denotes(r, v, j)
    ensures Encodes(r, v) && j == Obj([]) && Walk(Some(j), r, Zero(r.shape), 0, max).Err?
  {
    assert FieldsDenote(r.shape.props, v, 0, j.members);
    assert !AbsentOk(r.shape.props[0].rule, 1, max);
    WalkBack(r, v, j, 0, max);
  }

  /** A string with another control character is printed as it is, and no JSON reader accepts the text. */
  lemma {:induction false} BellIsNotEscaped(r: Rule, v: Value, j: Json)
    requires r == Rule(false, false, false, false, None, StrKind) && v == StrV([7 as char]) && Denotes(r, v, j)
    ensures Print(j) == ['"', 7 as char, '"'] && Read(Print(j)) == None
  {
    assert Escaped([7 as char]) == [7 as char] + Escaped([]);
    assert !CleanChar(v.s[0]);
    EncodedText(r, v, j);
  }
}
