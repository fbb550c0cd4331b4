/** walkStruct of bodyparser_json.go, over the tree that a JSON parser returns. */
module JsonDecoder {
  import opened Options
  import opened Decimal
  import opened JsonText
  import opened JsonSchema

  datatype Error = TooDeep | Mistyped | Required

  datatype Result = Ok(value: Value) | Err(error: Error)

  /** node.Get(key), nil-safe; the first member of that name. */
  function Get(node: Option<Json>, name: string): Option<Json> {
    if node.Some? && node.value.Obj? then Find(node.value.members, name) else None
  }

  function Find(ms: seq<Member>, name: string): Option<Json> {
    if ms == [] then None else if ms[0].name == name then Some(ms[0].value) else Find(ms[1..], name)
  }

  /** node is nil or null, which GetNodeByKind reports as EOF. */
  predicate Missing(node: Option<Json>) {
    node.None? || node.value.Null?
  }

  /** int8(v) and its like keep the low bits. */
  function Wrap(n: int, bits: nat): int {
    (n + Half(bits)) % (2 * Half(bits)) - Half(bits)
  }

  /** The scalar cases of GetNodeByKind; numbers are read as 64-bit integers, then cut to the width. */
  function ScalarOf(s: Shape, j: Json): Result {
    match (s, j)
    case (BoolKind, Bool(b)) => Ok(BoolV(b))
    case (StrKind, Str(t)) => Ok(StrV(t))
    case (IntKind(bits), Num(text)) =>
      if IsInteger(text) && InRange(IntegerOf(text), 64) then Ok(IntV(Wrap(IntegerOf(text), bits))) else Err(Mistyped)
    case _ => Err(Mistyped)
  }

  /** A bound value has still to pass the validators of its rule. */
  function Checked(r: Rule, res: Result): Result {
    if res.Ok? && !Passes(r, Some(res.value)) then Err(Required) else res
  }

  // ---- the specification ----

  /** What walkStruct leaves in a destination that holds body. */
  function Walk(node: Option<Json>, r: Rule, body: Value, depth: nat, max: nat): Result
    decreases r, 3
  {
    if depth > max then Err(TooDeep)
    else if Missing(node) && r.default.None? && !r.Flagged() then Ok(body)
    else if Scalar(r.shape) then WalkScalar(node, r, body)
    else
      match r.shape
      case Struct(props) =>
        if body.StructV? && |body.fields| == |props| then WalkFields(node, r, 0, body.fields, depth + 1, max) else Err(Mistyped)
      case MapOf(_) =>
        if node.Some? && node.value.Obj? then WalkMembers(node.value.members, r, map[], None, depth + 1, max)
        else Err(Mistyped)
      case Slice(item) =>
        if node.None? || !node.value.Arr? then Err(Mistyped)
        else if Scalar(item.shape) then Checked(r, WalkScalars(node.value.items, item, []))
        else if node.value.items == [] && r.required && !r.Present() then Err(Required)
        else Checked(r, WalkItems(node.value.items, r, [], depth + 1, max))
  }

  function WalkScalar(node: Option<Json>, r: Rule, body: Value): Result {
    if !Missing(node) then Checked(r, ScalarOf(r.shape, node.value))
    else if !Passes(r, r.default) then Err(Required)
    else Ok(if r.default.Some? then r.default.value else body)
  }

  function WalkFields(node: Option<Json>, r: Rule, i: nat, fields: seq<Value>, depth: nat, max: nat): Result
    requires r.shape.Struct? && i <= |r.shape.props| == |fields|
    decreases r, 2, |fields| - i
  {
    if i == |fields| then Ok(StructV(fields))
    else
      var p := r.shape.props[i];
      match Walk(Get(node, p.name), p.rule, fields[i], depth, max)
      case Err(e) => Err(e)
      case Ok(v) => WalkFields(node, r, i + 1, fields[i := v], depth, max)
  }

  /** obj.Visit goes through all members; the last error is the one reported. */
  function WalkMembers(ms: seq<Member>, r: Rule, entries: map<string, Value>, failed: Option<Error>,
      depth: nat, max: nat): Result
    requires r.shape.MapOf?
    decreases r, 2, |ms|
  {
    if ms == [] then
      match failed
      case Some(e) => Err(e)
      case None => Ok(MapV(entries))
    else
      match Walk(Some(ms[0].value), r.shape.elem, Zero(r.shape.elem.shape), depth, max)
      case Err(e) => WalkMembers(ms[1..], r, entries, Some(e), depth, max)
      case Ok(v) => WalkMembers(ms[1..], r, entries[ms[0].name := v], failed, depth, max)
  }

  /** GetPrimitiveArrValsFromNode, which skips nulls. */
  function WalkScalars(items: seq<Json>, item: Rule, done: seq<Value>): Result {
    if items == [] then Ok(SliceV(done))
    else if items[0].Null? then WalkScalars(items[1..], item, done)
    else
      match ScalarOf(item.shape, items[0])
      case Err(e) => Err(e)
      case Ok(v) => WalkScalars(items[1..], item, done + [v])
  }

  function WalkItems(items: seq<Json>, r: Rule, done: seq<Value>, depth: nat, max: nat): Result
    requires r.shape.Slice?
    decreases r, 2, |items|
  {
    if items == [] then Ok(SliceV(done))
    else
      match Walk(Some(items[0]), r.shape.item, Zero(r.shape.item.shape), depth, max)
      case Err(e) => Err(e)
      case Ok(v) => WalkItems(items[1..], r, done + [v], depth, max)
  }

  // ---- the decoder ----

  method WalkStruct(node: Option<Json>, r: Rule, body: Value, depth: nat, max: nat) returns (res: Result)
    ensures res == Walk(node, r, body, depth, max)
    decreases r, 3
  {
    if depth > max {
      return Err(TooDeep);
    }
    if Missing(node) && r.default.None? && !r.Flagged() {
      return Ok(body);
    }
    match r.shape {
      case Struct(props) =>
        if body.StructV? && |body.fields| == |props| {
          res := BindFields(node, r, body.fields, depth + 1, max);
        } else {
          res := Err(Mistyped);
        }
      case MapOf(_) =>
        if node.Some? && node.value.Obj? {
          res := BindMembers(node.value.members, r, depth + 1, max);
        } else {
          res := Err(Mistyped);
        }
      case Slice(item) =>
        if node.None? || !node.value.Arr? {
          return Err(Mistyped);
        }
        if Scalar(item.shape) {
          res := BindScalars(node.value.items, item);
        } else if node.value.items == [] && r.required && !r.Present() {
          return Err(Required);
        } else {
          res := BindItems(node.value.items, r, depth + 1, max);
        }
        if res.Ok? && !Passes(r, Some(res.value)) {
          res := Err(Required);
        }
      case _ =>
        var val := r.default;
        if !Missing(node) {
          res := ScalarOf(r.shape, node.value);
          if res.Err? {
            return;
          }
          val := Some(res.value);
        }
        if !Passes(r, val) {
          return Err(Required);
        }
        res := Ok(if val.Some? then val.value else body);
    }
  }

  method BindFields(node: Option<Json>, r: Rule, body: seq<Value>, depth: nat, max: nat) returns (res: Result)
    requires r.shape.Struct? && |r.shape.props| == |body|
    ensures res == WalkFields(node, r, 0, body, depth, max)
    decreases r, 2
  {
    var fields := body;
    for i := 0 to |body|
      invariant |fields| == |body|
      invariant WalkFields(node, r, 0, body, depth, max) == WalkFields(node, r, i, fields, depth, max)
    {
      var p := r.shape.props[i];
      var f := WalkStruct(Get(node, p.name), p.rule, fields[i], depth, max);
      if f.Err? {
        return f;
      }
      fields := fields[i := f.value];
    }
    res := Ok(StructV(fields));
  }

  method BindMembers(ms: seq<Member>, r: Rule, depth: nat, max: nat) returns (res: Result)
    requires r.shape.MapOf?
    ensures res == WalkMembers(ms, r, map[], None, depth, max)
    decreases r, 2
  {
    var entries: map<string, Value> := map[];
    var failed := None;
    assert ms[0..] == ms;
    for i := 0 to |ms|
      invariant WalkMembers(ms, r, map[], None, depth, max) == WalkMembers(ms[i..], r, entries, failed, depth, max)
    {
      var v := WalkStruct(Some(ms[i].value), r.shape.elem, Zero(r.shape.elem.shape), depth, max);
      assert ms[i..][1..] == ms[i + 1..];
      if v.Err? {
        failed := Some(v.error);
      } else {
        entries := entries[ms[i].name := v.value];
      }
    }
    res := if failed.Some? then Err(failed.value) else Ok(MapV(entries));
  }

  method BindScalars(items: seq<Json>, item: Rule) returns (res: Result)
    ensures res == WalkScalars(items, item, [])
  {
    var done: seq<Value> := [];
    assert items[0..] == items;
    for i := 0 to |items|
      invariant WalkScalars(items, item, []) == WalkScalars(items[i..], item, done)
    {
      assert items[i..][1..] == items[i + 1..];
      if items[i].Null? {
        continue;
      }
      var v := ScalarOf(item.shape, items[i]);
      if v.Err? {
        return v;
      }
      done := done + [v.value];
    }
    res := Ok(SliceV(done));
  }

  method BindItems(items: seq<Json>, r: Rule, depth: nat, max: nat) returns (res: Result)
    requires r.shape.Slice?
    ensures res == WalkItems(items, r, [], depth, max)
    decreases r, 2
  {
    var done: seq<Value> := [];
    assert items[0..] == items;
    for i := 0 to |items|
      invariant WalkItems(items, r, [], depth, max) == WalkItems(items[i..], r, done, depth, max)
    {
      assert items[i..][1..] == items[i + 1..];
      var v := WalkStruct(Some(items[i]), r.shape.item, Zero(r.shape.item.shape), depth, max);
      if v.Err? {
        return v;
      }
      done := done + [v.value];
    }
    res := Ok(SliceV(done));
  }
}
