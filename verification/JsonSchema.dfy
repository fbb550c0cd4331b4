/**
 Compiled body rules (rules.go, compiler.go), the values they describe, and which JSON value the
 encoder of bodyparser_json.go means by each.
 */
module JsonSchema {
  import opened Options
  import opened Decimal
  import opened JsonText

  /** A Go value; nil and empty slices and maps are not told apart. */
  datatype Value =
    | BoolV(b: bool)
    | IntV(n: int)
    | StrV(s: string)
    | SliceV(items: seq<Value>)
    | MapV(entries: map<string, Value>)
    | StructV(fields: seq<Value>)

  datatype Shape =
    | BoolKind
    | IntKind(bits: nat)
    | StrKind
    | Slice(item: Rule)
    | MapOf(elem: Rule)
    | Struct(props: seq<Prop>)

  /**
   required, presentTag and allowZero: the validate tag names required, present and allow_zero.
   tagged: the field has a default tag (defStr); default: defVal, which may also come from the schema value.
   */
  datatype Rule = Rule(required: bool, presentTag: bool, allowZero: bool, tagged: bool, default: Option<Value>, shape: Shape) {

    /** The compiled present flag; the IsPresent validator comes with it. */
    predicate Present() {
      presentTag || (required && allowZero)
    }

    /** The IsRequired validator is there: allow_zero replaces it by IsPresent. */
    predicate Strict() {
      required && !allowZero
    }

    predicate Flagged() {
      required || Present()
    }
  }

  /** A struct field in orderedProps; hidden: its json tag has a "-" option. */
  datatype Prop = Prop(name: string, omitEmpty: bool, hidden: bool, rule: Rule)

  predicate Scalar(s: Shape) {
    s.BoolKind? || s.IntKind? || s.StrKind?
  }

  /** Signed integers of the given width run from -Half to Half - 1. */
  function Half(bits: nat): (h: nat)
    ensures h > 0
  {
    if bits == 8 then 0x80
    else if bits == 16 then 0x8000
    else if bits == 32 then 0x8000_0000
    else 0x8000_0000_0000_0000
  }

  predicate InRange(n: int, bits: nat) {
    0 - Half(bits) <= n < Half(bits)
  }

  /** The value has the Go type of the rule. */
  predicate Fits(s: Shape, v: Value)
    decreases v
  {
    match s
    case BoolKind => v.BoolV?
    case IntKind(bits) => v.IntV? && InRange(v.n, bits)
    case StrKind => v.StrV?
    case Slice(item) => v.SliceV? && forall i :: 0 <= i < |v.items| ==> Fits(item.shape, v.items[i])
    case MapOf(elem) => v.MapV? && forall k :: k in v.entries ==> Fits(elem.shape, v.entries[k])
    case Struct(props) =>
      v.StructV? && |v.fields| == |props| &&
      forall i :: 0 <= i < |props| ==> Fits(props[i].rule.shape, v.fields[i])
  }

  /** What getItemRuleDef builds: no validators and no default. */
  predicate Bare(r: Rule) {
    !r.Flagged() && !r.tagged && r.default.None?
  }

  ghost predicate DistinctNames(props: seq<Prop>) {
    forall i, k :: 0 <= i < k < |props| ==> props[i].name != props[k].name
  }

  /** What compileSchema builds: defaults on scalars only, none on items, fields told apart by name. */
  ghost predicate WellFormed(r: Rule)
    decreases r
  {
    && (r.tagged ==> r.default.Some?)
    && (r.default.Some? ==> Scalar(r.shape) && Fits(r.shape, r.default.value))
    && match r.shape
       case Slice(item) => Bare(item) && WellFormed(item)
       case MapOf(elem) => Bare(elem) && WellFormed(elem)
       case Struct(props) => DistinctNames(props) && forall i :: 0 <= i < |props| ==> WellFormed(props[i].rule)
       case _ => true
  }

  /** isEmptyValue */
  predicate IsEmpty(v: Value) {
    match v
    case BoolV(b) => !b
    case IntV(n) => n == 0
    case StrV(s) => s == ""
    case SliceV(items) => items == []
    case MapV(entries) => entries == map[]
    case StructV(_) => false
  }

  /** runValidation with IsRequired and IsPresent, as far as the rule has them; None is nil. */
  predicate Passes(r: Rule, val: Option<Value>) {
    && (r.Strict() ==> val.Some? && !IsEmpty(val.value))
    && (r.Present() ==> val.Some?)
  }

  /** The value after encodeFieldValue has replaced an empty one by its default. */
  function Applied(r: Rule, v: Value): Value {
    if r.tagged && r.default.Some? && IsEmpty(v) then r.default.value else v
  }

  /** encodeStruct skips the field; the test is on the value before its default. */
  predicate Dropped(p: Prop, v: Value) {
    p.hidden || (p.omitEmpty && IsEmpty(v))
  }

  /** The Go zero value. */
  function Zero(s: Shape): Value {
    match s
    case BoolKind => BoolV(false)
    case IntKind(_) => IntV(0)
    case StrKind => StrV("")
    case Slice(_) => SliceV([])
    case MapOf(_) => MapV(map[])
    case Struct(props) => StructV(Zeros(props))
  }

  function Zeros(props: seq<Prop>): (vs: seq<Value>)
    ensures |vs| == |props|
  {
    if props == [] then [] else [Zero(props[0].rule.shape)] + Zeros(props[1..])
  }

  lemma {:induction false} ZerosAt(props: seq<Prop>, i: nat)
    requires i < |props|
    ensures Zeros(props)[i] == Zero(props[i].rule.shape)
  {
    if i > 0 {
      ZerosAt(props[1..], i - 1);
    }
  }

  // ---- the validators in terms of the tags ----

  /** The rule takes no zero value. */
  predicate NonZero(r: Rule) {
    r.required && !r.allowZero
  }

  /** The rule takes no absent value. */
  predicate Wanted(r: Rule) {
    r.required || r.presentTag
  }

  // ---- empty is zero ----

  /** What isEmptyValue calls empty is the zero value of the Go type; a struct is never empty. */
  lemma {:induction false} EmptyIsZero(s: Shape, v: Value)
    requires Fits(s, v)
    ensures IsEmpty(v) <==> !s.Struct? && v == Zero(s)
  {
  }

  /**
   IsRequired without allow_zero refuses nil and the zero of every type but structs; IsPresent, and
   IsRequired with allow_zero, refuse nil alone.
   */
  lemma {:induction false} PassesIff(r: Rule, val: Option<Value>)
    requires val.Some? ==> Fits(r.shape, val.value)
    ensures Passes(r, val) <==>
      && (Wanted(r) ==> val.Some?)
      && (NonZero(r) && !r.shape.Struct? ==> val != Some(Zero(r.shape)))
  {
    if val.Some? {
      EmptyIsZero(r.shape, val.value);
    }
  }

  /** Only a zero is replaced by its default, and only under a default tag. */
  lemma {:induction false} AppliedIff(r: Rule, v: Value)
    requires WellFormed(r) && Fits(r.shape, v)
    ensures Applied(r, v) == if r.tagged && v == Zero(r.shape) && !r.shape.Struct? then r.default.value else v
  {
    EmptyIsZero(r.shape, v);
  }

  function Pow2(n: nat): (p: nat)
    ensures p > 0
  {
    if n == 0 then 1 else 2 * Pow2(n - 1)
  }

  /** The width of a Go integer type: 8, 16, 32, or else 64 bits. */
  function Width(bits: nat): nat {
    if bits in [8, 16, 32] then bits else 64
  }

  lemma {:induction false} PowStep(n: nat, k: nat)
    ensures Pow2(n + k) == Pow2(n) * Pow2(k)
  {
    if k > 0 {
      PowStep(n, k - 1);
    }
  }

  lemma PowSquare(n: nat, p: nat)
    requires Pow2(n) == p
    ensures Pow2(n + n) == p * p
  {
    PowStep(n, n);
  }

  lemma {:induction false} HalfIsPower(bits: nat)
    ensures 2 * Half(bits) == Pow2(Width(bits))
  {
    PowSquare(2, 4);
    PowSquare(4, 16);
    PowSquare(8, 0x100);
    PowSquare(16, 0x1_0000);
    PowSquare(32, 0x1_0000_0000);
  }

  // ---- denotation ----

  predicate ScalarDenotes(v: Value, j: Json) {
    match v
    case BoolV(b) => j == Json.Bool(b)
    case IntV(n) => j == Num(Integer(n))
    case StrV(s) => j == Str(s)
    case _ => false
  }

  ghost predicate DistinctMembers(ms: seq<Member>) {
    forall i, k :: 0 <= i < k < |ms| ==> ms[i].name != ms[k].name
  }

  /**
   j is v with its defaults applied and its omitempty fields dropped; the members of a map stand
   in any order.
   */
  ghost predicate Denotes(r: Rule, v: Value, j: Json)
    decreases v, 2
  {
    match r.shape
    case Slice(item) =>
      v.SliceV? && j.Arr? && |j.items| == |v.items| &&
      forall i :: 0 <= i < |v.items| ==> Denotes(item, v.items[i], j.items[i])
    case MapOf(elem) =>
      v.MapV? && j.Obj? && DistinctMembers(j.members) &&
      (forall k :: k in v.entries ==> exists i :: 0 <= i < |j.members| && j.members[i].name == k) &&
      forall i :: 0 <= i < |j.members| ==> EntryDenotes(elem, v, j.members[i])
    case Struct(props) =>
      v.StructV? && |v.fields| == |props| && j.Obj? && FieldsDenote(props, v, |props|, j.members)
    case _ => ScalarDenotes(Applied(r, v), j)
  }

  ghost predicate EntryDenotes(elem: Rule, v: Value, m: Member)
    requires v.MapV?
    decreases v, 1
  {
    m.name in v.entries && Denotes(elem, v.entries[m.name], m.value)
  }

  /** The members are those of the first n fields, in order, without the dropped ones. */
  ghost predicate FieldsDenote(props: seq<Prop>, v: Value, n: nat, ms: seq<Member>)
    requires v.StructV? && |v.fields| == |props| && n <= |props|
    decreases v, 1, n
  {
    if n == 0 then ms == []
    else if Dropped(props[n - 1], v.fields[n - 1]) then FieldsDenote(props, v, n - 1, ms)
    else
      ms != [] && ms[|ms| - 1].name == props[n - 1].name &&
      Denotes(props[n - 1].rule, v.fields[n - 1], ms[|ms| - 1].value) &&
      FieldsDenote(props, v, n - 1, ms[..|ms| - 1])
  }

  // ---- which fields a struct shows ----

  /** The names of the first n fields that are neither hidden nor an omitempty zero, in order. */
  function Shown(props: seq<Prop>, fields: seq<Value>, n: nat): seq<string>
    requires n <= |props| == |fields|
  {
    if n == 0 then []
    else
      var p, init := props[n - 1], Shown(props, fields, n - 1);
      if p.hidden || (p.omitEmpty && !p.rule.shape.Struct? && fields[n - 1] == Zero(p.rule.shape)) then init
      else init + [p.name]
  }

  function NamesOf(ms: seq<Member>): (ns: seq<string>)
    ensures |ns| == |ms| && forall i :: 0 <= i < |ms| ==> ns[i] == ms[i].name
  {
    seq(|ms|, i requires 0 <= i < |ms| => ms[i].name)
  }

  /** The members of a struct's object are exactly its shown fields, in order. */
  lemma {:induction false} StructShows(r: Rule, v: Value, j: Json)
    requires r.shape.Struct? && Fits(r.shape, v) && Denotes(r, v, j)
    ensures NamesOf(j.members) == Shown(r.shape.props, v.fields, |r.shape.props|)
  {
    FieldsShow(r.shape.props, v, |r.shape.props|, j.members);
  }

  lemma {:induction false} FieldsShow(props: seq<Prop>, v: Value, n: nat, ms: seq<Member>)
    requires v.StructV? && n <= |props| == |v.fields| && FieldsDenote(props, v, n, ms)
    requires forall i :: 0 <= i < |props| ==> Fits(props[i].rule.shape, v.fields[i])
    ensures NamesOf(ms) == Shown(props, v.fields, n)
    decreases n
  {
    if n > 0 {
      EmptyIsZero(props[n - 1].rule.shape, v.fields[n - 1]);
      if Dropped(props[n - 1], v.fields[n - 1]) {
        FieldsShow(props, v, n - 1, ms);
      } else {
        FieldsShow(props, v, n - 1, ms[..|ms| - 1]);
        assert NamesOf(ms) == NamesOf(ms[..|ms| - 1]) + [props[n - 1].name];
      }
    }
  }
}
