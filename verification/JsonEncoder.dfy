/** encodeFieldValue of bodyparser_json.go, which appends to one shared buffer. */
module JsonEncoder {
  import opened Options
  import opened Decimal
  import opened JsonText
  import opened JsonSchema

  predicate PlainName(name: string) {
    forall i :: 0 <= i < |name| ==> name[i] >= ' ' && name[i] != '"' && name[i] != '\\'
  }

  /** No field name of the schema needs an escape: encodeStruct writes names as they are. */
  ghost predicate Plain(r: Rule)
    decreases r
  {
    match r.shape
    case Slice(item) => Plain(item)
    case MapOf(elem) => Plain(elem)
    case Struct(props) =>
      forall i :: 0 <= i < |props| ==> PlainName(props[i].name) && Plain(props[i].rule)
    case _ => true
  }

  class Buffer {
    var data: string

    constructor ()
      ensures data == ""
    {
      data := "";
    }

    method Write(s: string)
      modifies this
      ensures data == old(data) + s
    {
      data := data + s;
    }
  }

  // ---- the printer, one element at a time ----

  lemma {:induction false} EscapedJoins(s: string, t: string)
    ensures Escaped(s + t) == Escaped(s) + Escaped(t)
  {
    if s == "" {
      assert s + t == t;
    } else {
      EscapedJoins(s[1..], t);
      assert (s + t)[1..] == s[1..] + t;
      Regroup(Escape(s[0]), Escaped(s[1..]), Escaped(t));
    }
  }

  lemma {:induction false} EscapedPlain(s: string)
    requires PlainName(s)
    ensures Escaped(s) == s
  {
    if s != "" {
      EscapedPlain(s[1..]);
      assert s == [s[0]] + s[1..];
    }
  }

  lemma {:induction false} MoreItemsJoin(a: seq<Json>, b: seq<Json>)
    ensures MoreItems(a + b) == MoreItems(a) + MoreItems(b)
  {
    if a == [] {
      assert a + b == b;
    } else {
      MoreItemsJoin(a[1..], b);
      assert (a + b)[1..] == a[1..] + b;
      Regroup("," + Print(a[0]), MoreItems(a[1..]), MoreItems(b));
    }
  }

  lemma {:induction false} ItemsGrow(a: seq<Json>, j: Json)
    ensures PrintItems(a + [j]) == PrintItems(a) + (if a == [] then "" else ",") + Print(j)
  {
    assert MoreItems([j]) == "," + Print(j) + MoreItems([]);
    if a == [] {
      assert a + [j] == [j];
    } else {
      MoreItemsJoin(a[1..], [j]);
      assert (a + [j])[1..] == a[1..] + [j];
      Commas(Print(a[0]), MoreItems(a[1..]), Print(j));
    }
  }

  lemma {:induction false} MoreMembersJoin(a: seq<Member>, b: seq<Member>)
    ensures MoreMembers(a + b) == MoreMembers(a) + MoreMembers(b)
  {
    if a == [] {
      assert a + b == b;
    } else {
      MoreMembersJoin(a[1..], b);
      assert (a + b)[1..] == a[1..] + b;
      Regroup("," + PrintMember(a[0]), MoreMembers(a[1..]), MoreMembers(b));
    }
  }

  lemma {:induction false} OneMore(m: Member)
    ensures MoreMembers([m]) == "," + PrintMember(m)
    ensures PrintMembers([m]) == PrintMember(m)
  {
    assert [m][1..] == [];
    assert MoreMembers([m]) == "," + PrintMember(m) + "";
  }

  lemma {:induction false} MembersHead(a: seq<Member>, b: seq<Member>)
    requires a != []
    ensures PrintMembers(a + b) == PrintMember(a[0]) + MoreMembers(a[1..] + b)
  {
    assert (a + b)[1..] == a[1..] + b;
  }

  lemma {:induction false} MembersGrow(a: seq<Member>, m: Member)
    ensures PrintMembers(a + [m]) == PrintMembers(a) + (if a == [] then "" else ",") + PrintMember(m)
  {
    OneMore(m);
    if a == [] {
      assert a + [m] == [m];
    } else {
      MembersHead(a, [m]);
      MoreMembersJoin(a[1..], [m]);
      Commas(PrintMember(a[0]), MoreMembers(a[1..]), PrintMember(m));
    }
  }

  lemma {:induction false} Commas(a: string, b: string, c: string)
    ensures a + (b + ("," + c)) == a + b + "," + c
  {
  }

  // ---- the encoder ----

  method EncodeString(buf: Buffer, s: string)
    modifies buf
    ensures buf.data == old(buf.data) + Quote(s)
  {
    buf.Write("\"");
    for i := 0 to |s|
      invariant buf.data == old(buf.data) + "\"" + Escaped(s[..i])
    {
      EscapedJoins(s[..i], [s[i]]);
      assert s[..i + 1] == s[..i] + [s[i]];
      assert Escaped([s[i]]) == Escape(s[i]);
      match s[i] {
        case '"' => buf.Write("\\\"");
        case '\\' => buf.Write("\\\\");
        case '\n' => buf.Write("\\n");
        case '\r' => buf.Write("\\r");
        case '\t' => buf.Write("\\t");
        case c => buf.Write([c]);
      }
    }
    assert s[..|s|] == s;
    buf.Write("\"");
  }

  /** Every value that is written passes the validators of its rule; a dropped field is not asked. */
  predicate Encodes(r: Rule, v: Value)
    requires Fits(r.shape, v)
    decreases v
  {
    Passes(r, Some(Applied(r, v))) &&
    match v
    case SliceV(items) => forall i :: 0 <= i < |items| ==> Encodes(r.shape.item, items[i])
    case MapV(entries) => forall k :: k in entries ==> Encodes(r.shape.elem, entries[k])
    case StructV(fields) =>
      forall i :: 0 <= i < |fields| ==> Dropped(r.shape.props[i], fields[i]) || Encodes(r.shape.props[i].rule, fields[i])
    case _ => true
  }

  /** From was to now the buffer gained the text of j, which denotes v under r. */
  ghost predicate Wrote(r: Rule, v: Value, j: Json, was: string, now: string) {
    was <= now && (Plain(r) ==> Denotes(r, v, j) && now == was + Print(j))
  }

  /** The encoder appends the text of a JSON value that denotes v under r, unless a validator objects. */
  method EncodeFieldValue(buf: Buffer, v: Value, r: Rule) returns (ok: bool, ghost j: Json)
    requires WellFormed(r) && Fits(r.shape, v)
    modifies buf
    ensures ok <==> Encodes(r, v)
    ensures ok ==> Wrote(r, v, j, old(buf.data), buf.data)
    decreases r, 2
  {
    var val := v;
    if r.tagged && IsEmpty(v) {
      val := r.default.value;
    }
    j := Json.Null;
    if !Passes(r, Some(val)) {
      return false, j;
    }
    ok := true;
    match r.shape {
      case BoolKind =>
        buf.Write(Literal(val.b));
        j := Json.Bool(val.b);
      case IntKind(_) =>
        buf.Write(Integer(val.n));
        j := Num(Integer(val.n));
      case StrKind =>
        EncodeString(buf, val.s);
        j := Str(val.s);
      case Slice(item) =>
        ok, j := EncodeArr(buf, v, r);
      case MapOf(elem) =>
        ok, j := EncodeMap(buf, v, r);
      case Struct(props) =>
        ok, j := EncodeStruct(buf, v, r);
        StructEncodes(r, v);
    }
  }

  /** The items written so far, after the opening bracket. */
  ghost predicate WroteItems(r: Rule, v: Value, js: seq<Json>, was: string, now: string)
    requires r.shape.Slice? && v.SliceV? && |js| <= |v.items|
  {
    was <= now &&
    (Plain(r) ==> now == was + "[" + PrintItems(js) && forall k :: 0 <= k < |js| ==> Denotes(r.shape.item, v.items[k], js[k]))
  }

  lemma {:induction false} WroteItem(r: Rule, v: Value, js: seq<Json>, e: Json,
      was: string, mid: string, comma: string, now: string)
    requires r.shape.Slice? && v.SliceV? && |js| < |v.items|
    requires WroteItems(r, v, js, was, mid) && comma == (if js == [] then mid else mid + ",")
    requires Wrote(r.shape.item, v.items[|js|], e, comma, now)
    ensures WroteItems(r, v, js + [e], was, now)
  {
    ItemsGrow(js, e);
  }

  lemma {:induction false} WroteArr(r: Rule, v: Value, js: seq<Json>, was: string, mid: string)
    requires r.shape.Slice? && v.SliceV? && |js| == |v.items| && WroteItems(r, v, js, was, mid)
    ensures Wrote(r, v, Arr(js), was, mid + "]")
  {
  }

  method EncodeArr(buf: Buffer, v: Value, r: Rule) returns (ok: bool, ghost j: Json)
    requires WellFormed(r) && Fits(r.shape, v) && r.shape.Slice?
    modifies buf
    ensures ok <==> forall i :: 0 <= i < |v.items| ==> Encodes(r.shape.item, v.items[i])
    ensures ok ==> Wrote(r, v, j, old(buf.data), buf.data)
    decreases r, 0
  {
    buf.Write("[");
    ghost var js: seq<Json> := [];
    for i := 0 to |v.items|
      invariant |js| == i && WroteItems(r, v, js, old(buf.data), buf.data)
      invariant forall k :: 0 <= k < i ==> Encodes(r.shape.item, v.items[k])
    {
      ghost var mid := buf.data;
      if i > 0 {
        buf.Write(",");
      }
      ghost var comma := buf.data;
      var item, e := EncodeFieldValue(buf, v.items[i], r.shape.item);
      if !item {
        return false, Json.Null;
      }
      WroteItem(r, v, js, e, old(buf.data), mid, comma, buf.data);
      js := js + [e];
    }
    WroteArr(r, v, js, old(buf.data), buf.data);
    buf.Write("]");
    ok, j := true, Arr(js);
  }

  /** The members written so far, after the opening brace. */
  ghost predicate WroteMembers(ms: seq<Member>, was: string, now: string) {
    now == was + "{" + PrintMembers(ms)
  }

  lemma {:induction false} WroteMember(ms: seq<Member>, m: Member, was: string, mid: string, now: string)
    requires WroteMembers(ms, was, mid) && now == mid + (if ms == [] then "" else ",") + PrintMember(m)
    ensures WroteMembers(ms + [m], was, now)
  {
    MembersGrow(ms, m);
  }

  /** The entries in ms are those of v whose keys are no longer to do. */
  ghost predicate Entries(elem: Rule, v: Value, todo: set<string>, ms: seq<Member>)
    requires v.MapV?
  {
    && (forall i :: 0 <= i < |ms| ==> EntryDenotes(elem, v, ms[i]) && ms[i].name !in todo)
    && DistinctMembers(ms)
    && (forall k :: k in v.entries && k !in todo ==> exists i :: 0 <= i < |ms| && ms[i].name == k)
  }

  lemma {:induction false} EntryAdded(elem: Rule, v: Value, todo: set<string>, ms: seq<Member>, m: Member)
    requires v.MapV? && Entries(elem, v, todo, ms) && m.name in todo && EntryDenotes(elem, v, m)
    ensures Entries(elem, v, todo - {m.name}, ms + [m])
  {
    forall k | k in v.entries && k !in todo - {m.name}
      ensures exists i :: 0 <= i < |ms + [m]| && (ms + [m])[i].name == k
    {
      if k == m.name {
        assert (ms + [m])[|ms|].name == k;
      } else {
        var i :| 0 <= i < |ms| && ms[i].name == k;
        assert (ms + [m])[i].name == k;
      }
    }
  }

  /** The range over the map picks the next key as it likes. */
  method EncodeMap(buf: Buffer, v: Value, r: Rule) returns (ok: bool, ghost j: Json)
    requires WellFormed(r) && Fits(r.shape, v) && r.shape.MapOf?
    modifies buf
    ensures ok <==> forall k :: k in v.entries ==> Encodes(r.shape.elem, v.entries[k])
    ensures ok ==> Wrote(r, v, j, old(buf.data), buf.data)
    decreases r, 1
  {
    buf.Write("{");
    var todo := v.entries.Keys;
    var first := true;
    ghost var ms: seq<Member> := [];
    while todo != {}
      invariant old(buf.data) <= buf.data && todo <= v.entries.Keys
      invariant first <==> ms == []
      invariant forall k :: k in v.entries && k !in todo ==> Encodes(r.shape.elem, v.entries[k])
      invariant Plain(r) ==> WroteMembers(ms, old(buf.data), buf.data) && Entries(r.shape.elem, v, todo, ms)
      decreases |todo|
    {
      var key :| key in todo;
      ghost var mid := buf.data;
      if !first {
        buf.Write(",");
      }
      first := false;
      var entry, m := EncodeEntry(buf, v, key, r);
      if !entry {
        return false, Json.Null;
      }
      if Plain(r) {
        WroteMember(ms, m, old(buf.data), mid, buf.data);
        EntryAdded(r.shape.elem, v, todo, ms, m);
      }
      ms := ms + [m];
      todo := todo - {key};
    }
    buf.Write("}");
    ok, j := true, Obj(ms);
  }

  method EncodeEntry(buf: Buffer, v: Value, key: string, r: Rule) returns (ok: bool, ghost m: Member)
    requires WellFormed(r) && Fits(r.shape, v) && r.shape.MapOf? && key in v.entries
    modifies buf
    ensures ok <==> Encodes(r.shape.elem, v.entries[key])
    ensures ok ==> old(buf.data) <= buf.data && m.name == key
    ensures ok && Plain(r) ==> EntryDenotes(r.shape.elem, v, m) && buf.data == old(buf.data) + PrintMember(m)
    decreases r, 0
  {
    EncodeString(buf, key);
    buf.Write(":");
    var entry, e := EncodeFieldValue(buf, v.entries[key], r.shape.elem);
    ok, m := entry, Member(key, e);
  }

  /** The members written so far are those of the first n fields. */
  ghost predicate WroteFields(r: Rule, v: Value, n: nat, ms: seq<Member>, was: string, now: string)
    requires r.shape.Struct? && v.StructV? && |v.fields| == |r.shape.props| && n <= |r.shape.props|
  {
    was <= now && (Plain(r) ==> WroteMembers(ms, was, now) && FieldsDenote(r.shape.props, v, n, ms))
  }

  /** m was written for the field, and is what the field denotes. */
  ghost predicate WroteField(r: Rule, v: Value, i: nat, m: Member, was: string, now: string)
    requires r.shape.Struct? && v.StructV? && |v.fields| == |r.shape.props| && i < |r.shape.props|
  {
    was <= now && m.name == r.shape.props[i].name &&
    (Plain(r) ==> Denotes(r.shape.props[i].rule, v.fields[i], m.value) && now == was + PrintMember(m))
  }

  /** The field is dropped, or its value passes. */
  predicate FieldEncodes(r: Rule, v: Value, i: nat)
    requires r.shape.Struct? && Fits(r.shape, v) && i < |r.shape.props|
  {
    Dropped(r.shape.props[i], v.fields[i]) || Encodes(r.shape.props[i].rule, v.fields[i])
  }

  lemma {:induction false} StructEncodes(r: Rule, v: Value)
    requires WellFormed(r) && r.shape.Struct? && Fits(r.shape, v)
    ensures Encodes(r, v) <==> forall i :: 0 <= i < |v.fields| ==> FieldEncodes(r, v, i)
  {
    assert Applied(r, v) == v;
    assert forall i :: 0 <= i < |v.fields| ==>
      (FieldEncodes(r, v, i) <==> Dropped(r.shape.props[i], v.fields[i]) || Encodes(r.shape.props[i].rule, v.fields[i]));
  }

  method EncodeStruct(buf: Buffer, v: Value, r: Rule) returns (ok: bool, ghost j: Json)
    requires WellFormed(r) && Fits(r.shape, v) && r.shape.Struct?
    modifies buf
    ensures ok <==> forall i :: 0 <= i < |v.fields| ==> FieldEncodes(r, v, i)
    ensures ok ==> Wrote(r, v, j, old(buf.data), buf.data)
    decreases r, 1
  {
    buf.Write("{");
    var first := true;
    ghost var ms: seq<Member> := [];
    for i := 0 to |r.shape.props|
      invariant first <==> ms == []
      invariant WroteFields(r, v, i, ms, old(buf.data), buf.data)
      invariant forall k :: 0 <= k < i ==> FieldEncodes(r, v, k)
    {
      var p := r.shape.props[i];
      if (p.omitEmpty && IsEmpty(v.fields[i])) || p.hidden {
        continue;
      }
      ghost var mid := buf.data;
      if !first {
        buf.Write(",");
      }
      first := false;
      ghost var comma := buf.data;
      var field, m := EncodeField(buf, v, i, r);
      if !field {
        assert !FieldEncodes(r, v, i);
        return false, Json.Null;
      }
      FieldAdded(r, v, i, ms, m, old(buf.data), mid, comma, buf.data);
      ms := ms + [m];
    }
    StructDone(r, v, ms, old(buf.data), buf.data);
    buf.Write("}");
    ok, j := true, Obj(ms);
  }

  lemma {:induction false} StructDone(r: Rule, v: Value, ms: seq<Member>, was: string, now: string)
    requires r.shape.Struct? && v.StructV? && |v.fields| == |r.shape.props|
    requires WroteFields(r, v, |r.shape.props|, ms, was, now)
    ensures Wrote(r, v, Obj(ms), was, now + "}")
  {
    if Plain(r) {
      Closed(was, PrintMembers(ms));
    }
  }

  lemma {:induction false} Closed(was: string, body: string)
    ensures was + "{" + body + "}" == was + ("{" + body + "}")
  {
  }

  lemma {:induction false} FieldAdded(r: Rule, v: Value, i: nat, ms: seq<Member>, m: Member,
      was: string, mid: string, comma: string, now: string)
    requires r.shape.Struct? && v.StructV? && |v.fields| == |r.shape.props| && i < |r.shape.props|
    requires WroteFields(r, v, i, ms, was, mid) && !Dropped(r.shape.props[i], v.fields[i])
    requires comma == mid + (if ms == [] then "" else ",") && WroteField(r, v, i, m, comma, now)
    ensures WroteFields(r, v, i + 1, ms + [m], was, now)
  {
    if Plain(r) {
      WroteMember(ms, m, was, mid, now);
      assert (ms + [m])[..|ms|] == ms;
    }
  }

  method EncodeField(buf: Buffer, v: Value, i: nat, r: Rule) returns (ok: bool, ghost m: Member)
    requires WellFormed(r) && Fits(r.shape, v) && r.shape.Struct? && i < |r.shape.props|
    modifies buf
    ensures ok <==> Encodes(r.shape.props[i].rule, v.fields[i])
    ensures ok ==> WroteField(r, v, i, m, old(buf.data), buf.data)
    decreases r, 0
  {
    var p := r.shape.props[i];
    buf.Write("\"" + p.name + "\":");
    var field, e := EncodeFieldValue(buf, v.fields[i], p.rule);
    ok, m := field, Member(p.name, e);
    if ok && Plain(r) {
      FieldText(p.name, m.value, old(buf.data));
    }
  }

  lemma {:induction false} FieldText(name: string, j: Json, was: string)
    requires PlainName(name)
    ensures was + ("\"" + name + "\":") + Print(j) == was + PrintMember(Member(name, j))
  {
    EscapedPlain(name);
    assert "\"" + name + "\":" == Quote(name) + ":";
    Regroup(was, Quote(name) + ":", Print(j));
  }
}
