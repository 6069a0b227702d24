/**
 User configuration of a plugin: the normalize / mask / preserve pipeline of
 internal/api/handlers_user_config.go, over decoded JSON values.
 */
module UserConfig {
  import opened Prelude

  datatype Json =
    | Null
    | Bool(b: bool)
    | Num(n: real)
    | Str(s: string)
    | Arr(items: seq<Json>)
    | Obj(fields: map<string, Json>)

  type Values = map<string, Json>

  datatype Type = String | Int | Float | Boolean | Password | Options | MultilineString | GroupArray | Untyped

  datatype Validation = Validation(minLength: Option<int>, maxLength: Option<int>, minimum: Option<real>, maximum: Option<real>)

  datatype Param = Param(
    key: string,
    kind: Type,
    optional: bool,
    validation: Option<Validation>,
    fields: seq<Param>,
    minItems: Option<int>,
    maxItems: Option<int>)

  const PLACEHOLDER := "**masked**"

  function Masked(): Json { Str(PLACEHOLDER) }

  // Lookup in a map filled in order: the last parameter with the key wins.
  function ByKey(params: seq<Param>, key: string): (r: Option<Param>)
    ensures r.Some? ==> r.value in params && r.value.key == key
    ensures r.None? <==> forall p :: p in params ==> p.key != key
  {
    if params == [] then None
    else if params[|params| - 1].key == key then Some(params[|params| - 1])
    else ByKey(params[..|params| - 1], key)
  }

  lemma {:induction false} LastWins(params: seq<Param>, i: nat)
    requires i < |params| && forall j :: i < j < |params| ==> params[j].key != params[i].key
    ensures ByKey(params, params[i].key) == Some(params[i])
  {
    if i < |params| - 1 {
      LastWins(params[..|params| - 1], i);
    }
  }

  ghost predicate DistinctKeys(params: seq<Param>) {
    forall i, j :: 0 <= i < j < |params| ==> params[i].key != params[j].key
  }

  lemma ByKeyUnique(params: seq<Param>, p: Param)
    requires DistinctKeys(params) && p in params
    ensures ByKey(params, p.key) == Some(p)
  {
  }

  // ---- validateGroupArrayFieldValue -----------------------------------------------------

  predicate LengthFits(v: Option<Validation>, length: int) {
    v.Some? ==>
      && (v.value.minLength.Some? ==> length >= v.value.minLength.value)
      && (v.value.maxLength.Some? ==> length <= v.value.maxLength.value)
  }

  predicate RangeFits(v: Option<Validation>, n: real) {
    v.Some? ==>
      && (v.value.minimum.Some? ==> n >= v.value.minimum.value)
      && (v.value.maximum.Some? ==> n <= v.value.maximum.value)
  }

  predicate FieldValid(field: Param, v: Json) {
    v == Null ||
    match field.kind
    case Boolean => v.Bool?
    case String => v.Str? && LengthFits(field.validation, |v.s|)
    case Password => v.Str? && LengthFits(field.validation, |v.s|)
    case MultilineString => v.Str? && LengthFits(field.validation, |v.s|)
    case Options => v.Str? && LengthFits(field.validation, |v.s|)
    case Int => v.Num? && v.n == v.n.Floor as real && RangeFits(field.validation, v.n)
    case Float => v.Num? && RangeFits(field.validation, v.n)
    case _ => true
  }

  // ---- normalizeUserConfigValue -----------------------------------------------------------

  predicate ItemValid(fields: seq<Param>, obj: Values) {
    && (forall f :: f in fields && !f.optional ==> f.key in obj)
    && (forall k :: k in obj && ByKey(fields, k).Some? ==> FieldValid(ByKey(fields, k).value, obj[k]))
  }

  function KnownFields(fields: seq<Param>, obj: Values): Values {
    map k | k in obj && ByKey(fields, k).Some? :: obj[k]
  }

  function NormalizeItems(fields: seq<Param>, items: seq<Json>): Option<seq<Json>> {
    if items == [] then Some([])
    else
      var item := items[|items| - 1];
      match NormalizeItems(fields, items[..|items| - 1])
      case None => None
      case Some(done) =>
        if !item.Obj? || !ItemValid(fields, item.fields) then None
        else Some(done + [Obj(KnownFields(fields, item.fields))])
  }

  function Normalize(param: Param, v: Json): Option<Json> {
    if param.kind != GroupArray then Some(v)
    else if !v.Arr? then None
    else if param.minItems.Some? && |v.items| < param.minItems.value then None
    else if param.maxItems.Some? && |v.items| > param.maxItems.value then None
    else
      match NormalizeItems(param.fields, v.items)
      case None => None
      case Some(items) => Some(Arr(items))
  }

  method NormalizeItem(fields: seq<Param>, obj: Values) returns (r: Option<Values>)
    ensures r == if ItemValid(fields, obj) then Some(KnownFields(fields, obj)) else None
  {
    for i := 0 to |fields|
      invariant forall f :: f in fields[..i] && !f.optional ==> f.key in obj
    {
      if !fields[i].optional && fields[i].key !in obj {
        return None;
      }
    }
    assert fields[..|fields|] == fields;
    var clean: Values := map[];
    var rest := obj.Keys;
    while rest != {}
      invariant rest <= obj.Keys
      invariant forall k :: k in obj && k !in rest && ByKey(fields, k).Some? ==> FieldValid(ByKey(fields, k).value, obj[k])
      invariant forall k :: k in clean <==> k in obj && k !in rest && ByKey(fields, k).Some?
      invariant forall k :: k in clean ==> clean[k] == obj[k]
    {
      var k :| k in rest;
      rest := rest - {k};
      var field := ByKey(fields, k);
      if field == None {
        continue;
      }
      if !FieldValid(field.value, obj[k]) {
        return None;
      }
      clean := clean[k := obj[k]];
    }
    assert clean == KnownFields(fields, obj);
    return Some(clean);
  }

  method NormalizeUserConfigValue(param: Param, v: Json) returns (r: Option<Json>)
    ensures r == Normalize(param, v)
  {
    if param.kind != GroupArray {
      return Some(v);
    }
    if !v.Arr? || (param.minItems.Some? && |v.items| < param.minItems.value)
       || (param.maxItems.Some? && |v.items| > param.maxItems.value) {
      return None;
    }
    var normalized := [];
    for i := 0 to |v.items|
      invariant NormalizeItems(param.fields, v.items[..i]) == Some(normalized)
    {
      assert v.items[..i + 1][..i] == v.items[..i];
      if !v.items[i].Obj? {
        ItemsFail(param.fields, v.items, i);
        return None;
      }
      var clean := NormalizeItem(param.fields, v.items[i].fields);
      if clean == None {
        ItemsFail(param.fields, v.items, i);
        return None;
      }
      normalized := normalized + [Obj(clean.value)];
    }
    assert v.items[..|v.items|] == v.items;
    return Some(Arr(normalized));
  }

  // One bad item spoils the array.
  lemma {:induction false} ItemsFail(fields: seq<Param>, items: seq<Json>, i: nat)
    requires i < |items| && (!items[i].Obj? || !ItemValid(fields, items[i].fields))
    ensures NormalizeItems(fields, items) == None
  {
    if i < |items| - 1 {
      ItemsFail(fields, items[..|items| - 1], i);
    }
  }

  // ---- maskUserConfigValues ----------------------------------------------------------------

  predicate IsSecret(fields: seq<Param>, key: string) {
    exists f :: f in fields && f.kind == Password && f.key == key
  }

  function MaskItem(fields: seq<Param>, item: Json): Json {
    if !item.Obj? then item
    else Obj(map k | k in item.fields :: if IsSecret(fields, k) then Masked() else item.fields[k])
  }

  function MaskValue(param: Param, v: Json): Json {
    match param.kind
    case Password => Masked()
    case GroupArray =>
      if v.Arr? then Arr(seq(|v.items|, (i: nat) requires i < |v.items| => MaskItem(param.fields, v.items[i]))) else v
    case _ => v
  }

  function Mask(schema: seq<Param>, values: Values): Values {
    map k | k in values ::
      match ByKey(schema, k)
      case None => values[k]
      case Some(param) => MaskValue(param, values[k])
  }

  method MaskConfigValue(param: Param, v: Json) returns (r: Json)
    ensures r == MaskValue(param, v)
  {
    if param.kind == Password {
      return Masked();
    }
    if param.kind != GroupArray || !v.Arr? {
      return v;
    }
    var masked := [];
    for i := 0 to |v.items|
      invariant |masked| == i
      invariant forall j :: 0 <= j < i ==> masked[j] == MaskItem(param.fields, v.items[j])
    {
      var item := v.items[i];
      if item.Obj? {
        var obj := item.fields;
        for f := 0 to |param.fields|
          invariant obj.Keys == item.fields.Keys
          invariant forall k :: k in obj ==>
            obj[k] == if IsSecret(param.fields[..f], k) then Masked() else item.fields[k]
        {
          var field := param.fields[f];
          SecretNext(param.fields, f);
          if field.kind == Password && field.key in obj {
            obj := obj[field.key := Masked()];
          }
        }
        assert param.fields[..|param.fields|] == param.fields;
        assert Obj(obj) == MaskItem(param.fields, item);
        item := Obj(obj);
      }
      masked := masked + [item];
    }
    r := Arr(masked);
  }

  lemma SecretNext(fields: seq<Param>, f: nat)
    requires f < |fields|
    ensures forall k :: IsSecret(fields[..f + 1], k) <==>
              IsSecret(fields[..f], k) || (fields[f].kind == Password && fields[f].key == k)
  {
    assert fields[..f + 1] == fields[..f] + [fields[f]];
    forall k ensures IsSecret(fields[..f + 1], k) <==>
                       IsSecret(fields[..f], k) || (fields[f].kind == Password && fields[f].key == k)
    {
      if IsSecret(fields[..f], k) {
        var p :| p in fields[..f] && p.kind == Password && p.key == k;
        assert p in fields[..f + 1];
      }
    }
  }

  method MaskUserConfigValues(schema: seq<Param>, values: Values) returns (out: Values)
    ensures out == Mask(schema, values)
  {
    out := map[];
    var rest := values.Keys;
    while rest != {}
      invariant rest <= values.Keys && out.Keys == values.Keys - rest
      invariant forall k :: k in out ==> out[k] == Mask(schema, values)[k]
    {
      var k :| k in rest;
      rest := rest - {k};
      var param := ByKey(schema, k);
      var v := values[k];
      if param != None {
        v := MaskConfigValue(param.value, v);
      }
      out := out[k := v];
    }
  }

  // ---- preserveExistingPasswords ------------------------------------------------------------

  // The secrets of one item: a submitted placeholder becomes the old secret at the
  // same place, or disappears.
  function PreserveItem(fields: seq<Param>, obj: Values, old_: Values): Values {
    map k | k in obj && (IsSecret(fields, k) && obj[k] == Masked() ==> k in old_) ::
      if IsSecret(fields, k) && obj[k] == Masked() then old_[k] else obj[k]
  }

  function OldItem(existing: Option<Json>, i: nat): Values {
    if existing.Some? && existing.value.Arr? && i < |existing.value.items| && existing.value.items[i].Obj?
    then existing.value.items[i].fields else map[]
  }

  function PreserveItems(fields: seq<Param>, items: seq<Json>, existing: Option<Json>): seq<Json> {
    seq(|items|, (i: nat) requires i < |items| =>
      if items[i].Obj? then Obj(PreserveItem(fields, items[i].fields, OldItem(existing, i))) else items[i])
  }

  function Lookup(values: Values, key: string): Option<Json> {
    if key in values then Some(values[key]) else None
  }

  function PreserveParam(filtered: Values, existing: Values, param: Param): Values {
    match param.kind
    case Password =>
      if Lookup(filtered, param.key) != Some(Masked()) then filtered
      else if param.key in existing then filtered[param.key := existing[param.key]]
      else filtered - {param.key}
    case GroupArray =>
      if param.key in filtered && filtered[param.key].Arr? then
        filtered[param.key := Arr(PreserveItems(param.fields, filtered[param.key].items, Lookup(existing, param.key)))]
      else filtered
    case _ => filtered
  }

  function Preserve(filtered: Values, existing: Values, schema: seq<Param>): Values {
    if schema == [] then filtered
    else PreserveParam(Preserve(filtered, existing, schema[..|schema| - 1]), existing, schema[|schema| - 1])
  }

  // The maps the handler edits in place.
  class Draft {
    var filtered: Values

    constructor (filtered: Values)
      ensures this.filtered == filtered
    {
      this.filtered := filtered;
    }

    method PreserveExistingPasswords(existing: Values, schema: seq<Param>)
      modifies this
      ensures filtered == Preserve(old(filtered), existing, schema)
    {
      for i := 0 to |schema|
        invariant filtered == Preserve(old(filtered), existing, schema[..i])
      {
        assert schema[..i + 1][..i] == schema[..i];
        var param := schema[i];
        if param.kind == Password {
          if param.key in filtered && filtered[param.key] == Masked() {
            if param.key in existing {
              filtered := filtered[param.key := existing[param.key]];
            } else {
              filtered := filtered - {param.key};
            }
          }
        } else if param.kind == GroupArray && param.key in filtered && filtered[param.key].Arr? {
          PreserveGroup(param, Lookup(existing, param.key));
        }
      }
      assert schema[..|schema|] == schema;
    }

    method PreserveGroup(param: Param, existing: Option<Json>)
      requires param.key in filtered && filtered[param.key].Arr?
      modifies this
      ensures filtered == old(filtered)[param.key := Arr(PreserveItems(param.fields, old(filtered)[param.key].items, existing))]
    {
      var items := filtered[param.key].items;
      var done := [];
      for i := 0 to |items|
        invariant |done| == i && filtered == old(filtered)
        invariant forall j :: 0 <= j < i ==> done[j] == PreserveItems(param.fields, items, existing)[j]
      {
        var item := items[i];
        if item.Obj? {
          var obj := PreserveSecrets(param.fields, item.fields, OldItem(existing, i));
          item := Obj(obj);
        }
        done := done + [item];
      }
      assert done == PreserveItems(param.fields, items, existing);
      filtered := filtered[param.key := Arr(done)];
    }
  }

  // One field of one item.
  function PreserveField(field: Param, obj: Values, old_: Values): Values {
    if field.kind == Password && Lookup(obj, field.key) == Some(Masked()) then
      if field.key in old_ then obj[field.key := old_[field.key]] else obj - {field.key}
    else obj
  }

  lemma PreserveNextField(fields: seq<Param>, f: nat, submitted: Values, old_: Values)
    requires f < |fields|
    ensures PreserveField(fields[f], PreserveItem(fields[..f], submitted, old_), old_)
            == PreserveItem(fields[..f + 1], submitted, old_)
  {
    hide IsSecret;
    SecretNext(fields, f);
  }

  method PreserveSecrets(fields: seq<Param>, submitted: Values, old_: Values) returns (obj: Values)
    ensures obj == PreserveItem(fields, submitted, old_)
  {
    obj := submitted;
    for f := 0 to |fields|
      invariant obj == PreserveItem(fields[..f], submitted, old_)
    {
      var field := fields[f];
      PreserveNextField(fields, f, submitted, old_);
      if field.kind == Password && field.key in obj && obj[field.key] == Masked() {
        if field.key in old_ {
          obj := obj[field.key := old_[field.key]];
        } else {
          obj := obj - {field.key};
        }
      }
    }
    assert fields[..|fields|] == fields;
  }

  // ---- handleSetUserConfigValues ---------------------------------------------------------------

  // Undeclared keys are dropped; any declared value that does not normalize refuses
  // the whole submission.
  predicate Acceptable(schema: seq<Param>, incoming: Values) {
    forall k :: k in incoming && ByKey(schema, k).Some? ==> Normalize(ByKey(schema, k).value, incoming[k]).Some?
  }

  function Filtered(schema: seq<Param>, incoming: Values): Values
    requires Acceptable(schema, incoming)
  {
    map k | k in incoming && ByKey(schema, k).Some? :: Normalize(ByKey(schema, k).value, incoming[k]).value
  }

  // What a submission stores, or None if it is refused.
  function Post(schema: seq<Param>, existing: Values, incoming: Values): Option<Values> {
    if Acceptable(schema, incoming) then Some(Preserve(Filtered(schema, incoming), existing, schema)) else None
  }

  method SetUserConfigValues(schema: seq<Param>, existing: Values, incoming: Values) returns (r: Option<Values>)
    ensures r == Post(schema, existing, incoming)
  {
    var filtered: Values := map[];
    var rest := incoming.Keys;
    while rest != {}
      invariant rest <= incoming.Keys
      invariant forall k :: k in incoming && k !in rest && ByKey(schema, k).Some? ==>
        Normalize(ByKey(schema, k).value, incoming[k]).Some?
      invariant forall k :: k in filtered <==> k in incoming && k !in rest && ByKey(schema, k).Some?
      invariant forall k :: k in filtered ==> Some(filtered[k]) == Normalize(ByKey(schema, k).value, incoming[k])
    {
      var k :| k in rest;
      rest := rest - {k};
      var param := ByKey(schema, k);
      if param == None {
        continue;
      }
      var clean := NormalizeUserConfigValue(param.value, incoming[k]);
      if clean == None {
        return None;
      }
      filtered := filtered[k := clean.value];
    }
    assert filtered == Filtered(schema, incoming);
    var draft := new Draft(filtered);
    draft.PreserveExistingPasswords(existing, schema);
    return Some(draft.filtered);
  }
}
