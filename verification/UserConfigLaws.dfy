/**
 What the mask / preserve pipeline promises: posting back the masked view changes
 nothing, and the placeholder never replaces a stored secret.
 */
module UserConfigLaws {
  import opened Prelude
  import opened UserConfig

  // ---- Round trip -------------------------------------------------------------------------

  ghost predicate ProperSchema(schema: seq<Param>) {
    && DistinctKeys(schema)
    && forall p :: p in schema ==> DistinctKeys(p.fields)
  }

  // Stored values that the pipeline would accept and leave as they are. What it stores
  // itself may lack a required secret: see Reachable values below.
  ghost predicate Normalized(schema: seq<Param>, stored: Values) {
    forall k :: k in stored ==>
      ByKey(schema, k).Some? && Normalize(ByKey(schema, k).value, stored[k]) == Some(stored[k])
  }

  // The placeholder satisfies the length bounds of every secret the item holds.
  ghost predicate ItemAdmits(fields: seq<Param>, obj: Values) {
    forall k :: k in obj && IsSecret(fields, k) && ByKey(fields, k).Some? ==>
      FieldValid(ByKey(fields, k).value, Masked())
  }

  ghost predicate ItemsAdmit(fields: seq<Param>, items: seq<Json>) {
    forall i :: 0 <= i < |items| && items[i].Obj? ==> ItemAdmits(fields, items[i].fields)
  }

  ghost predicate ValueAdmits(param: Param, v: Json) {
    param.kind == GroupArray && v.Arr? ==> ItemsAdmit(param.fields, v.items)
  }

  ghost predicate Admits(schema: seq<Param>, stored: Values) {
    forall k :: k in stored && ByKey(schema, k).Some? ==> ValueAdmits(ByKey(schema, k).value, stored[k])
  }

  function MaskObj(fields: seq<Param>, obj: Values): Values {
    map k | k in obj :: if IsSecret(fields, k) then Masked() else obj[k]
  }

  lemma MaskedItemValid(fields: seq<Param>, obj: Values)
    requires DistinctKeys(fields) && ItemValid(fields, obj) && KnownFields(fields, obj) == obj
    ensures KnownFields(fields, MaskObj(fields, obj)) == MaskObj(fields, obj)
    ensures ItemValid(fields, MaskObj(fields, obj)) <==> ItemAdmits(fields, obj)
  {
    hide FieldValid, IsSecret;
    var masked := MaskObj(fields, obj);
    forall k | k in masked ensures ByKey(fields, k).Some? {
      assert k in KnownFields(fields, obj);
    }
    if ItemValid(fields, masked) {
      forall k | k in obj && IsSecret(fields, k) && ByKey(fields, k).Some?
        ensures FieldValid(ByKey(fields, k).value, Masked())
      {
        assert k in masked && masked[k] == Masked();
      }
    }
  }

  lemma {:induction false} MaskedItemsNormalize(fields: seq<Param>, items: seq<Json>, masked: seq<Json>)
    requires DistinctKeys(fields) && NormalizeItems(fields, items) == Some(items) && |masked| == |items|
    requires forall i :: 0 <= i < |items| ==> masked[i] == MaskItem(fields, items[i])
    ensures NormalizeItems(fields, masked) == if ItemsAdmit(fields, items) then Some(masked) else None
  {
    hide ItemValid, KnownFields, IsSecret, ItemAdmits;
    if items != [] {
      var last := |items| - 1;
      var done := NormalizeItems(fields, items[..last]).value;
      var obj := items[last].fields;
      assert items == done + [Obj(KnownFields(fields, obj))];
      assert done == items[..last] && items[last] == Obj(KnownFields(fields, obj));
      MaskedItemsNormalize(fields, items[..last], masked[..last]);
      MaskedItemValid(fields, obj);
      assert masked[last] == Obj(MaskObj(fields, obj));
      assert masked[..last] + [masked[last]] == masked;
      assert ItemsAdmit(fields, items) <==> ItemsAdmit(fields, items[..last]) && ItemAdmits(fields, obj) by {
        assert forall i :: 0 <= i < last ==> items[..last][i] == items[i];
      }
    }
  }

  lemma MaskedValueNormalizes(param: Param, v: Json)
    requires DistinctKeys(param.fields) && Normalize(param, v) == Some(v)
    ensures Normalize(param, MaskValue(param, v)) ==
            if ValueAdmits(param, v) then Some(MaskValue(param, v)) else None
  {
    hide ItemsAdmit;
    if param.kind == GroupArray {
      MaskedItemsNormalize(param.fields, v.items, MaskValue(param, v).items);
    }
  }

  // Key by key: only the parameter that declares a key touches its value.
  lemma {:induction false} PreserveAt(filtered: Values, existing: Values, schema: seq<Param>, k: string)
    requires DistinctKeys(schema)
    ensures Lookup(Preserve(filtered, existing, schema), k) ==
            match ByKey(schema, k)
            case None => Lookup(filtered, k)
            case Some(p) => Lookup(PreserveParam(filtered, existing, p), k)
  {
    if schema != [] {
      var rest, p := schema[..|schema| - 1], schema[|schema| - 1];
      PreserveAt(filtered, existing, rest, k);
      if p.key == k {
        assert ByKey(rest, k) == None;
        SameAtKey(Preserve(filtered, existing, rest), filtered, existing, p);
      } else {
        OtherKeyUntouched(Preserve(filtered, existing, rest), existing, p, k);
      }
    }
  }

  lemma SameAtKey(a: Values, b: Values, existing: Values, p: Param)
    requires Lookup(a, p.key) == Lookup(b, p.key)
    ensures Lookup(PreserveParam(a, existing, p), p.key) == Lookup(PreserveParam(b, existing, p), p.key)
  {
  }

  lemma OtherKeyUntouched(a: Values, existing: Values, p: Param, k: string)
    requires p.key != k
    ensures Lookup(PreserveParam(a, existing, p), k) == Lookup(a, k)
  {
  }

  lemma UnmaskItem(fields: seq<Param>, obj: Values)
    ensures PreserveItem(fields, MaskObj(fields, obj), obj) == obj
  {
    hide IsSecret;
  }

  lemma UnmaskItems(fields: seq<Param>, items: seq<Json>, masked: seq<Json>)
    requires |masked| == |items| && forall i :: 0 <= i < |items| ==> items[i].Obj? && masked[i] == MaskItem(fields, items[i])
    ensures PreserveItems(fields, masked, Some(Arr(items))) == items
  {
    hide PreserveItem, IsSecret;
    forall i | 0 <= i < |items| ensures PreserveItems(fields, masked, Some(Arr(items)))[i] == items[i] {
      UnmaskItem(fields, items[i].fields);
      assert masked[i] == Obj(MaskObj(fields, items[i].fields));
    }
  }

  lemma {:induction false} NormalizedItemsAreObjects(fields: seq<Param>, items: seq<Json>, out: seq<Json>)
    requires NormalizeItems(fields, items) == Some(out)
    ensures |out| == |items| && forall i :: 0 <= i < |items| ==> items[i].Obj?
  {
    hide ItemValid, KnownFields;
    if items != [] {
      NormalizedItemsAreObjects(fields, items[..|items| - 1], NormalizeItems(fields, items[..|items| - 1]).value);
    }
  }

  lemma UnmaskValue(values: Values, existing: Values, param: Param, v: Json)
    requires Lookup(existing, param.key) == Some(v) && Lookup(values, param.key) == Some(MaskValue(param, v))
    requires Normalize(param, v) == Some(v)
    ensures Lookup(PreserveParam(values, existing, param), param.key) == Some(v)
  {
    if param.kind == GroupArray {
      NormalizedItemsAreObjects(param.fields, v.items, v.items);
      UnmaskItems(param.fields, v.items, MaskValue(param, v).items);
    }
  }

  lemma UnmaskedAt(schema: seq<Param>, stored: Values, k: string)
    requires DistinctKeys(schema) && Normalized(schema, stored)
    ensures Lookup(Preserve(Mask(schema, stored), stored, schema), k) == Lookup(stored, k)
  {
    hide Normalize, MaskValue, PreserveParam, Preserve;
    var masked := Mask(schema, stored);
    PreserveAt(masked, stored, schema, k);
    if k in stored {
      UnmaskValue(masked, stored, ByKey(schema, k).value, stored[k]);
    } else if ByKey(schema, k).Some? {
      AbsentStaysAbsent(masked, stored, ByKey(schema, k).value);
    }
  }

  // Posting the masked view back: accepted exactly when the placeholder fits every
  // stored secret's length bounds, and then the stored values are unchanged, nested
  // secrets included.
  lemma MaskedViewRoundTrip(schema: seq<Param>, stored: Values)
    requires ProperSchema(schema) && Normalized(schema, stored)
    ensures Post(schema, stored, Mask(schema, stored)) == if Admits(schema, stored) then Some(stored) else None
  {
    hide Normalize, MaskValue, ValueAdmits, PreserveParam, Preserve;
    var masked := Mask(schema, stored);
    forall k | k in stored
      ensures Normalize(ByKey(schema, k).value, masked[k]) ==
              if ValueAdmits(ByKey(schema, k).value, stored[k]) then Some(masked[k]) else None
    {
      MaskedValueNormalizes(ByKey(schema, k).value, stored[k]);
    }
    if Admits(schema, stored) {
      assert Acceptable(schema, masked);
      assert Filtered(schema, masked) == masked;
      var result := Preserve(masked, stored, schema);
      forall k ensures Lookup(result, k) == Lookup(stored, k) {
        UnmaskedAt(schema, stored, k);
      }
      LookupsDetermine(result, stored);
    } else {
      var k :| k in stored && ByKey(schema, k).Some? && !ValueAdmits(ByKey(schema, k).value, stored[k]);
      assert k in masked && !Acceptable(schema, masked);
    }
  }

  // An account whose password may have at most five characters.
  function ShortPassword(): Param {
    Param("pw", Password, false, Some(Validation(None, Some(5), None, None)), [], None, None)
  }

  function Accounts(): Param {
    Param("accounts", GroupArray, false, None, [ShortPassword()], None, None)
  }

  function Account(): Values {
    map["pw" := Str("abc")]
  }

  lemma AccountNormalizes()
    ensures NormalizeItems([ShortPassword()], [Obj(Account())]) == Some([Obj(Account())])
    ensures !ItemsAdmit([ShortPassword()], [Obj(Account())])
  {
    var fields, item := [ShortPassword()], Account();
    assert ByKey(fields, "pw") == Some(ShortPassword());
    assert KnownFields(fields, item) == item && ItemValid(fields, item);
    OneItemNormalizes(fields, item);
    assert IsSecret(fields, "pw") by { assert ShortPassword() in fields; }
    assert |PLACEHOLDER| == 10;
    assert !FieldValid(ShortPassword(), Masked());
    assert !ItemAdmits(fields, item);
  }

  lemma OneItemNormalizes(fields: seq<Param>, obj: Values)
    requires ItemValid(fields, obj) && KnownFields(fields, obj) == obj
    ensures NormalizeItems(fields, [Obj(obj)]) == Some([Obj(obj)])
  {
    hide ItemValid, KnownFields;
    var items, none: seq<Json> := [Obj(obj)], [];
    assert items[..|items| - 1] == none;
    assert none + [Obj(KnownFields(fields, obj))] == items;
  }

  // One account stored: its masked view cannot be posted back.
  lemma RefusedRoundTrip()
    ensures
      var schema, stored: Values := [Accounts()], map["accounts" := Arr([Obj(Account())])];
      ProperSchema(schema) && Normalized(schema, stored) && Post(schema, stored, Mask(schema, stored)) == None
  {
    hide NormalizeItems, ItemsAdmit, ItemValid, FieldValid;
    var schema, stored: Values := [Accounts()], map["accounts" := Arr([Obj(Account())])];
    AccountNormalizes();
    assert ByKey(schema, "accounts") == Some(Accounts());
    assert Normalize(Accounts(), stored["accounts"]) == Some(stored["accounts"]);
    assert Normalized(schema, stored);
    assert !ValueAdmits(Accounts(), stored["accounts"]);
    MaskedViewRoundTrip(schema, stored);
  }

  lemma AbsentStaysAbsent(values: Values, existing: Values, p: Param)
    requires p.key !in values
    ensures p.key !in PreserveParam(values, existing, p)
  {
  }

  lemma LookupsDetermine(a: Values, b: Values)
    requires forall k :: Lookup(a, k) == Lookup(b, k)
    ensures a == b
  {
    assert forall k :: k in a <==> Lookup(a, k).Some?;
    assert forall k :: k in b <==> Lookup(b, k).Some?;
    assert forall k :: k in a ==> Lookup(a, k) == Some(a[k]) && Lookup(b, k) == Some(b[k]);
  }

  // ---- The placeholder is never stored --------------------------------------------------------

  ghost predicate CleanItem(fields: seq<Param>, obj: Values) {
    forall k :: k in obj && IsSecret(fields, k) ==> obj[k] != Masked()
  }

  ghost predicate CleanValue(param: Param, v: Json) {
    && (param.kind == Password ==> v != Masked())
    && (param.kind == GroupArray && v.Arr? ==>
          forall i :: 0 <= i < |v.items| && v.items[i].Obj? ==> CleanItem(param.fields, v.items[i].fields))
  }

  // No secret of the parameter, top-level or nested, holds the placeholder.
  ghost predicate CleanParam(values: Values, param: Param) {
    param.key in values ==> CleanValue(param, values[param.key])
  }

  ghost predicate Clean(values: Values, schema: seq<Param>) {
    forall p :: p in schema ==> CleanParam(values, p)
  }

  lemma PreservedItemClean(fields: seq<Param>, obj: Values, old_: Values)
    requires CleanItem(fields, old_)
    ensures CleanItem(fields, PreserveItem(fields, obj, old_))
  {
    hide IsSecret;
  }

  // Preserving under one group keeps an item clean for another group that shares its key.
  lemma PreservedItemStaysClean(other: seq<Param>, fields: seq<Param>, obj: Values, old_: Values)
    requires CleanItem(other, obj) && CleanItem(other, old_)
    ensures CleanItem(other, PreserveItem(fields, obj, old_))
  {
    hide IsSecret;
  }

  lemma PreserveParamCleans(values: Values, existing: Values, p: Param)
    requires CleanParam(existing, p)
    ensures CleanParam(PreserveParam(values, existing, p), p)
  {
    hide CleanItem, PreserveItem;
    if p.kind == GroupArray && p.key in values && values[p.key].Arr? {
      var items := values[p.key].items;
      var kept := PreserveItems(p.fields, items, Lookup(existing, p.key));
      forall i | 0 <= i < |kept| && kept[i].Obj? ensures CleanItem(p.fields, kept[i].fields) {
        EmptyClean(p.fields);
        PreservedItemClean(p.fields, items[i].fields, OldItem(Lookup(existing, p.key), i));
      }
    }
  }

  lemma EmptyClean(fields: seq<Param>)
    ensures CleanItem(fields, map[])
  {
  }

  lemma PreserveParamKeepsClean(values: Values, existing: Values, p: Param, q: Param)
    requires CleanParam(values, q) && CleanParam(existing, q)
    ensures CleanParam(PreserveParam(values, existing, p), q)
  {
    hide CleanItem, PreserveItem;
    if p.kind == GroupArray && p.key == q.key && p.key in values && values[p.key].Arr? {
      var items := values[p.key].items;
      var kept := PreserveItems(p.fields, items, Lookup(existing, p.key));
      forall i | q.kind == GroupArray && 0 <= i < |kept| && kept[i].Obj? ensures CleanItem(q.fields, kept[i].fields) {
        EmptyClean(q.fields);
        PreservedItemStaysClean(q.fields, p.fields, items[i].fields, OldItem(Lookup(existing, p.key), i));
      }
    }
  }

  lemma {:induction false} PreserveCleans(values: Values, existing: Values, schema: seq<Param>, all: seq<Param>)
    requires Clean(existing, all) && forall p :: p in schema ==> p in all
    ensures Clean(Preserve(values, existing, schema), schema)
  {
    hide CleanParam, PreserveParam;
    if schema != [] {
      var rest, p := schema[..|schema| - 1], schema[|schema| - 1];
      PreserveCleans(values, existing, rest, all);
      var before := Preserve(values, existing, rest);
      forall q | q in schema ensures CleanParam(PreserveParam(before, existing, p), q) {
        if q == p {
          PreserveParamCleans(before, existing, p);
        } else {
          assert q in rest;
          PreserveParamKeepsClean(before, existing, p, q);
        }
      }
    }
  }

  // Submissions in order; a refused one changes nothing.
  function After(schema: seq<Param>, posts: seq<Values>): Values {
    if posts == [] then map[]
    else
      var before := After(schema, posts[..|posts| - 1]);
      match Post(schema, before, posts[|posts| - 1])
      case None => before
      case Some(stored) => stored
  }

  // Over any sequence of submissions from an empty configuration, no stored secret
  // ever is the placeholder.
  lemma {:induction false} PlaceholderNeverStored(schema: seq<Param>, posts: seq<Values>)
    ensures Clean(After(schema, posts), schema)
  {
    hide Clean, Preserve, Filtered;
    if posts == [] {
      EmptyConfigClean(schema);
    } else {
      var before, incoming := After(schema, posts[..|posts| - 1]), posts[|posts| - 1];
      PlaceholderNeverStored(schema, posts[..|posts| - 1]);
      if Acceptable(schema, incoming) {
        PreserveCleans(Filtered(schema, incoming), before, schema, schema);
      }
    }
  }

  lemma EmptyConfigClean(schema: seq<Param>)
    ensures Clean(map[], schema)
  {
  }

  // A submitted top-level password: the placeholder stands for the previous secret,
  // or for none if there was none; anything else is stored as given.
  lemma SubmittedPassword(schema: seq<Param>, existing: Values, incoming: Values, p: Param)
    requires DistinctKeys(schema) && p in schema && p.kind == Password
    requires Acceptable(schema, incoming) && p.key in incoming
    ensures
      var stored := Post(schema, existing, incoming).value;
      Lookup(stored, p.key) == if incoming[p.key] == Masked() then Lookup(existing, p.key) else Some(incoming[p.key])
  {
    ByKeyUnique(schema, p);
    PreserveAt(Filtered(schema, incoming), existing, schema, p.key);
  }

  // The same for a secret nested in item i of a group array.
  lemma SubmittedNestedSecret(schema: seq<Param>, existing: Values, incoming: Values, p: Param, i: nat, f: string)
    requires DistinctKeys(schema) && p in schema && p.kind == GroupArray && DistinctKeys(p.fields)
    requires Acceptable(schema, incoming) && p.key in incoming && incoming[p.key].Arr? && i < |incoming[p.key].items|
    requires incoming[p.key].items[i].Obj? && f in incoming[p.key].items[i].fields && IsSecret(p.fields, f)
    ensures
      var stored := Post(schema, existing, incoming).value;
      var submitted := incoming[p.key].items[i].fields[f];
      && p.key in stored && stored[p.key].Arr? && i < |stored[p.key].items| && stored[p.key].items[i].Obj?
      && Lookup(stored[p.key].items[i].fields, f)
         == if submitted == Masked() then Lookup(OldItem(Lookup(existing, p.key), i), f) else Some(submitted)
  {
    hide Post, Acceptable, PreserveItem;
    StoredItem(schema, existing, incoming, p, i);
    PreservedField(p.fields, incoming[p.key].items[i].fields, OldItem(Lookup(existing, p.key), i), f);
  }

  // Item i as stored: its known fields, with the secrets preserved.
  lemma StoredItem(schema: seq<Param>, existing: Values, incoming: Values, p: Param, i: nat)
    requires DistinctKeys(schema) && p in schema && p.kind == GroupArray
    requires Acceptable(schema, incoming) && p.key in incoming && incoming[p.key].Arr? && i < |incoming[p.key].items|
    requires incoming[p.key].items[i].Obj?
    ensures
      var stored := Post(schema, existing, incoming).value;
      && p.key in stored && stored[p.key].Arr? && |stored[p.key].items| == |incoming[p.key].items|
      && stored[p.key].items[i] ==
           Obj(PreserveItem(p.fields, KnownFields(p.fields, incoming[p.key].items[i].fields), OldItem(Lookup(existing, p.key), i)))
  {
    hide FieldValid, ItemValid, PreserveItem, KnownFields, OldItem;
    ByKeyUnique(schema, p);
    PreserveAt(Filtered(schema, incoming), existing, schema, p.key);
    var items := incoming[p.key].items;
    var clean := NormalizeItems(p.fields, items).value;
    assert Normalize(p, incoming[p.key]) == Some(Arr(clean));
    NormalizedAt(p.fields, items, clean, i);
  }

  lemma PreservedField(fields: seq<Param>, obj: Values, old_: Values, f: string)
    requires f in obj && IsSecret(fields, f)
    ensures Lookup(PreserveItem(fields, KnownFields(fields, obj), old_), f)
            == if obj[f] == Masked() then Lookup(old_, f) else Some(obj[f])
  {
    assert ByKey(fields, f).Some?;
  }

  lemma {:induction false} NormalizedAt(fields: seq<Param>, items: seq<Json>, out: seq<Json>, i: nat)
    requires NormalizeItems(fields, items) == Some(out) && i < |items|
    ensures |out| == |items| && items[i].Obj? && out[i] == Obj(KnownFields(fields, items[i].fields))
  {
    hide ItemValid, KnownFields;
    var last := |items| - 1;
    var done := NormalizeItems(fields, items[..last]).value;
    NormalizedItemsAreObjects(fields, items, out);
    if i < last {
      NormalizedAt(fields, items[..last], done, i);
    } else {
      NormalizedItemsAreObjects(fields, items[..last], done);
    }
  }

  // ---- Reachable values ---------------------------------------------------------------------

  // An item as a submission can leave it: normalized, but a submitted placeholder
  // without an old secret took the secret away, required or not.
  ghost predicate NearlyItem(fields: seq<Param>, obj: Values) {
    && (forall k :: k in obj ==> ByKey(fields, k).Some? && FieldValid(ByKey(fields, k).value, obj[k]))
    && (forall f :: f in fields && !f.optional && f.kind != Password ==> f.key in obj)
  }

  ghost predicate NearlyValue(param: Param, v: Json) {
    param.kind == GroupArray ==>
      && v.Arr?
      && (param.minItems.Some? ==> |v.items| >= param.minItems.value)
      && (param.maxItems.Some? ==> |v.items| <= param.maxItems.value)
      && (forall i :: 0 <= i < |v.items| ==> v.items[i].Obj? && NearlyItem(param.fields, v.items[i].fields))
  }

  ghost predicate NearlyNormalized(schema: seq<Param>, stored: Values) {
    forall k :: k in stored ==> ByKey(schema, k).Some? && NearlyValue(ByKey(schema, k).value, stored[k])
  }

  // Every stored item still holds its required secrets.
  ghost predicate CompleteItem(fields: seq<Param>, obj: Values) {
    forall f :: f in fields && f.kind == Password && !f.optional ==> f.key in obj
  }

  ghost predicate CompleteValue(param: Param, v: Json) {
    param.kind == GroupArray && v.Arr? ==>
      forall i :: 0 <= i < |v.items| && v.items[i].Obj? ==> CompleteItem(param.fields, v.items[i].fields)
  }

  ghost predicate Complete(schema: seq<Param>, stored: Values) {
    forall k :: k in stored && ByKey(schema, k).Some? ==> CompleteValue(ByKey(schema, k).value, stored[k])
  }

  // One item, preserved after normalization.
  lemma PreservedItemNearly(fields: seq<Param>, obj: Values, old_: Values)
    requires DistinctKeys(fields) && ItemValid(fields, obj)
    requires old_ == map[] || NearlyItem(fields, old_)
    ensures NearlyItem(fields, PreserveItem(fields, KnownFields(fields, obj), old_))
  {
    hide FieldValid, IsSecret, DistinctKeys;
    SecretFields(fields);
    var known := KnownFields(fields, obj);
    var kept := PreserveItem(fields, known, old_);
    forall f | f in fields && !f.optional && f.kind != Password ensures f.key in kept {
      assert f.key in known by { assert ByKey(fields, f.key).Some?; }
    }
  }

  // With distinct keys, the secrets are the password fields.
  lemma SecretFields(fields: seq<Param>)
    requires DistinctKeys(fields)
    ensures forall f :: f in fields ==> (IsSecret(fields, f.key) <==> f.kind == Password)
  {
    forall f | f in fields ensures IsSecret(fields, f.key) <==> f.kind == Password {
      ByKeyUnique(fields, f);
      if g :| g in fields && g.kind == Password && g.key == f.key { ByKeyUnique(fields, g); }
    }
  }

  lemma {:induction false} NormalizedItemValid(fields: seq<Param>, items: seq<Json>, i: nat)
    requires NormalizeItems(fields, items).Some? && i < |items|
    ensures items[i].Obj? && ItemValid(fields, items[i].fields)
  {
    hide ItemValid, KnownFields;
    if i < |items| - 1 {
      NormalizedItemValid(fields, items[..|items| - 1], i);
    }
  }

  lemma PreservedValueNearly(param: Param, incoming: Json, filtered: Values, existing: Values)
    requires DistinctKeys(param.fields) && param.kind == GroupArray
    requires Normalize(param, incoming).Some? && Lookup(filtered, param.key) == Normalize(param, incoming)
    requires param.key in existing ==> NearlyValue(param, existing[param.key])
    ensures
      var result := PreserveParam(filtered, existing, param);
      param.key in result && NearlyValue(param, result[param.key])
  {
    hide ItemValid, KnownFields, NearlyItem, PreserveItem;
    var items := incoming.items;
    var clean := NormalizeItems(param.fields, items).value;
    NormalizedItemsAreObjects(param.fields, items, clean);
    var old_ := Lookup(existing, param.key);
    var kept := PreserveItems(param.fields, clean, old_);
    forall i | 0 <= i < |kept| ensures kept[i].Obj? && NearlyItem(param.fields, kept[i].fields) {
      NormalizedAt(param.fields, items, clean, i);
      NormalizedItemValid(param.fields, items, i);
      PreservedItemNearly(param.fields, items[i].fields, OldItem(old_, i));
    }
  }

  lemma PostKeepsNearly(schema: seq<Param>, existing: Values, incoming: Values)
    requires ProperSchema(schema) && NearlyNormalized(schema, existing) && Acceptable(schema, incoming)
    ensures NearlyNormalized(schema, Post(schema, existing, incoming).value)
  {
    hide Normalize, NearlyValue, PreserveParam, Preserve;
    var filtered := Filtered(schema, incoming);
    var result := Preserve(filtered, existing, schema);
    forall k | k in result ensures ByKey(schema, k).Some? && NearlyValue(ByKey(schema, k).value, result[k]) {
      PreserveAt(filtered, existing, schema, k);
      var p := ByKey(schema, k).value;
      if p.kind != GroupArray {
        AnyValueNearly(p, result[k]);
      } else {
        if k !in filtered { AbsentStaysAbsent(filtered, existing, p); }
        PreservedValueNearly(p, incoming[k], filtered, existing);
      }
    }
  }

  lemma AnyValueNearly(param: Param, v: Json)
    requires param.kind != GroupArray
    ensures NearlyValue(param, v)
  {
  }

  lemma {:induction false} ReachableNearly(schema: seq<Param>, posts: seq<Values>)
    requires ProperSchema(schema)
    ensures NearlyNormalized(schema, After(schema, posts))
  {
    hide NearlyNormalized, Acceptable;
    if posts == [] {
      assert NearlyNormalized(schema, map[]) by { NothingNearly(schema); }
    } else {
      var before := posts[..|posts| - 1];
      ReachableNearly(schema, before);
      if Acceptable(schema, posts[|posts| - 1]) {
        PostKeepsNearly(schema, After(schema, before), posts[|posts| - 1]);
      }
    }
  }

  lemma NothingNearly(schema: seq<Param>)
    ensures NearlyNormalized(schema, map[])
  {
  }

  // What is nearly normalized is normalized exactly if it is complete.
  lemma NearlyItemValid(fields: seq<Param>, obj: Values)
    requires NearlyItem(fields, obj)
    ensures KnownFields(fields, obj) == obj && (ItemValid(fields, obj) <==> CompleteItem(fields, obj))
  {
    hide FieldValid;
  }

  lemma {:induction false} NearlyItemsNormalize(fields: seq<Param>, items: seq<Json>)
    requires forall i :: 0 <= i < |items| ==> items[i].Obj? && NearlyItem(fields, items[i].fields)
    ensures NormalizeItems(fields, items) ==
            if forall i :: 0 <= i < |items| ==> CompleteItem(fields, items[i].fields) then Some(items) else None
  {
    hide NearlyItem, ItemValid, KnownFields, CompleteItem;
    if items == [] {
      assert NormalizeItems(fields, items) == Some(items);
    } else {
      var last := |items| - 1;
      NearlyItemsNormalize(fields, items[..last]);
      NearlyItemValid(fields, items[last].fields);
      assert items[..last] + [items[last]] == items;
    }
  }

  lemma NearlyValueNormalizes(param: Param, v: Json)
    requires NearlyValue(param, v)
    ensures Normalize(param, v) == if CompleteValue(param, v) then Some(v) else None
  {
    hide NearlyItem, CompleteItem;
    if param.kind == GroupArray {
      NearlyItemsNormalize(param.fields, v.items);
    }
  }

  // Masking takes no field away, so an incomplete item is refused.
  lemma MaskedIncompleteRefused(param: Param, v: Json)
    requires NearlyValue(param, v) && !CompleteValue(param, v)
    ensures Normalize(param, MaskValue(param, v)) == None
  {
    hide NearlyItem, IsSecret;
    var i :| 0 <= i < |v.items| && v.items[i].Obj? && !CompleteItem(param.fields, v.items[i].fields);
    var masked := MaskValue(param, v).items;
    assert masked[i] == MaskItem(param.fields, v.items[i]);
    ItemsFail(param.fields, masked, i);
  }

  // Posting the masked view back, for every configuration that any submissions from an
  // empty one can reach: stored unchanged, nested secrets included, exactly if the
  // placeholder fits every stored nested secret's length bounds and every stored item
  // still holds its required secrets; otherwise refused.
  lemma ReachableRoundTrip(schema: seq<Param>, posts: seq<Values>)
    requires ProperSchema(schema)
    ensures
      var stored := After(schema, posts);
      Post(schema, stored, Mask(schema, stored))
      == if Admits(schema, stored) && Complete(schema, stored) then Some(stored) else None
  {
    hide Normalize, MaskValue, NearlyValue, CompleteValue, Admits, Preserve;
    var stored := After(schema, posts);
    ReachableNearly(schema, posts);
    forall k | k in stored
      ensures Normalize(ByKey(schema, k).value, stored[k])
              == if CompleteValue(ByKey(schema, k).value, stored[k]) then Some(stored[k]) else None
    {
      NearlyValueNormalizes(ByKey(schema, k).value, stored[k]);
    }
    if Complete(schema, stored) {
      MaskedViewRoundTrip(schema, stored);
    } else {
      var k :| k in stored && ByKey(schema, k).Some? && !CompleteValue(ByKey(schema, k).value, stored[k]);
      MaskedIncompleteRefused(ByKey(schema, k).value, stored[k]);
      assert k in Mask(schema, stored) && !Acceptable(schema, Mask(schema, stored));
    }
  }

  // The other way to be refused: a first submission of the placeholder for a required
  // secret is accepted and takes the secret away.
  function Vault(): Param {
    Param("vault", GroupArray, false, None, [Param("pw", Password, false, None, [], None, None)], None, None)
  }

  function Unset(): Values {
    map["pw" := Masked()]
  }

  lemma UnsetItem()
    ensures
      var fields := Vault().fields;
      && NormalizeItems(fields, [Obj(Unset())]) == Some([Obj(Unset())])
      && PreserveItems(fields, [Obj(Unset())], None) == [Obj(map[])]
      && !CompleteItem(fields, map[]) && ItemsAdmit(fields, [Obj(map[])])
  {
    var fields := Vault().fields;
    assert ByKey(fields, "pw") == Some(fields[0]);
    assert KnownFields(fields, Unset()) == Unset() && ItemValid(fields, Unset());
    OneItemNormalizes(fields, Unset());
    assert IsSecret(fields, "pw") by { assert fields[0] in fields; }
    assert PreserveItem(fields, Unset(), map[]) == map[];
    assert fields[0] in fields && fields[0].kind == Password && !fields[0].optional;
  }

  lemma DroppedSecretRefused()
    ensures
      var schema, incoming: Values := [Vault()], map["vault" := Arr([Obj(Unset())])];
      var stored := After(schema, [incoming]);
      && ProperSchema(schema) && stored == map["vault" := Arr([Obj(map[])])]
      && Admits(schema, stored) && !Complete(schema, stored)
      && Post(schema, stored, Mask(schema, stored)) == None
  {
    hide NormalizeItems, PreserveItems, CompleteItem, ItemsAdmit, ItemValid, FieldValid;
    var schema, incoming: Values := [Vault()], map["vault" := Arr([Obj(Unset())])];
    UnsetItem();
    assert ByKey(schema, "vault") == Some(Vault());
    assert Normalize(Vault(), incoming["vault"]) == Some(incoming["vault"]);
    assert Filtered(schema, incoming) == incoming;
    var stored := After(schema, [incoming]);
    assert [incoming][..0] == [] && After(schema, []) == map[];
    assert stored == Preserve(incoming, map[], schema);
    assert schema[..0] == [] && Preserve(incoming, map[], []) == incoming;
    assert stored == map["vault" := Arr([Obj(map[])])];
    var none: Values := map[];
    assert stored["vault"].items[0] == Obj(none) && !CompleteItem(Vault().fields, none);
    assert !CompleteValue(Vault(), stored["vault"]);
    ReachableRoundTrip(schema, [incoming]);
  }

  // ---- The masked view ------------------------------------------------------------------------

  // Two values of a parameter that differ at most in secrets: whole if it is a password,
  // in the password fields of group items otherwise.
  ghost predicate SameButSecrets(p: Param, a: Json, b: Json) {
    || a == b
    || p.kind == Password
    || (&& p.kind == GroupArray && a.Arr? && b.Arr? && |a.items| == |b.items|
        && forall i :: 0 <= i < |a.items| ==> SameItem(p.fields, a.items[i], b.items[i]))
  }

  ghost predicate SameItem(fields: seq<Param>, a: Json, b: Json) {
    || a == b
    || (&& a.Obj? && b.Obj? && a.fields.Keys == b.fields.Keys
        && forall k :: k in a.fields && a.fields[k] != b.fields[k] ==>
             exists f :: f in fields && f.kind == Password && f.key == k)
  }

  ghost predicate SameConfig(schema: seq<Param>, a: Values, b: Values) {
    && a.Keys == b.Keys
    && forall k :: k in a ==>
         a[k] == b[k] || exists p :: p in schema && p.key == k && SameButSecrets(p, a[k], b[k])
  }

  lemma SameItemView(fields: seq<Param>, a: Json, b: Json)
    requires SameItem(fields, a, b)
    ensures MaskItem(fields, a) == MaskItem(fields, b)
  {
    if a != b {
      forall k | k in a.fields
        ensures (if IsSecret(fields, k) then Masked() else a.fields[k]) == if IsSecret(fields, k) then Masked() else b.fields[k]
      {
      }
    }
  }

  // The view shows nothing of a secret: configurations that differ in nothing else look
  // the same.
  lemma ViewHidesSecrets(schema: seq<Param>, a: Values, b: Values)
    requires DistinctKeys(schema) && SameConfig(schema, a, b)
    ensures Mask(schema, a) == Mask(schema, b)
  {
    forall k | k in a ensures Mask(schema, a)[k] == Mask(schema, b)[k] {
      if a[k] != b[k] {
        var p :| p in schema && p.key == k && SameButSecrets(p, a[k], b[k]);
        ByKeyUnique(schema, p);
        SameView(p, a[k], b[k]);
      }
    }
  }

  lemma SameView(p: Param, a: Json, b: Json)
    requires SameButSecrets(p, a, b)
    ensures MaskValue(p, a) == MaskValue(p, b)
  {
    hide MaskItem;
    if a != b && p.kind == GroupArray {
      forall i | 0 <= i < |a.items| ensures MaskItem(p.fields, a.items[i]) == MaskItem(p.fields, b.items[i]) {
        SameItemView(p.fields, a.items[i], b.items[i]);
      }
    }
  }

  // Every secret shows as the placeholder: top-level ...
  lemma ViewShowsPlaceholder(schema: seq<Param>, values: Values, p: Param)
    requires DistinctKeys(schema) && p in schema && p.kind == Password && p.key in values
    ensures p.key in Mask(schema, values) && Mask(schema, values)[p.key] == Str("**masked**")
  {
    ByKeyUnique(schema, p);
  }

  // ... and within the items of a group; everything else of the view is the stored value.
  lemma ViewOfItem(schema: seq<Param>, values: Values, p: Param, i: nat, k: string)
    requires DistinctKeys(schema) && p in schema && p.kind == GroupArray && p.key in values && values[p.key].Arr?
    requires i < |values[p.key].items| && values[p.key].items[i].Obj? && k in values[p.key].items[i].fields
    ensures
      var view := Mask(schema, values);
      && p.key in view && view[p.key].Arr? && |view[p.key].items| == |values[p.key].items|
      && view[p.key].items[i].Obj? && k in view[p.key].items[i].fields
      && view[p.key].items[i].fields[k] ==
           if exists f :: f in p.fields && f.kind == Password && f.key == k then Str("**masked**")
           else values[p.key].items[i].fields[k]
  {
    ByKeyUnique(schema, p);
  }

  lemma ViewOfOthers(schema: seq<Param>, values: Values, k: string)
    requires k in values && forall p :: p in schema && p.key == k ==> p.kind !in {Password, GroupArray}
    ensures k in Mask(schema, values) && Mask(schema, values)[k] == values[k]
  {
  }

  // ---- What is stored of everything else ---------------------------------------------------------

  // A declared value that is neither password nor group is stored as submitted; a key
  // that is not declared or not submitted is not stored.
  lemma SubmittedValue(schema: seq<Param>, existing: Values, incoming: Values, k: string)
    requires DistinctKeys(schema) && Acceptable(schema, incoming)
    requires forall p :: p in schema && p.key == k ==> p.kind !in {Password, GroupArray}
    ensures Lookup(Post(schema, existing, incoming).value, k)
            == if exists p :: p in schema && p.key == k then Lookup(incoming, k) else None
  {
    PreserveAt(Filtered(schema, incoming), existing, schema, k);
    if p :| p in schema && p.key == k {
      ByKeyUnique(schema, p);
    }
  }

  lemma NotSubmitted(schema: seq<Param>, existing: Values, incoming: Values, k: string)
    requires DistinctKeys(schema) && Acceptable(schema, incoming) && k !in incoming
    ensures k !in Post(schema, existing, incoming).value
  {
    PreserveAt(Filtered(schema, incoming), existing, schema, k);
  }

  // Within a group item: a declared field that is no password is stored as submitted, an
  // undeclared one is dropped.
  lemma SubmittedField(schema: seq<Param>, existing: Values, incoming: Values, p: Param, i: nat, k: string)
    requires DistinctKeys(schema) && p in schema && p.kind == GroupArray
    requires Acceptable(schema, incoming) && p.key in incoming && incoming[p.key].Arr? && i < |incoming[p.key].items|
    requires incoming[p.key].items[i].Obj? && forall f :: f in p.fields && f.key == k ==> f.kind != Password
    ensures
      var stored := Post(schema, existing, incoming).value;
      && p.key in stored && stored[p.key].Arr? && |stored[p.key].items| == |incoming[p.key].items|
      && stored[p.key].items[i].Obj?
      && Lookup(stored[p.key].items[i].fields, k)
         == if exists f :: f in p.fields && f.key == k then Lookup(incoming[p.key].items[i].fields, k) else None
  {
    hide Post, Acceptable, FieldValid;
    StoredItem(schema, existing, incoming, p, i);
    var obj := incoming[p.key].items[i].fields;
    assert !IsSecret(p.fields, k);
    if f :| f in p.fields && f.key == k {
      assert ByKey(p.fields, k).Some?;
    }
  }

  // ---- What is accepted -------------------------------------------------------------------------

  // The bounds a value must keep.
  ghost predicate LengthOk(f: Param, length: int) {
    f.validation.Some? ==>
      && (f.validation.value.minLength.Some? ==> f.validation.value.minLength.value <= length)
      && (f.validation.value.maxLength.Some? ==> length <= f.validation.value.maxLength.value)
  }

  ghost predicate RangeOk(f: Param, n: real) {
    f.validation.Some? ==>
      && (f.validation.value.minimum.Some? ==> f.validation.value.minimum.value <= n)
      && (f.validation.value.maximum.Some? ==> n <= f.validation.value.maximum.value)
  }

  // An item is accepted exactly if every required field is there and every value that is
  // not null has its field's type and keeps its bounds: integers are whole numbers.
  lemma ItemAccepted(fields: seq<Param>, obj: Values)
    requires DistinctKeys(fields)
    ensures NormalizeItems(fields, [Obj(obj)]).Some? <==>
      && (forall f :: f in fields && !f.optional ==> f.key in obj)
      && (forall f :: f in fields && f.key in obj && obj[f.key] != Null ==> ValueFits(f, obj[f.key]))
  {
    hide FieldValid, ValueFits;
    var items := [Obj(obj)];
    assert items[..0] == [] && NormalizeItems(fields, []) == Some([]);
    assert NormalizeItems(fields, items).Some? <==> ItemValid(fields, obj) by {
      hide ItemValid, KnownFields;
      assert items[..|items| - 1] == [];
    }
    forall f | f in fields && f.key in obj ensures FieldValid(f, obj[f.key]) <==> obj[f.key] == Null || ValueFits(f, obj[f.key]) {
      FieldFits(f, obj[f.key]);
    }
    forall f | f in fields ensures ByKey(fields, f.key) == Some(f) { ByKeyUnique(fields, f); }
    forall k | k in obj && ByKey(fields, k).Some? ensures ByKey(fields, k).value in fields && ByKey(fields, k).value.key == k {
    }
  }

  predicate IsWhole(n: real, z: int) {
    n == z as real
  }

  ghost predicate ValueFits(f: Param, v: Json) {
    match f.kind
    case Boolean => v.Bool?
    case Int => v.Num? && (exists z: int :: IsWhole(v.n, z)) && RangeOk(f, v.n)
    case Float => v.Num? && RangeOk(f, v.n)
    case GroupArray => true
    case Untyped => true
    case _ => v.Str? && LengthOk(f, |v.s|)
  }

  lemma FieldFits(f: Param, v: Json)
    ensures FieldValid(f, v) <==> v == Null || ValueFits(f, v)
  {
    if v.Num? {
      assert v.n == v.n.Floor as real ==> IsWhole(v.n, v.n.Floor);
      if z: int :| IsWhole(v.n, z) {
        assert v.n.Floor == z;
      }
    }
  }

  lemma {:induction false} ItemsAccepted(fields: seq<Param>, items: seq<Json>)
    ensures NormalizeItems(fields, items).Some? <==>
      forall i :: 0 <= i < |items| ==> items[i].Obj? && NormalizeItems(fields, [items[i]]).Some?
  {
    hide ItemValid, KnownFields;
    if items != [] {
      var last := |items| - 1;
      ItemsAccepted(fields, items[..last]);
      assert [items[last]][..0] == [] && NormalizeItems(fields, []) == Some([]);
      assert forall i :: 0 <= i < last ==> items[..last][i] == items[i];
    }
  }

  // A group is accepted exactly if it is an array of a permitted length whose items are
  // all accepted objects.
  lemma GroupAccepted(p: Param, v: Json)
    requires p.kind == GroupArray
    ensures Normalize(p, v).Some? <==>
      && v.Arr?
      && (p.minItems.Some? ==> p.minItems.value <= |v.items|)
      && (p.maxItems.Some? ==> |v.items| <= p.maxItems.value)
      && (forall i :: 0 <= i < |v.items| ==> v.items[i].Obj? && NormalizeItems(p.fields, [v.items[i]]).Some?)
  {
    hide NormalizeItems;
    if v.Arr? {
      ItemsAccepted(p.fields, v.items);
    }
  }
}
