/**
 Document patches: validation against a rule table and the shallow merge, first on values.
 Module PatchHeap does the same on mutable maps and slices.
 */
module Patches {
  import opened Text

  /** A decoded JSON value. */
  datatype Value =
    | Null
    | Str(text: string)
    | Num(number: int)
    | Object(fields: map<string, Value>)
    | Array(items: seq<Value>)

  type Document = map<string, Value>

  datatype FieldRule = FieldRule(allowNull: bool, nested: Option<map<string, FieldRule>>, allowAnyNested: bool)

  type Rules = map<string, FieldRule>

  // ---------------------------------------------------------------- validation

  predicate FieldConforms(value: Value, rule: FieldRule)
    decreases value
  {
    if value.Null? then rule.allowNull
    else if rule.nested.None? && !rule.allowAnyNested then true
    else if !value.Object? then false
    else
      rule.allowAnyNested ||
      forall key | key in value.fields ::
        key in rule.nested.value && FieldConforms(value.fields[key], rule.nested.value[key])
  }

  /** Every field is known to the rules and conforms to its rule, at every depth. */
  predicate Conforms(doc: Document, rules: Rules) {
    forall key | key in doc :: key in rules && FieldConforms(doc[key], rules[key])
  }

  /** The path names a field that breaks the rules although the fields around it do not. */
  predicate Offends(doc: Document, rules: Rules, path: seq<string>)
    decreases path
  {
    && path != [] && path[0] in doc
    && (path[0] in rules ==>
          var value, rule := doc[path[0]], rules[path[0]];
          if |path| == 1 then
            || (value.Null? && !rule.allowNull)
            || (!value.Null? && !value.Object? && (rule.nested.Some? || rule.allowAnyNested))
          else
            value.Object? && !rule.allowAnyNested && rule.nested.Some?
            && Offends(value.fields, rule.nested.value, path[1..]))
    && (path[0] !in rules ==> |path| == 1)
  }

  lemma OffenderBreaks(doc: Document, rules: Rules, path: seq<string>)
    requires Offends(doc, rules, path)
    ensures !Conforms(doc, rules)
    decreases path
  {
    if |path| > 1 {
      OffenderBreaks(doc[path[0]].fields, rules[path[0]].nested.value, path[1..]);
    }
  }

  /** validateMap: accepts exactly the conforming documents and otherwise names an offending
      field, in whatever order the map is iterated. */
  method ValidateMap(doc: Document, rules: Rules) returns (offender: Option<seq<string>>)
    ensures offender.None? <==> Conforms(doc, rules)
    ensures offender.Some? ==> Offends(doc, rules, offender.value)
    decreases Object(doc)
  {
    var todo := doc.Keys;
    while todo != {}
      invariant todo <= doc.Keys
      invariant forall key | key in doc && key !in todo :: key in rules && FieldConforms(doc[key], rules[key])
    {
      var key :| key in todo;
      if key !in rules {
        return Some([key]);
      }
      var value, rule := doc[key], rules[key];
      if value.Null? {
        if !rule.allowNull {
          return Some([key]);
        }
      } else if rule.nested.Some? || rule.allowAnyNested {
        if !value.Object? {
          return Some([key]);
        }
        if !rule.allowAnyNested {
          var inner := ValidateMap(value.fields, rule.nested.value);
          if inner.Some? {
            OffenderBreaks(value.fields, rule.nested.value, inner.value);
            assert ([key] + inner.value)[1..] == inner.value;
            return Some([key] + inner.value);
          }
        }
      }
      todo := todo - {key};
    }
    return None;
  }

  // ---------------------------------------------------------------- merging

  /** A nested object takes the patch's fields over its own; null removes. */
  function MergeNested(base: Document, patch: Document): Document {
    map key | key in base.Keys + patch.Keys && !(key in patch && patch[key].Null?) ::
      if key in patch then patch[key] else base[key]
  }

  /** What a patched field becomes. */
  function MergeField(base: Document, key: string, value: Value): Value {
    if value.Object? && key in base && base[key].Object?
    then Object(MergeNested(base[key].fields, value.fields))
    else value
  }

  /** MergeShallow on values. */
  function Merge(base: Document, patch: Document): Document {
    map key | key in base.Keys + patch.Keys && !(key in patch && patch[key].Null?) ::
      if key in patch then MergeField(base, key, patch[key]) else base[key]
  }

  /** What a patched object field is where document and patch both hold an object: fields the
      patch does not name stay, nulls remove, everything else is the patch's. */
  ghost predicate NestedLaw(base: Document, patch: Document, merged: Document) {
    && (forall key | key !in patch :: key in merged <==> key in base)
    && (forall key | key !in patch && key in base :: merged[key] == base[key])
    && (forall key | key in patch :: key in merged <==> !patch[key].Null?)
    && (forall key | key in patch && !patch[key].Null? :: merged[key] == patch[key])
  }

  /** What a merge must be, field by field: like NestedLaw, except that an object field of
      both is merged one level deeper; where the document has no object, the patch's object is
      taken whole. */
  ghost predicate MergeLaw(base: Document, patch: Document, merged: Document) {
    && (forall key | key !in patch :: key in merged <==> key in base)
    && (forall key | key !in patch && key in base :: merged[key] == base[key])
    && (forall key | key in patch :: key in merged <==> !patch[key].Null?)
    && (forall key | key in patch && !patch[key].Null? ::
          if patch[key].Object? && key in base && base[key].Object?
          then merged[key].Object? && NestedLaw(base[key].fields, patch[key].fields, merged[key].fields)
          else merged[key] == patch[key])
  }

  lemma MergeIsLawful(base: Document, patch: Document)
    ensures MergeLaw(base, patch, Merge(base, patch))
  {
  }

  lemma NestedLawDecides(base: Document, patch: Document, m: Document, n: Document)
    requires NestedLaw(base, patch, m) && NestedLaw(base, patch, n)
    ensures m == n
  {
  }

  /** The law leaves no choice. */
  lemma MergeLawDecides(base: Document, patch: Document, m: Document, n: Document)
    requires MergeLaw(base, patch, m) && MergeLaw(base, patch, n)
    ensures m == n
  {
    forall key | key in m ensures m[key] == n[key] {
      if key in patch && patch[key].Object? && key in base && base[key].Object? {
        NestedLawDecides(base[key].fields, patch[key].fields, m[key].fields, n[key].fields);
      }
    }
  }

  /** Documents stay within their rule table, at every depth. */
  lemma MergeConforms(base: Document, patch: Document, rules: Rules)
    requires Conforms(base, rules) && Conforms(patch, rules)
    ensures Conforms(Merge(base, patch), rules)
  {
    var merged := Merge(base, patch);
    forall key | key in merged
      ensures key in rules && FieldConforms(merged[key], rules[key])
    {
      if key in patch && patch[key].Object? && key in base && base[key].Object? {
        var b, p, rule := base[key].fields, patch[key].fields, rules[key];
        if rule.nested.Some? && !rule.allowAnyNested {
          NestedConforms(b, p, rule.nested.value);
        }
      }
    }
  }

  lemma NestedConforms(base: Document, patch: Document, rules: Rules)
    requires Conforms(base, rules) && Conforms(patch, rules)
    ensures Conforms(MergeNested(base, patch), rules)
  {
  }

  /** The patch puts an object with a null inside where the base has no object; the null is
      then kept although a null elsewhere removes its field. */
  predicate KeepsNull(base: Document, patch: Document, key: string) {
    && key in patch && patch[key].Object? && !(key in base && base[key].Object?)
    && exists inner :: inner in patch[key].fields && patch[key].fields[inner].Null?
  }

  /** Sending a patch twice is the same as sending it once, except exactly where a null was
      kept. */
  lemma MergeTwiceExactlyWhen(base: Document, patch: Document)
    ensures Merge(Merge(base, patch), patch) == Merge(base, patch)
            <==> forall key :: !KeepsNull(base, patch, key)
  {
    var once := Merge(base, patch);
    var twice := Merge(once, patch);
    assert once.Keys == twice.Keys;
    forall key | key in once ensures once[key] == twice[key] <==> !KeepsNull(base, patch, key) {
      if key in patch && patch[key].Object? {
        var p := patch[key].fields;
        var o := once[key].fields;
        var t := twice[key].fields;
        assert t == MergeNested(o, p);
        if key in base && base[key].Object? {
          assert t == o;
        } else {
          assert o == p;
          if inner :| inner in p && p[inner].Null? {
            assert inner !in t;
          } else {
            assert t == o;
          }
        }
      }
    }
    if key :| KeepsNull(base, patch, key) {
      assert key in once && once[key] != twice[key];
    }
  }

  /** The content after a sequence of patches, oldest first. */
  function FoldMerge(base: Document, patches: seq<Document>): Document {
    if patches == [] then base
    else Merge(FoldMerge(base, patches[..|patches| - 1]), patches[|patches| - 1])
  }
}
