/**
 The shallow merge on mutable maps and slices, as the program runs it: clone the base, then
 walk the patch in any order.  The result denotes the pure merge and consists of new
 objects only.
 */
module PatchHeap {
  import opened Text
  import opened Patches

  class MapNode {
    var fields: map<string, Ref>

    constructor ()
      ensures fields == map[]
    {
      fields := map[];
    }
  }

  class SliceNode {
    var items: seq<Ref>

    constructor ()
      ensures items == []
    {
      items := [];
    }
  }

  datatype Ref =
    | RNull
    | RStr(text: string)
    | RNum(number: int)
    | RMap(node: MapNode)
    | RSlice(slice: SliceNode)

  /** The reference stands for the value and everything it reaches lies in cells. */
  ghost predicate Denotes(r: Ref, v: Value, cells: set<object>)
    reads cells
    decreases v
  {
    match v
    case Null => r.RNull?
    case Str(text) => r == RStr(text)
    case Num(number) => r == RNum(number)
    case Object(fields) =>
      && r.RMap? && r.node in cells && r.node.fields.Keys == fields.Keys
      && forall key | key in fields :: Denotes(r.node.fields[key], fields[key], cells)
    case Array(items) =>
      && r.RSlice? && r.slice in cells && |r.slice.items| == |items|
      && forall i | 0 <= i < |items| :: Denotes(r.slice.items[i], items[i], cells)
  }

  /** The map's fields stand for the document; the map itself may lie outside cells. */
  ghost predicate FieldsDenote(node: MapNode, doc: Document, cells: set<object>)
    reads node, cells
  {
    node.fields.Keys == doc.Keys && forall key | key in doc :: Denotes(node.fields[key], doc[key], cells)
  }

  lemma DenotesMore(r: Ref, v: Value, cells: set<object>, more: set<object>)
    requires Denotes(r, v, cells) && cells <= more
    ensures Denotes(r, v, more)
    decreases v
  {
    match v
    case Object(fields) =>
      forall key | key in fields ensures Denotes(r.node.fields[key], fields[key], more) {
        DenotesMore(r.node.fields[key], fields[key], cells, more);
      }
    case Array(items) =>
      forall i | 0 <= i < |items| ensures Denotes(r.slice.items[i], items[i], more) {
        DenotesMore(r.slice.items[i], items[i], cells, more);
      }
    case _ =>
  }

  lemma FieldsDenoteMore(node: MapNode, doc: Document, cells: set<object>, more: set<object>)
    requires FieldsDenote(node, doc, cells) && cells <= more
    ensures FieldsDenote(node, doc, more)
  {
    forall key | key in doc ensures Denotes(node.fields[key], doc[key], more) {
      DenotesMore(node.fields[key], doc[key], cells, more);
    }
  }

  /** Storing a fresh value under a key outside the map's own cells. */
  method PutField(node: MapNode, key: string, r: Ref, ghost v: Value,
                  ghost doc: Document, ghost cells: set<object>, ghost added: set<object>)
    requires FieldsDenote(node, doc, cells) && Denotes(r, v, added)
    requires node !in cells && node !in added
    modifies node
    ensures FieldsDenote(node, doc[key := v], cells + added)
  {
    FieldsDenoteMore(node, doc, cells, cells + added);
    DenotesMore(r, v, added, cells + added);
    node.fields := node.fields[key := r];
  }

  /** cloneMap; a nil map reads as empty. */
  method CloneMap(source: MapNode?, ghost doc: Document, ghost cells: set<object>)
    returns (node: MapNode, ghost copied: set<object>)
    requires if source == null then doc == map[] else FieldsDenote(source, doc, cells)
    ensures fresh(node) && fresh(copied) && node !in copied
    ensures FieldsDenote(node, doc, copied)
    decreases Object(doc), 0
  {
    node := new MapNode();
    copied := {};
    if source == null {
      return;
    }
    var todo := source.fields.Keys;
    ghost var done: Document := map[];
    while todo != {}
      invariant todo <= doc.Keys && FieldsDenote(source, doc, cells)
      invariant fresh(node) && fresh(copied) && node !in copied
      invariant done.Keys == doc.Keys - todo && forall key | key in done :: done[key] == doc[key]
      invariant FieldsDenote(node, done, copied)
    {
      var key :| key in todo;
      var r, added := CloneValue(source.fields[key], doc[key], cells);
      PutField(node, key, r, doc[key], done, copied, added);
      copied := copied + added;
      done := done[key := doc[key]];
      todo := todo - {key};
    }
    assert done == doc;
  }

  /** cloneSlice. */
  method CloneSlice(source: SliceNode, ghost items: seq<Value>, ghost cells: set<object>)
    returns (slice: SliceNode, ghost copied: set<object>)
    requires Denotes(RSlice(source), Array(items), cells)
    ensures fresh(copied) && Denotes(RSlice(slice), Array(items), copied)
    decreases Array(items), 0
  {
    slice := new SliceNode();
    copied := {};
    for i := 0 to |source.items|
      invariant Denotes(RSlice(source), Array(items), cells)
      invariant fresh(slice) && fresh(copied) && slice !in copied
      invariant |slice.items| == i
      invariant forall j | 0 <= j < i :: Denotes(slice.items[j], items[j], copied)
    {
      var r, added := CloneValue(source.items[i], items[i], cells);
      forall j | 0 <= j < i ensures Denotes(slice.items[j], items[j], copied + added) {
        DenotesMore(slice.items[j], items[j], copied, copied + added);
      }
      DenotesMore(r, items[i], added, copied + added);
      copied := copied + added;
      slice.items := slice.items + [r];
    }
    forall j | 0 <= j < |items| ensures Denotes(slice.items[j], items[j], copied + {slice}) {
      DenotesMore(slice.items[j], items[j], copied, copied + {slice});
    }
    copied := copied + {slice};
  }

  /** cloneValue. */
  method CloneValue(r: Ref, ghost v: Value, ghost cells: set<object>)
    returns (copy: Ref, ghost copied: set<object>)
    requires Denotes(r, v, cells)
    ensures fresh(copied) && Denotes(copy, v, copied)
    decreases v, 1
  {
    match r
    case RMap(source) =>
      var node, inner := CloneMap(source, v.fields, cells);
      FieldsDenoteMore(node, v.fields, inner, inner + {node});
      return RMap(node), inner + {node};
    case RSlice(source) =>
      var slice, inner := CloneSlice(source, v.items, cells);
      return RSlice(slice), inner;
    case _ =>
      return r, {};
  }

  // ---------------------------------------------------------------- merging

  method RemoveField(node: MapNode, key: string, ghost doc: Document, ghost cells: set<object>)
    requires FieldsDenote(node, doc, cells) && node !in cells
    modifies node
    ensures FieldsDenote(node, doc - {key}, cells)
  {
    node.fields := node.fields - {key};
  }

  /** The part of a patch that has been applied. */
  function Restrict(patch: Document, keys: set<string>): Document {
    map key | key in patch && key in keys :: patch[key]
  }

  lemma RestrictAll(patch: Document, keys: set<string>)
    requires patch.Keys <= keys
    ensures Restrict(patch, keys) == patch
  {
  }

  function NestedStep(doc: Document, key: string, v: Value): Document {
    if v.Null? then doc - {key} else doc[key := v]
  }

  function Step(doc: Document, key: string, v: Value): Document {
    if v.Null? then doc - {key} else doc[key := MergeField(doc, key, v)]
  }

  lemma NestedStepCorrect(base: Document, patch: Document, done: set<string>, key: string)
    requires key in patch && key !in done
    ensures MergeNested(base, Restrict(patch, done + {key}))
            == NestedStep(MergeNested(base, Restrict(patch, done)), key, patch[key])
  {
  }

  lemma StepCorrect(base: Document, patch: Document, done: set<string>, key: string)
    requires key in patch && key !in done
    ensures Merge(base, Restrict(patch, done + {key}))
            == Step(Merge(base, Restrict(patch, done)), key, patch[key])
  {
    var l := Merge(base, Restrict(patch, done + {key}));
    var m := Merge(base, Restrict(patch, done));
    var r := Step(m, key, patch[key]);
    assert key in base <==> key in m;
    assert key in base ==> m[key] == base[key];
    assert l.Keys == r.Keys;
    forall k | k in l ensures l[k] == r[k] {
    }
  }

  /** One turn of the inner loop. */
  method NestedOne(merged: MapNode, key: string, value: Ref, ghost v: Value,
                   ghost doc: Document, ghost cells: set<object>, ghost pCells: set<object>)
    returns (ghost cells': set<object>)
    requires FieldsDenote(merged, doc, cells) && merged !in cells
    requires Denotes(value, v, pCells) && merged !in pCells
    modifies merged
    ensures fresh(cells' - cells) && merged !in cells'
    ensures FieldsDenote(merged, NestedStep(doc, key, v), cells')
  {
    if value.RNull? {
      RemoveField(merged, key, doc, cells);
      return cells;
    }
    var r, added := CloneValue(value, v, pCells);
    PutField(merged, key, r, v, doc, cells, added);
    return cells + added;
  }

  /** The inner loop: a clone of the existing nested object takes the patch's fields. */
  method MergeNestedMaps(existing: MapNode, patch: MapNode, ghost e: Document, ghost p: Document,
                         ghost eCells: set<object>, ghost pCells: set<object>)
    returns (merged: MapNode, ghost cells: set<object>)
    requires FieldsDenote(existing, e, eCells) && FieldsDenote(patch, p, pCells)
    ensures fresh(merged) && fresh(cells) && merged !in cells
    ensures FieldsDenote(merged, MergeNested(e, p), cells)
  {
    merged, cells := CloneMap(existing, e, eCells);
    var todo := patch.fields.Keys;
    ghost var done: set<string> := {};
    ghost var doc := e;
    assert MergeNested(e, Restrict(p, done)) == e;
    while todo != {}
      invariant todo <= p.Keys && done == p.Keys - todo
      invariant FieldsDenote(patch, p, pCells)
      invariant fresh(merged) && fresh(cells) && merged !in cells
      invariant doc == MergeNested(e, Restrict(p, done))
      invariant FieldsDenote(merged, doc, cells)
    {
      var key :| key in todo;
      NestedStepCorrect(e, p, done, key);
      cells := NestedOne(merged, key, patch.fields[key], p[key], doc, cells, pCells);
      doc := NestedStep(doc, key, p[key]);
      todo, done := todo - {key}, done + {key};
    }
    RestrictAll(p, done);
  }

  /** One turn of the outer loop. */
  method MergeOne(output: MapNode, key: string, value: Ref, ghost v: Value,
                  ghost doc: Document, ghost cells: set<object>, ghost pCells: set<object>)
    returns (ghost cells': set<object>)
    requires FieldsDenote(output, doc, cells) && output !in cells
    requires Denotes(value, v, pCells) && output !in pCells
    modifies output
    ensures fresh(cells' - cells) && output !in cells'
    ensures FieldsDenote(output, Step(doc, key, v), cells')
  {
    if value.RNull? {
      RemoveField(output, key, doc, cells);
      return cells;
    }
    var r: Ref;
    ghost var added: set<object>;
    if value.RMap? && key in output.fields && output.fields[key].RMap? {
      var merged, inner := MergeNestedMaps(output.fields[key].node, value.node,
                                           doc[key].fields, v.fields, cells, pCells);
      FieldsDenoteMore(merged, MergeNested(doc[key].fields, v.fields), inner, inner + {merged});
      r, added := RMap(merged), inner + {merged};
    } else {
      r, added := CloneValue(value, v, pCells);
    }
    PutField(output, key, r, MergeField(doc, key, v), doc, cells, added);
    return cells + added;
  }

  /** MergeShallow: whatever the iteration order, the output obeys the merge law field by
      field, and neither the output nor anything it reaches existed before the call. */
  method MergeShallow(base: MapNode?, patch: MapNode?, ghost b: Document, ghost p: Document,
                      ghost bCells: set<object>, ghost pCells: set<object>)
    returns (output: MapNode, ghost merged: Document, ghost cells: set<object>)
    requires if base == null then b == map[] else FieldsDenote(base, b, bCells)
    requires if patch == null then p == map[] else FieldsDenote(patch, p, pCells)
    ensures fresh(output) && fresh(cells)
    ensures Denotes(RMap(output), Object(merged), cells)
    ensures MergeLaw(b, p, merged) && merged == Merge(b, p)
  {
    output, cells := CloneMap(base, b, bCells);
    ghost var doc := b;
    assert Merge(b, map[]) == b;
    if patch != null {
      var todo := patch.fields.Keys;
      ghost var done: set<string> := {};
      assert Restrict(p, done) == map[];
      while todo != {}
        invariant todo <= p.Keys && done == p.Keys - todo
        invariant FieldsDenote(patch, p, pCells)
        invariant fresh(output) && fresh(cells) && output !in cells
        invariant doc == Merge(b, Restrict(p, done))
        invariant FieldsDenote(output, doc, cells)
      {
        var key :| key in todo;
        StepCorrect(b, p, done, key);
        cells := MergeOne(output, key, patch.fields[key], p[key], doc, cells, pCells);
        doc := Step(doc, key, p[key]);
        todo, done := todo - {key}, done + {key};
      }
      RestrictAll(p, done);
    }
    FieldsDenoteMore(output, doc, cells, cells + {output});
    merged, cells := doc, cells + {output};
    MergeIsLawful(b, p);
  }
}
