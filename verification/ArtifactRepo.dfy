/**
 The repository's update path as it runs: tables changed in place, links rewritten in loops,
 and everything but the document undone when the transaction fails.
 */
module ArtifactRepo {
  import opened Text
  import opened Patches
  import opened Lifecycle
  import opened Artifacts
  import opened ArtifactRuns
  import opened ArtifactCalls

  lemma {:induction false} ResolveLinksPrefix(rows: Rows, project: Id, items: seq<Value>, n: nat)
    requires n <= |items| && ResolveLinks(rows, project, items[..n]).None?
    ensures ResolveLinks(rows, project, items).None?
  {
    if n < |items| {
      assert items[..|items| - 1][..n] == items[..n];
      ResolveLinksPrefix(rows, project, items[..|items| - 1], n);
    } else {
      assert items[..n] == items;
    }
  }

  lemma {:induction false} FirstTaskSnoc(sources: seq<Source>, last: Source)
    ensures FirstTask(sources + [last]) ==
            if FirstTask(sources).Some? then FirstTask(sources)
            else if last.kind == Task then Some(last.id) else None
  {
    if sources != [] {
      assert (sources + [last])[1..] == sources[1..] + [last];
      FirstTaskSnoc(sources[1..], last);
    }
  }

  lemma RelinkedGrows(links: set<Link>, project: Id, target: Source, added: set<Link>, link: Link)
    ensures Relinked(links, project, target, added) + {link} == Relinked(links, project, target, added + {link})
  {
  }

  class Repo {
    var rows: Rows
    var links: set<Link>
    var docs: map<Id, Document>

    constructor ()
      ensures Tables() == ArtifactCalls.Tables(map[], {}, map[])
    {
      rows, links, docs := map[], {}, map[];
    }

    function Tables(): Tables
      reads this
    {
      ArtifactCalls.Tables(rows, links, docs)
    }

    /** DELETE of the links into a target from one group of kinds. */
    method DeleteLinks(project: Id, target: Source)
      modifies this`links
      ensures links == Relinked(old(links), project, target, {})
    {
      links := set l | l in links && !Cleared(l, project, target);
      assert links == Relinked(old(links), project, target, {});
    }

    method ReplaceProblemSourceLinks(project: Id, problem: Id, items: seq<Value>) returns (ok: bool)
      modifies this`links
      ensures ok <==> SourceLinks(rows, project, problem, items).Some?
      ensures ok ==> links == Relinked(old(links), project, Source(Problem, problem),
                                       SourceLinks(rows, project, problem, items).value)
    {
      DeleteLinks(project, Source(Problem, problem));
      ghost var inserted: set<Link> := {};
      ghost var all := SourceLinks(rows, project, problem, items);
      assert items[0..] == items && (all.Some? ==> {} + all.value == all.value);
      for i := 0 to |items|
        invariant links == Relinked(old(links), project, Source(Problem, problem), inserted)
        invariant all.Some? <==> SourceLinks(rows, project, problem, items[i..]).Some?
        invariant all.Some? ==> all.value == inserted + SourceLinks(rows, project, problem, items[i..]).value
      {
        assert items[i..][1..] == items[i + 1..];
        var source := ProblemSource(items[i]);
        if source.None? || !ExistsWith(rows, project, source.value, Locked) {
          return false;
        }
        var link := Link(project, source.value, Source(Problem, problem), false);
        RelinkedGrows(old(links), project, Source(Problem, problem), inserted, link);
        links := links + {link};
        inserted := inserted + {link};
      }
      ok := true;
    }

    method ReplacePrimaryLink(project: Id, source: Source, target: Source)
      modifies this`links
      ensures links == Relinked(old(links), project, target, LinksTo(project, target, [source], true))
    {
      DeleteLinks(project, target);
      links := links + {Link(project, source, target, true)};
      assert LinksTo(project, target, [source], true) == {Link(project, source, target, true)};
    }

    method ResolveFeedbackLinks(project: Id, items: seq<Value>) returns (refs: Option<Refs>)
      ensures
        var sources := ResolveLinks(rows, project, items);
        refs == if sources.None? then None else Some(Refs(FirstTask(sources.value), sources.value))
    {
      var sources: seq<Source> := [];
      var primary: Option<Id> := None;
      for i := 0 to |items|
        invariant ResolveLinks(rows, project, items[..i]) == Some(sources)
        invariant primary == FirstTask(sources)
      {
        assert items[..i + 1][..i] == items[..i];
        var source := FeedbackSource(items[i]);
        if source.Some? {
          if !Exists(rows, project, source.value) {
            ResolveLinksPrefix(rows, project, items, i + 1);
            return None;
          }
          FirstTaskSnoc(sources, source.value);
          sources := sources + [source.value];
          if source.value.kind == Task && primary.None? {
            primary := Some(source.value.id);
          }
        }
      }
      assert items[..|items|] == items;
      refs := Some(Refs(primary, sources));
    }

    method ReplaceFeedbackLinks(project: Id, feedback: Id, sources: seq<Source>)
      modifies this`links
      ensures links == Relinked(old(links), project, Source(Feedback, feedback),
                                LinksTo(project, Source(Feedback, feedback), sources, false))
    {
      var target := Source(Feedback, feedback);
      DeleteLinks(project, target);
      for i := 0 to |sources|
        invariant links == Relinked(old(links), project, target, LinksTo(project, target, sources[..i], false))
      {
        links := links + {Link(project, sources[i], target, false)};
        assert LinksTo(project, target, sources[..i + 1], false)
            == LinksTo(project, target, sources[..i], false) + {Link(project, sources[i], target, false)};
      }
      assert sources[..|sources|] == sources;
    }

    method ResolveRefs(kind: Kind, project: Id, patch: Document) returns (refs: Option<Refs>)
      ensures refs == Gate(rows, kind, project, patch)
    {
      match kind {
        case Feedback =>
          refs := ResolveFeedbackLinks(project, ItemsOf(Field(patch, "linkedArtifacts")));
        case Idea =>
          refs := GateOne(rows, project, patch, RefKey(Idea), Problem, Locked);
        case Task =>
          refs := GateOne(rows, project, patch, RefKey(Task), Idea, Selected);
        case _ =>
          refs := Some(Refs(None, []));
      }
    }

    method ReplaceLinks(kind: Kind, project: Id, target: Id, patch: Document, refs: Refs) returns (ok: bool)
      requires kind in {Idea, Task} && refs.primary.Some? ==> |refs.sources| == 1
      requires kind in {Story, Journey, Problem} ==> refs.sources == []
      requires SourcesWellFormed(kind, patch)
      modifies this`links
      ensures
        var sources := SourceLinks(rows, project, target, SourceItems(kind, patch));
        && (ok <==> sources.Some?)
        && (ok ==> links == LinksAfter(old(links), project, Source(kind, target), Relinks(kind, patch, refs),
                                       RefLinks(kind, project, target, refs) + sources.value))
    {
      ok := true;
      ghost var named := RefLinks(kind, project, target, refs);
      if kind == Problem {
        if "linkedSources" in patch {
          ok := ReplaceProblemSourceLinks(project, target, ItemsOf(patch["linkedSources"]));
          assert named == {} && forall added :: named + added == added;
        }
      } else if kind == Feedback {
        ReplaceFeedbackLinks(project, target, refs.sources);
        assert named + {} == named;
      } else if kind in {Idea, Task} && refs.primary.Some? {
        assert refs.sources == [refs.sources[0]];
        ReplacePrimaryLink(project, refs.sources[0], Source(kind, target));
        assert named + {} == named;
      }
    }

    /** The callback of the transaction; on a failure the tables may be half changed, the
        documents never. */
    method UpdateInTx(target: Id, patch: Document, now: int) returns (ok: bool)
      requires target in rows
      modifies this
      ensures
        var effect := TxEffect(old(Tables()), target, patch, now);
        && (ok <==> effect.Some?)
        && (ok ==> Tables() == effect.value)
        && (!ok ==> docs == old(docs))
    {
      var r := rows[target];
      var kind, project := KindOf(r), r.project;
      var refs := ResolveRefs(kind, project, patch);
      if refs.None? {
        return false;
      }
      var row := Updated(rows, r, patch, refs.value.primary, now);
      if row.None? || !SourcesWellFormed(kind, patch) {
        return false;
      }
      GateShape(rows, kind, project, patch);
      SourcesSurviveUpdate(rows, target, row.value, project, patch, refs.value.primary, now);
      rows := rows[target := row.value];
      ok := ReplaceLinks(kind, project, target, patch, refs.value);
      if ok {
        docs := docs[target := Merge(DocOf(docs, target), patch)];
      }
    }

    /** A whole call: refused, it leaves everything as it was; accepted, it does what the
        function says. */
    method Update(target: Id, patch: Document, now: int) returns (ok: bool)
      modifies this
      ensures
        var effect := UpdateCall(old(Tables()), target, patch, now);
        && (ok <==> effect.Some?)
        && Tables() == if effect.Some? then effect.value else old(Tables())
    {
      if !Accepts(rows, target, patch) {
        return false;
      }
      var savedRows, savedLinks := rows, links;
      ok := UpdateInTx(target, Canonical(KindOf(rows[target]), patch), now);
      if !ok {
        rows, links := savedRows, savedLinks;
      }
    }
  }

  lemma GateShape(rows: Rows, kind: Kind, project: Id, patch: Document)
    requires Gate(rows, kind, project, patch).Some?
    ensures
      var refs := Gate(rows, kind, project, patch).value;
      && (kind in {Idea, Task} && refs.primary.Some? ==> |refs.sources| == 1)
      && (kind in {Story, Journey, Problem} ==> refs.sources == [])
  {
  }

  /** Writing a problem's row cannot change whether its sources are locked. */
  lemma {:induction false} SourcesSurvive(rows: Rows, target: Id, row: Row, project: Id, items: seq<Value>)
    requires KindOf(row) == Problem && (target in rows ==> KindOf(rows[target]) == Problem)
    ensures SourceLinks(rows[target := row], project, target, items) == SourceLinks(rows, project, target, items)
  {
    if items != [] {
      SourcesSurvive(rows, target, row, project, items[1..]);
    }
  }

  lemma SourcesSurviveUpdate(rows: Rows, target: Id, row: Row, project: Id, patch: Document, ref: Option<Id>, now: int)
    requires target in rows && Updated(rows, rows[target], patch, ref, now) == Some(row)
    ensures
      var items := SourceItems(KindOf(rows[target]), patch);
      SourceLinks(rows[target := row], project, target, items) == SourceLinks(rows, project, target, items)
  {
    UpdateKeepsKind(rows, rows[target], patch, ref, now);
    if KindOf(rows[target]) == Problem {
      SourcesSurvive(rows, target, row, project, SourceItems(Problem, patch));
    }
  }

  lemma UpdateKeepsKind(rows: Rows, r: Row, patch: Document, ref: Option<Id>, now: int)
    requires Updated(rows, r, patch, ref, now).Some?
    ensures KindOf(Updated(rows, r, patch, ref, now).value) == KindOf(r)
  {
  }
}
