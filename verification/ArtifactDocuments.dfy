/**
 The rule tables and the default documents of the six kinds of artifact, and that every
 document ever stored for an artifact conforms to the table of its kind.
 */
module ArtifactDocuments {
  import opened Text
  import opened Patches
  import opened Lifecycle
  import opened Artifacts
  import Documents

  // ---------------------------------------------------------------- rule tables

  /** A table by the sort of its fields: nullable ones, ones that must not be null, objects
      with any content, and objects with a table of their own. */
  datatype Sorts = Sorts(nullable: set<string>, required: set<string>, free: set<string>, nested: map<string, Rules>)

  function Table(s: Sorts): Rules {
    map key | key in s.nullable + s.required + s.free + s.nested.Keys ::
      if key in s.nullable then FieldRule(true, None, false)
      else if key in s.required then FieldRule(false, None, false)
      else if key in s.free then FieldRule(true, None, true)
      else FieldRule(true, Some(s.nested[key]), false)
  }

  function PersonaSorts(): Sorts {
    Sorts({"name", "bio", "role", "age", "job", "edu"}, {}, {}, map[])
  }

  function EmpathySorts(): Sorts {
    Sorts({"says", "thinks", "does", "feels"}, {}, {}, map[])
  }

  function PatchSorts(kind: Kind): Sorts {
    match kind
    case Story =>
      Sorts({"title", "description", "context", "painPoints", "hypothesis", "addOnSections", "notes"}, {"status"}, {},
            map["persona" := Table(PersonaSorts()), "empathyMap" := Table(EmpathySorts())])
    case Journey =>
      Sorts({"title", "description", "context", "stages", "notes"}, {"status"}, {},
            map["persona" := Table(PersonaSorts())])
    case Problem =>
      Sorts({"title", "description", "finalStatement", "orphanAcknowledged", "selectedPainPoints", "customPainPoints",
             "linkedSources", "activeModules", "notesText", "notes"}, {"status"}, {"moduleContent"}, map[])
    case Idea =>
      Sorts({"title", "description", "summary", "summaryTitle", "summaryDescription", "notes", "notesText",
             "selectedProblemId", "activeModules"}, {"status"}, {"moduleContent"}, map[])
    case Task =>
      Sorts({"title", "assignedToId", "assignedToIds", "selectedIdeaId", "deadline", "hypothesis", "planItems",
             "executionLinks", "notes", "notesText", "activeModules", "abandonReason", "hasFeedback"}, {"status"}, {},
            map[])
    case Feedback =>
      Sorts({"title", "description", "isArchived", "linkedArtifacts", "activeModules", "notes", "notesText",
             "observation", "interpretation", "evidenceText", "evidenceLocked", "nextStepsText"},
            {"status", "outcome"}, {"moduleContent"}, map[])
  }

  function PatchRules(kind: Kind): Rules {
    Table(PatchSorts(kind))
  }

  // ---------------------------------------------------------------- default documents

  type Entry = (string, Value)

  /** A document with these fields. */
  function Doc(entries: seq<Entry>): Document {
    if entries == [] then map[]
    else Doc(entries[..|entries| - 1])[entries[|entries| - 1].0 := entries[|entries| - 1].1]
  }

  function Texts(keys: seq<string>): (r: seq<Entry>)
    ensures |r| == |keys| && forall i | 0 <= i < |r| :: r[i] == (keys[i], Str(""))
  {
    seq(|keys|, i requires 0 <= i < |keys| => (keys[i], Str("")))
  }

  function Lists(keys: seq<string>): (r: seq<Entry>)
    ensures |r| == |keys| && forall i | 0 <= i < |r| :: r[i] == (keys[i], Array([]))
  {
    seq(|keys|, i requires 0 <= i < |keys| => (keys[i], Array([])))
  }

  /** Blank texts, empty lists, and the rest. */
  function Fields(texts: seq<string>, lists: seq<string>, rest: seq<Entry>): seq<Entry> {
    Texts(texts) + Lists(lists) + rest
  }

  function DefaultPersona(): seq<Entry> {
    Fields(["name", "bio", "role", "job", "edu"], [], [("age", Num(0))])
  }

  function DefaultEmpathy(): seq<Entry> {
    Fields(["says", "thinks", "does", "feels"], [], [])
  }

  function DefaultEntries(kind: Kind, title: string): seq<Entry> {
    match kind
    case Story =>
      Fields(["description", "context", "notes"], ["painPoints", "hypothesis", "addOnSections"],
             [("title", Str(title)), ("status", Str("draft")),
              ("persona", Object(Doc(DefaultPersona()))), ("empathyMap", Object(Doc(DefaultEmpathy())))])
    case Journey =>
      Fields(["description", "context", "notes"], ["stages"],
             [("title", Str(title)), ("status", Str("draft")), ("persona", Object(Doc(DefaultPersona())))])
    case Problem =>
      Fields(["finalStatement", "notes"], ["selectedPainPoints", "linkedSources", "activeModules"],
             [("title", Str(title)), ("moduleContent", Object(map[]))])
    case Idea =>
      Fields(["description", "summary", "notes", "selectedProblemId"], ["activeModules"],
             [("title", Str(title)), ("status", Str("Considered")), ("moduleContent", Object(map[]))])
    case Task =>
      Fields(["assignedToId", "selectedIdeaId", "deadline", "hypothesis", "notes", "abandonReason"],
             ["assignedToIds", "planItems", "executionLinks", "activeModules"], [("title", Str(title))])
    case Feedback =>
      Fields(["description", "notes"], ["linkedArtifacts", "activeModules"],
             [("title", Str(title)), ("status", Str("Active")), ("outcome", Str("Needs Iteration")),
              ("moduleContent", Object(map[]))])
  }

  function DefaultContent(kind: Kind, title: string): Document {
    Doc(DefaultEntries(kind, title))
  }

  // ---------------------------------------------------------------- defaults conform

  predicate EntryConforms(e: Entry, rules: Rules) {
    e.0 in rules && FieldConforms(e.1, rules[e.0])
  }

  predicate EntriesConform(entries: seq<Entry>, rules: Rules) {
    forall e | e in entries :: EntryConforms(e, rules)
  }

  lemma {:induction false} DocConforms(entries: seq<Entry>, rules: Rules)
    requires EntriesConform(entries, rules)
    ensures Conforms(Doc(entries), rules)
  {
    if entries != [] {
      DocConforms(entries[..|entries| - 1], rules);
      assert EntryConforms(entries[|entries| - 1], rules);
    }
  }

  /** A field that fits its sort, whichever other sorts also list it. */
  predicate Fitting(s: Sorts, e: Entry) {
    || (e.0 in s.nullable + s.required && !e.1.Null?)
    || (e.1.Object? && (e.0 in s.free || (e.0 in s.nested && Conforms(e.1.fields, s.nested[e.0]))))
  }

  lemma FittingConforms(s: Sorts, e: Entry)
    requires Fitting(s, e)
    ensures EntryConforms(e, Table(s))
  {
  }

  /** The fields of a default document that start out as blank texts or empty lists. */
  lemma BlanksConform(s: Sorts, texts: seq<string>, lists: seq<string>)
    requires (forall key | key in texts :: key in s.nullable) && (forall key | key in lists :: key in s.nullable)
    ensures EntriesConform(Texts(texts) + Lists(lists), Table(s))
  {
    forall e | e in Texts(texts) + Lists(lists) ensures EntryConforms(e, Table(s)) {
      if e in Texts(texts) {
        var i :| 0 <= i < |texts| && Texts(texts)[i] == e;
        assert texts[i] in texts;
      } else {
        var i :| 0 <= i < |lists| && Lists(lists)[i] == e;
        assert lists[i] in lists;
      }
      FittingConforms(s, e);
    }
  }

  lemma FieldsConform(s: Sorts, texts: seq<string>, lists: seq<string>, rest: seq<Entry>)
    requires (forall key | key in texts :: key in s.nullable) && (forall key | key in lists :: key in s.nullable)
    requires EntriesConform(rest, Table(s))
    ensures Conforms(Doc(Fields(texts, lists, rest)), Table(s))
  {
    BlanksConform(s, texts, lists);
    DocConforms(Fields(texts, lists, rest), Table(s));
  }

  lemma PersonaConforms()
    ensures Conforms(Doc(DefaultPersona()), Table(PersonaSorts()))
  {
    FieldsConform(PersonaSorts(), ["name", "bio", "role", "job", "edu"], [], [("age", Num(0))]);
  }

  lemma EmpathyConforms()
    ensures Conforms(Doc(DefaultEmpathy()), Table(EmpathySorts()))
  {
    FieldsConform(EmpathySorts(), ["says", "thinks", "does", "feels"], [], []);
  }

  lemma AllFitting(s: Sorts, entries: seq<Entry>)
    requires forall i | 0 <= i < |entries| :: Fitting(s, entries[i])
    ensures EntriesConform(entries, Table(s))
  {
    forall e | e in entries ensures EntryConforms(e, Table(s)) {
      var i :| 0 <= i < |entries| && entries[i] == e;
      FittingConforms(s, e);
    }
  }

  lemma StoryConforms(title: string)
    ensures Conforms(DefaultContent(Story, title), PatchRules(Story))
  {
    var s := PatchSorts(Story);
    PersonaConforms();
    EmpathyConforms();
    var rest := [("title", Str(title)), ("status", Str("draft")),
                 ("persona", Object(Doc(DefaultPersona()))), ("empathyMap", Object(Doc(DefaultEmpathy())))];
    assert s.nested["persona"] == Table(PersonaSorts()) && s.nested["empathyMap"] == Table(EmpathySorts());
    AllFitting(s, rest);
    FieldsConform(s, ["description", "context", "notes"], ["painPoints", "hypothesis", "addOnSections"], rest);
  }

  lemma JourneyConforms(title: string)
    ensures Conforms(DefaultContent(Journey, title), PatchRules(Journey))
  {
    var s := PatchSorts(Journey);
    PersonaConforms();
    var rest := [("title", Str(title)), ("status", Str("draft")), ("persona", Object(Doc(DefaultPersona())))];
    AllFitting(s, rest);
    FieldsConform(s, ["description", "context", "notes"], ["stages"], rest);
  }

  lemma ProblemConforms(title: string)
    ensures Conforms(DefaultContent(Problem, title), PatchRules(Problem))
  {
    var s := PatchSorts(Problem);
    var rest := [("title", Str(title)), ("moduleContent", Object(map[]))];
    AllFitting(s, rest);
    FieldsConform(s, ["finalStatement", "notes"], ["selectedPainPoints", "linkedSources", "activeModules"], rest);
  }

  lemma IdeaConforms(title: string)
    ensures Conforms(DefaultContent(Idea, title), PatchRules(Idea))
  {
    var s := PatchSorts(Idea);
    var rest := [("title", Str(title)), ("status", Str("Considered")), ("moduleContent", Object(map[]))];
    AllFitting(s, rest);
    FieldsConform(s, ["description", "summary", "notes", "selectedProblemId"], ["activeModules"], rest);
  }

  lemma TaskConforms(title: string)
    ensures Conforms(DefaultContent(Task, title), PatchRules(Task))
  {
    var s := PatchSorts(Task);
    var rest := [("title", Str(title))];
    AllFitting(s, rest);
    FieldsConform(s, ["assignedToId", "selectedIdeaId", "deadline", "hypothesis", "notes", "abandonReason"],
                  ["assignedToIds", "planItems", "executionLinks", "activeModules"], rest);
  }

  lemma FeedbackConforms(title: string)
    ensures Conforms(DefaultContent(Feedback, title), PatchRules(Feedback))
  {
    var s := PatchSorts(Feedback);
    var rest := [("title", Str(title)), ("status", Str("Active")), ("outcome", Str("Needs Iteration")),
                 ("moduleContent", Object(map[]))];
    AllFitting(s, rest);
    FieldsConform(s, ["description", "notes"], ["linkedArtifacts", "activeModules"], rest);
  }

  /** The default document of every kind conforms to the table of its kind. */
  lemma DefaultsConform(kind: Kind, title: string)
    ensures Conforms(DefaultContent(kind, title), PatchRules(kind))
  {
    match kind
    case Story => StoryConforms(title);
    case Journey => JourneyConforms(title);
    case Problem => ProblemConforms(title);
    case Idea => IdeaConforms(title);
    case Task => TaskConforms(title);
    case Feedback => FeedbackConforms(title);
  }

  // ---------------------------------------------------------------- what requests add

  /** Writing the canonical status and outcome back into a valid patch leaves it valid. */
  lemma CanonicalConforms(kind: Kind, patch: Document)
    requires Conforms(patch, PatchRules(kind))
    ensures Conforms(Canonical(kind, patch), PatchRules(kind))
  {
    StatusIsPlain(kind);
  }

  lemma StatusIsPlain(kind: Kind)
    ensures "status" in PatchRules(kind) && forall text: string :: FieldConforms(Str(text), PatchRules(kind)["status"])
  {
    assert "status" in PatchSorts(kind).required;
  }

  /** So does writing the resolved assignees back into a task's patch. */
  lemma AssigneesConform(patch: Document, ids: seq<string>)
    requires Conforms(patch, PatchRules(Task))
    ensures Conforms(WithAssignees(patch, ids), PatchRules(Task))
  {
    var s := PatchSorts(Task);
    assert "assignedToIds" in s.nullable && "assignedToId" in s.nullable;
    forall v: Value | !v.Null?
      ensures EntryConforms(("assignedToIds", v), Table(s)) && EntryConforms(("assignedToId", v), Table(s))
    {
      FittingConforms(s, ("assignedToIds", v));
      FittingConforms(s, ("assignedToId", v));
    }
    var values := seq(|ids|, i requires 0 <= i < |ids| => Str(ids[i]));
    assert EntryConforms(("assignedToIds", Array(values)), Table(s));
    assert EntryConforms(("assignedToId", Str(if ids == [] then "" else ids[0])), Table(s));
  }

  // ---------------------------------------------------------------- every stored document

  lemma {:induction false} DocHasNoNull(entries: seq<Entry>)
    requires forall i | 0 <= i < |entries| :: !entries[i].1.Null?
    ensures forall key | key in Doc(entries) :: !Doc(entries)[key].Null?
  {
    if entries != [] {
      DocHasNoNull(entries[..|entries| - 1]);
    }
  }

  function Assignees(owner: string): seq<string> {
    if Trim(owner) == "" then [] else [Trim(owner)]
  }

  function WithAssignees(patch: Document, ids: seq<string>): Document {
    var values := seq(|ids|, i requires 0 <= i < |ids| => Str(ids[i]));
    patch["assignedToIds" := Array(values)]["assignedToId" := Str(if ids == [] then "" else ids[0])]
  }

  /** The document creation writes: the default one, and for a task its owner is assigned. */
  function CreatedContent(kind: Kind, title: string, owner: string): Document {
    var content := DefaultContent(kind, title);
    if kind == Task then WithAssignees(content, Assignees(owner)) else content
  }

  lemma CreatedConforms(kind: Kind, title: string, owner: string)
    ensures Conforms(CreatedContent(kind, title, owner), PatchRules(kind))
  {
    DefaultsConform(kind, title);
    if kind == Task {
      AssigneesConform(DefaultContent(kind, title), Assignees(owner));
    }
  }

  lemma DefaultHasNoNull(kind: Kind, title: string)
    ensures forall key | key in DefaultContent(kind, title) :: !DefaultContent(kind, title)[key].Null?
  {
    var entries := DefaultEntries(kind, title);
    forall i | 0 <= i < |entries| ensures !entries[i].1.Null? {
    }
    DocHasNoNull(entries);
  }

  /** Creation merges its document into nothing, and that stores it as it is. */
  lemma CreatedIsStored(kind: Kind, title: string, owner: string)
    ensures Merge(map[], CreatedContent(kind, title, owner)) == CreatedContent(kind, title, owner)
  {
    DefaultHasNoNull(kind, title);
  }

  /** Every document ever stored for an artifact of a kind, from the one it is created with
      through any validated updates, conforms to the table of that kind. */
  lemma EveryStoredConforms(kind: Kind, title: string, owner: string, c: Documents.Config, states: seq<Documents.State>,
                            steps: seq<Documents.Step>, i: nat)
    requires Documents.Run(c, CreatedContent(kind, title, owner), states, steps) && i < |states|
    requires Documents.Validated(steps, PatchRules(kind))
    ensures Conforms(states[i].doc.content, PatchRules(kind))
  {
    CreatedConforms(kind, title, owner);
    Documents.StoredConforms(c, CreatedContent(kind, title, owner), PatchRules(kind), states, steps, i);
  }
}
