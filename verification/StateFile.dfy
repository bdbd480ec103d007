/**
  The state file that both engines share: what each writes, how tolerantly each reads, and
  what survives being passed back and forth between them.
 */
module StateFile {
  import opened Basics
  import opened Costs
  import opened DeliveryLaw

  datatype Json =
    | JNull
    | JBool(b: bool)
    | JNum(n: real)
    | JStr(s: string)
    | JArr(items: seq<Json>)
    | JObj(fields: map<string, Json>)

  datatype Field =
    | AdwId | SchemaVersion | IssueNumber | IssueClass | BranchName | Base | PlanFile | PrNumber | PrUrl | CommitMessage
    | PrBody | ReviewFindings | CompletedPhases | Engine | Runner | TotalCostUsd

  function Name(f: Field): string
  {
    match f
    case AdwId => "adw_id"
    case SchemaVersion => "schema_version"
    case IssueNumber => "issue_number"
    case IssueClass => "issue_class"
    case BranchName => "branch_name"
    case Base => "base"
    case PlanFile => "plan_file"
    case PrNumber => "pr_number"
    case PrUrl => "pr_url"
    case CommitMessage => "commit_message"
    case PrBody => "pr_body"
    case ReviewFindings => "review_findings"
    case CompletedPhases => "completed_phases"
    case Engine => "engine"
    case Runner => "runner"
    case TotalCostUsd => "total_cost_usd"
  }

  /** What only the TypeScript engine knows; the Python engine knows the rest. */
  const ADDITIVE := {Engine, Runner, TotalCostUsd}

  /** The state in memory, in the TypeScript engine; its cost may be absent, unknown or a number. */
  datatype State = State(id: string, version: real, issue: Option<string>, issueClass: Option<string>,
                         branch: Option<string>, base: string, planFile: Option<string>, pr: Option<real>,
                         prUrl: Option<string>, commitMessage: Option<string>, prBody: Option<string>,
                         findings: seq<map<string, Json>>, completed: seq<string>, engine: Option<string>,
                         runner: Option<string>, cost: Cost)

  /** The state in the Python engine: its fields with whatever values the file held. */
  type PythonState = map<Field, Json>

  // ---------------------------------------------------------------------------
  // Objects
  // ---------------------------------------------------------------------------

  function Lookup(fields: map<string, Json>, key: string): Option<Json>
  {
    if key in fields then Some(fields[key]) else None
  }

  function Read(fields: map<string, Json>, f: Field): Option<Json>
  {
    Lookup(fields, Name(f))
  }

  /** Names of one length are told apart by their first characters. */
  lemma NamesDiffer(f: Field, g: Field)
    requires f != g
    ensures Name(f) != Name(g)
  {
    hide Name;
    NameIsMarked(f);
    NameIsMarked(g);
  }

  function Mark(f: Field): (int, char, char)
  {
    match f
    case AdwId => (6, 'a', 'd')
    case SchemaVersion => (14, 's', 'c')
    case IssueNumber => (12, 'i', 's')
    case IssueClass => (11, 'i', 's')
    case BranchName => (11, 'b', 'r')
    case Base => (4, 'b', 'a')
    case PlanFile => (9, 'p', 'l')
    case PrNumber => (9, 'p', 'r')
    case PrUrl => (6, 'p', 'r')
    case CommitMessage => (14, 'c', 'o')
    case PrBody => (7, 'p', 'r')
    case ReviewFindings => (15, 'r', 'e')
    case CompletedPhases => (16, 'c', 'o')
    case Engine => (6, 'e', 'n')
    case Runner => (6, 'r', 'u')
    case TotalCostUsd => (14, 't', 'o')
  }

  lemma NameIsMarked(f: Field)
    ensures |Name(f)| >= 2 && (|Name(f)|, Name(f)[0], Name(f)[1]) == Mark(f)
  {
  }

  lemma NamesAllDiffer()
    ensures forall f, g | f != g :: Name(f) != Name(g)
  {
    forall f: Field, g: Field | f != g
      ensures Name(f) != Name(g)
    {
      NamesDiffer(f, g);
    }
  }

  function Object(values: map<Field, Json>): Json
  {
    NamesAllDiffer();
    JObj(map f | f in values :: Name(f) := values[f])
  }

  lemma ObjectHolds(values: map<Field, Json>)
    ensures Object(values).JObj?
    ensures forall f :: Read(Object(values).fields, f) == if f in values then Some(values[f]) else None
  {
    hide Name;
    NamesAllDiffer();
  }

  // ---------------------------------------------------------------------------
  // Writing, in TypeScript
  // ---------------------------------------------------------------------------

  function TextOrNull(t: Option<string>): Json
  {
    if t.Some? then JStr(t.value) else JNull
  }

  function TextIfSet(t: Option<string>): Option<Json>
  {
    if t.Some? then Some(JStr(t.value)) else None
  }

  function Objects(fs: seq<map<string, Json>>): Json
  {
    JArr(seq(|fs|, i requires 0 <= i < |fs| => JObj(fs[i])))
  }

  function Strings(ss: seq<string>): Json
  {
    JArr(seq(|ss|, i requires 0 <= i < |ss| => JStr(ss[i])))
  }

  /** What is written in a field, if anything. */
  function Written(s: State, f: Field): Option<Json>
  {
    match f
    case AdwId => Some(JStr(s.id))
    case SchemaVersion => Some(JNum(s.version))
    case IssueNumber => Some(TextOrNull(s.issue))
    case IssueClass => Some(TextOrNull(s.issueClass))
    case BranchName => Some(TextOrNull(s.branch))
    case Base => Some(JStr(s.base))
    case PlanFile => Some(TextOrNull(s.planFile))
    case PrNumber => Some(if s.pr.Some? then JNum(s.pr.value) else JNull)
    case PrUrl => Some(TextOrNull(s.prUrl))
    case CommitMessage => Some(TextOrNull(s.commitMessage))
    case PrBody => Some(TextOrNull(s.prBody))
    case ReviewFindings => Some(Objects(s.findings))
    case CompletedPhases => Some(Strings(s.completed))
    case Engine => TextIfSet(s.engine)
    case Runner => TextIfSet(s.runner)
    case TotalCostUsd =>
      match s.cost
      case Absent => None
      case Unpriced => Some(JNull)
      case Known(amount) => Some(JNum(amount))
  }

  function ToJson(s: State): Json
  {
    Object(map f: Field | Written(s, f).Some? :: Written(s, f).value)
  }

  lemma WrittenIsRead(s: State)
    ensures ToJson(s).JObj?
    ensures forall f :: Read(ToJson(s).fields, f) == Written(s, f)
  {
    hide Written, Object, Read;
    ObjectHolds(map f: Field | Written(s, f).Some? :: Written(s, f).value);
  }

  // ---------------------------------------------------------------------------
  // Reading, in TypeScript: junk falls back to defaults
  // ---------------------------------------------------------------------------

  function AsText(j: Option<Json>): Option<string>
  {
    if j.Some? && j.value.JStr? then Some(j.value.s) else None
  }

  function AsNumber(j: Option<Json>): Option<real>
  {
    if j.Some? && j.value.JNum? then Some(j.value.n) else None
  }

  function Or<T>(x: Option<T>, fallback: T): T
  {
    if x.Some? then x.value else fallback
  }

  function Items(j: Option<Json>): seq<Json>
  {
    if j.Some? && j.value.JArr? then j.value.items else []
  }

  /** The objects among the items, whole. */
  function ObjectsIn(items: seq<Json>): seq<map<string, Json>>
  {
    if items == [] then []
    else ObjectsIn(items[..|items| - 1]) + if items[|items| - 1].JObj? then [items[|items| - 1].fields] else []
  }

  /** The strings among the items. */
  function StringsIn(items: seq<Json>): seq<string>
  {
    if items == [] then []
    else StringsIn(items[..|items| - 1]) + if items[|items| - 1].JStr? then [items[|items| - 1].s] else []
  }

  function AsCost(j: Option<Json>): Cost
  {
    if j == Some(JNull) then Unpriced else if AsNumber(j).Some? then Known(AsNumber(j).value) else Absent
  }

  function StateFrom(fields: map<string, Json>, id: string): State
  {
    State(id, Or(AsNumber(Read(fields, SchemaVersion)), 1.0), AsText(Read(fields, IssueNumber)),
          AsText(Read(fields, IssueClass)), AsText(Read(fields, BranchName)), Or(AsText(Read(fields, Base)), "main"),
          AsText(Read(fields, PlanFile)), AsNumber(Read(fields, PrNumber)), AsText(Read(fields, PrUrl)),
          AsText(Read(fields, CommitMessage)), AsText(Read(fields, PrBody)),
          ObjectsIn(Items(Read(fields, ReviewFindings))), StringsIn(Items(Read(fields, CompletedPhases))),
          AsText(Read(fields, Engine)), AsText(Read(fields, Runner)), AsCost(Read(fields, TotalCostUsd)))
  }

  /** An object whose run id is a valid one. */
  predicate Loadable(file: Json, validId: string -> bool)
  {
    file.JObj? && AsText(Read(file.fields, AdwId)).Some? && validId(AsText(Read(file.fields, AdwId)).value)
  }

  function LoadTypeScript(file: Json, validId: string -> bool): Option<State>
  {
    if !Loadable(file, validId) then None
    else Some(StateFrom(file.fields, AsText(Read(file.fields, AdwId)).value))
  }

  // ---------------------------------------------------------------------------
  // Reading and writing, in Python: known fields are taken as they are
  // ---------------------------------------------------------------------------

  function Default(f: Field): Json
  {
    match f
    case SchemaVersion => JNum(1.0)
    case Base => JStr("main")
    case ReviewFindings => JArr([])
    case CompletedPhases => JArr([])
    case _ => JNull
  }

  function LoadPython(file: Json, validId: string -> bool): Option<PythonState>
  {
    if !Loadable(file, validId) then None
    else Some(map f: Field | f !in ADDITIVE :: Or(Read(file.fields, f), Default(f)))
  }

  function SavePython(state: PythonState): Json
  {
    Object(state)
  }

  // ---------------------------------------------------------------------------
  // What survives
  // ---------------------------------------------------------------------------

  lemma {:induction false} StringsSurvive(ss: seq<string>)
    ensures StringsIn(Strings(ss).items) == ss
  {
    if ss != [] {
      var before, items := ss[..|ss| - 1], Strings(ss).items;
      StringsSurvive(before);
      assert items[..|items| - 1] == Strings(before).items;
      assert ss == before + [ss[|ss| - 1]];
    }
  }

  lemma {:induction false} ObjectsSurvive(fs: seq<map<string, Json>>)
    ensures ObjectsIn(Objects(fs).items) == fs
  {
    if fs != [] {
      var before, items := fs[..|fs| - 1], Objects(fs).items;
      ObjectsSurvive(before);
      assert items[..|items| - 1] == Objects(before).items;
      assert fs == before + [fs[|fs| - 1]];
    }
  }

  lemma ListsSurvive(s: State)
    ensures ObjectsIn(Items(Written(s, ReviewFindings))) == s.findings
    ensures StringsIn(Items(Written(s, CompletedPhases))) == s.completed
  {
    StringsSurvive(s.completed);
    ObjectsSurvive(s.findings);
  }

  lemma TextsSurvive(s: State)
    ensures AsText(Written(s, IssueNumber)) == s.issue && AsText(Written(s, IssueClass)) == s.issueClass
    ensures AsText(Written(s, BranchName)) == s.branch && AsText(Written(s, PlanFile)) == s.planFile
    ensures AsText(Written(s, PrUrl)) == s.prUrl && AsText(Written(s, CommitMessage)) == s.commitMessage
    ensures AsText(Written(s, PrBody)) == s.prBody && AsText(Written(s, Base)) == Some(s.base)
  {
    hide Objects, Strings;
  }

  lemma OthersSurvive(s: State)
    ensures AsText(Written(s, Engine)) == s.engine && AsText(Written(s, Runner)) == s.runner
    ensures AsNumber(Written(s, SchemaVersion)) == Some(s.version) && AsNumber(Written(s, PrNumber)) == s.pr
    ensures AsCost(Written(s, TotalCostUsd)) == s.cost
  {
    hide Objects, Strings;
  }

  /** Fields that read as those of a state were written make up that state. */
  lemma ReadsAsWritten(fields: map<string, Json>, s: State)
    requires forall f :: Read(fields, f) == Written(s, f)
    ensures StateFrom(fields, s.id) == s
  {
    hide Read, Written, AsText, AsNumber, AsCost, ObjectsIn, StringsIn, Items;
    TextsSurvive(s);
    OthersSurvive(s);
    ListsSurvive(s);
  }

  lemma LoadsAsWritten(file: Json, s: State, validId: string -> bool)
    requires file.JObj? && validId(s.id) && forall f :: Read(file.fields, f) == Written(s, f)
    ensures Loadable(file, validId) && LoadTypeScript(file, validId) == Some(s)
  {
    hide Read, StateFrom;
    ReadsAsWritten(file.fields, s);
    assert Read(file.fields, AdwId) == Some(JStr(s.id));
  }

  /** The TypeScript engine reads back exactly what it wrote, every field of it. */
  lemma RoundTrip(s: State, validId: string -> bool)
    requires validId(s.id)
    ensures LoadTypeScript(ToJson(s), validId) == Some(s)
  {
    hide ToJson, Read, Written, LoadTypeScript, Loadable;
    WrittenIsRead(s);
    LoadsAsWritten(ToJson(s), s, validId);
  }

  /** What the Python engine holds after loading what the TypeScript engine wrote. */
  lemma PythonReads(s: State, validId: string -> bool)
    requires validId(s.id)
    ensures LoadPython(ToJson(s), validId).Some?
    ensures var state := LoadPython(ToJson(s), validId).value;
      forall f: Field :: if f in ADDITIVE then f !in state else f in state && Written(s, f) == Some(state[f])
  {
    hide ToJson, Read, Written, LoadTypeScript, Loadable;
    WrittenIsRead(s);
    LoadsAsWritten(ToJson(s), s, validId);
    forall f: Field | f !in ADDITIVE
      ensures Written(s, f).Some?
    {
      WritesProperly(s, f);
    }
  }

  /** What the pipeline goes by when it resumes. */
  function Resumed(s: State, show: Json -> string): Doc
  {
    Doc(Or(s.issue, ""), s.completed,
        seq(|s.findings|, i requires 0 <= i < |s.findings| => RecordIn(s.findings[i], show)),
        if s.pr.Some? then Some(s.pr.value.Floor) else None, s.runner)
  }

  /**
    A state that the TypeScript engine wrote, the Python engine loaded and saved again, and
    the TypeScript engine loads once more has lost the three fields that only the latter
    knows, and nothing else.
   */
  lemma SurvivesPython(s: State, validId: string -> bool, show: Json -> string)
    requires validId(s.id)
    ensures LoadPython(ToJson(s), validId).Some?
    ensures LoadTypeScript(SavePython(LoadPython(ToJson(s), validId).value), validId) ==
      Some(s.(engine := None, runner := None, cost := Absent))
    ensures Resumed(s.(engine := None, runner := None, cost := Absent), show) == Resumed(s, show).(runner := None)
  {
    hide ToJson, Read, Written, LoadTypeScript, Loadable, LoadPython, Object;
    PythonReads(s, validId);
    var state, rest := LoadPython(ToJson(s), validId).value, s.(engine := None, runner := None, cost := Absent);
    ObjectHolds(state);
    forall f: Field
      ensures Read(Object(state).fields, f) == Written(rest, f)
    {
      AdditiveUnset(s, f);
    }
    LoadsAsWritten(Object(state), rest, validId);
  }

  lemma AdditiveUnset(s: State, f: Field)
    ensures Written(s.(engine := None, runner := None, cost := Absent), f) ==
      if f in ADDITIVE then None else Written(s, f)
  {
  }

  /** The values that the file's schema allows in a field. */
  ghost predicate Proper(f: Field, j: Json)
  {
    match f
    case AdwId => j.JStr?
    case SchemaVersion => j.JNum?
    case Base => j.JStr?
    case PrNumber => j.JNum? || j.JNull?
    case ReviewFindings => j.JArr? && forall x | x in j.items :: x.JObj?
    case CompletedPhases => j.JArr? && forall x | x in j.items :: x.JStr?
    case _ => j.JStr? || j.JNull?
  }

  lemma {:induction false} AllStrings(items: seq<Json>)
    requires forall x | x in items :: x.JStr?
    ensures Strings(StringsIn(items)) == JArr(items)
  {
    if items != [] {
      var before, last := items[..|items| - 1], items[|items| - 1];
      assert last in items && forall x | x in before :: x in items;
      AllStrings(before);
      assert items == before + [last];
      assert Strings(StringsIn(items)).items == Strings(StringsIn(before)).items + [last];
    }
  }

  lemma {:induction false} AllObjects(items: seq<Json>)
    requires forall x | x in items :: x.JObj?
    ensures Objects(ObjectsIn(items)) == JArr(items)
  {
    if items != [] {
      var before, last := items[..|items| - 1], items[|items| - 1];
      assert last in items && forall x | x in before :: x in items;
      AllObjects(before);
      assert items == before + [last];
      assert Objects(ObjectsIn(items)).items == Objects(ObjectsIn(before)).items + [last];
    }
  }

  /** Whatever the TypeScript engine writes in a field is proper. */
  lemma WritesProperly(s: State, f: Field)
    requires f !in ADDITIVE
    ensures Written(s, f).Some? && Proper(f, Written(s, f).value)
  {
  }

  /** A proper value that the TypeScript engine has read is the one it writes. */
  lemma ProperIsKept(fields: map<string, Json>, id: string, f: Field)
    requires f !in ADDITIVE && Read(fields, f).Some? && Proper(f, Read(fields, f).value)
    requires Read(fields, AdwId) == Some(JStr(id))
    ensures Written(StateFrom(fields, id), f) == Read(fields, f)
  {
    hide Read, Objects, Strings, ObjectsIn, StringsIn;
    if f == ReviewFindings {
      AllObjects(Read(fields, f).value.items);
    } else if f == CompletedPhases {
      AllStrings(Read(fields, f).value.items);
    }
  }

  /**
    The other way round, a state of the Python engine comes back from the TypeScript engine
    unchanged if and only if every field holds what the schema allows.
   */
  lemma SurvivesTypeScriptIff(state: PythonState, validId: string -> bool)
    requires forall f: Field :: f in state <==> f !in ADDITIVE
    requires state[AdwId].JStr? && validId(state[AdwId].s)
    ensures LoadTypeScript(SavePython(state), validId).Some?
    ensures var back := LoadPython(ToJson(LoadTypeScript(SavePython(state), validId).value), validId);
      back == Some(state) <==> forall f | f in state :: Proper(f, state[f])
  {
    hide ToJson, Read, Object, Written, Proper, StateFrom, LoadPython;
    ObjectHolds(state);
    var fields, id := Object(state).fields, state[AdwId].s;
    var s := StateFrom(fields, id);
    assert s.id == id by { StateHasId(fields, id); }
    assert Read(fields, AdwId) == Some(state[AdwId]);
    assert LoadTypeScript(SavePython(state), validId) == Some(s);
    PythonReads(s, validId);
    var back := LoadPython(ToJson(s), validId).value;
    forall f | f in state
      ensures f in back && (Proper(f, state[f]) <==> back[f] == state[f])
    {
      WritesProperly(s, f);
      assert Read(fields, f) == Some(state[f]);
      if Proper(f, state[f]) {
        ProperIsKept(fields, id, f);
      }
    }
    assert forall f: Field :: f in back <==> f in state;
    assert back == state <==> forall f | f in state :: back[f] == state[f];
  }

  lemma StateHasId(fields: map<string, Json>, id: string)
    ensures StateFrom(fields, id).id == id
  {
  }

  /**
    Any object with a valid run id loads, however broken the rest; keys that the engine
    does not know make no difference.
   */
  lemma LoadIsTolerant(file: Json, extra: map<string, Json>, validId: string -> bool)
    requires file.JObj? && forall f :: Name(f) !in extra
    ensures LoadTypeScript(file, validId).Some? <==>
      Name(AdwId) in file.fields && file.fields[Name(AdwId)].JStr? && validId(file.fields[Name(AdwId)].s)
    ensures LoadTypeScript(JObj(file.fields + extra), validId) == LoadTypeScript(file, validId)
  {
    hide Name, ObjectsIn, StringsIn;
    assert forall f :: Read(file.fields + extra, f) == Read(file.fields, f);
  }

  const ALWAYS_WRITTEN := {"adw_id", "schema_version", "issue_number", "issue_class", "branch_name", "base",
                           "plan_file", "pr_number", "pr_url", "commit_message", "pr_body", "review_findings",
                           "completed_phases"}

  lemma NamesAre(k: string)
    ensures k in ALWAYS_WRITTEN <==> exists f: Field | f !in ADDITIVE :: Name(f) == k
    ensures Name(Engine) == "engine" && Name(Runner) == "runner" && Name(TotalCostUsd) == "total_cost_usd"
  {
    if k in ALWAYS_WRITTEN {
      assert
        || k == Name(AdwId) || k == Name(SchemaVersion) || k == Name(IssueNumber) || k == Name(IssueClass)
        || k == Name(BranchName) || k == Name(Base) || k == Name(PlanFile) || k == Name(PrNumber) || k == Name(PrUrl)
        || k == Name(CommitMessage) || k == Name(PrBody) || k == Name(ReviewFindings) || k == Name(CompletedPhases);
    }
  }

  lemma WrittenUnder(s: State, k: string)
    ensures ToJson(s).JObj? && (k in ToJson(s).fields <==> exists f: Field :: Written(s, f).Some? && Name(f) == k)
  {
    hide Name, Written;
    NamesAllDiffer();
    var values := map f: Field | Written(s, f).Some? :: Written(s, f).value;
    assert ToJson(s) == Object(values);
  }

  lemma AdditiveWritten(s: State)
    ensures forall f: Field :: Written(s, f).Some? <==>
      f !in ADDITIVE || (f == Engine && s.engine.Some?) || (f == Runner && s.runner.Some?) ||
      (f == TotalCostUsd && s.cost != Absent)
  {
    hide Objects, Strings;
  }

  /** The keys of a written state: thirteen always, three only if set. */
  lemma KeysWritten(s: State, k: string)
    ensures ToJson(s).JObj?
    ensures k in ToJson(s).fields <==>
      || k in ALWAYS_WRITTEN
      || (k == "engine" && s.engine.Some?) || (k == "runner" && s.runner.Some?)
      || (k == "total_cost_usd" && s.cost != Absent)
  {
    WrittenUnder(s, k);
    NamesAre(k);
    AdditiveWritten(s);
    hide Name, Written, ToJson;
  }

  function NewState(id: string): State
  {
    State(id, 1.0, None, None, None, "main", None, None, None, None, None, [], [], None, None, Absent)
  }

  /** A file with a run id and nothing else: both engines fill in the same defaults. */
  lemma DefaultsAgree(id: string, validId: string -> bool)
    requires validId(id)
    ensures var file := JObj(map["adw_id" := JStr(id)]);
      && LoadTypeScript(file, validId) == Some(NewState(id))
      && LoadPython(file, validId).Some?
      && forall f: Field | f !in ADDITIVE ::
           f in LoadPython(file, validId).value && Written(NewState(id), f) == Some(LoadPython(file, validId).value[f])
  {
    hide Read, Name, Written, Default, StateFrom, NewState;
    OnlyTheId(id);
    NothingRead(map["adw_id" := JStr(id)], id);
    NewIsDefault(id);
  }

  /** Fields of which only the run id is there read as a new state. */
  lemma NothingRead(fields: map<string, Json>, id: string)
    requires forall f :: Read(fields, f) == if f == AdwId then Some(JStr(id)) else None
    ensures StateFrom(fields, id) == NewState(id)
  {
    hide Read, Name;
  }

  lemma NewIsDefault(id: string)
    ensures forall f: Field | f !in ADDITIVE ::
      Written(NewState(id), f) == Some(if f == AdwId then JStr(id) else Default(f))
  {
    assert Objects([]).items == [] && Strings([]).items == [];
  }

  lemma OnlyTheId(id: string)
    ensures forall f :: Read(map["adw_id" := JStr(id)], f) == if f == AdwId then Some(JStr(id)) else None
  {
    forall f: Field | f != AdwId
      ensures Name(f) != "adw_id"
    {
      NamesDiffer(f, AdwId);
    }
  }

  // ---------------------------------------------------------------------------
  // One finding
  // ---------------------------------------------------------------------------

  /** A finding's field: absent or null is missing, anything else is read as a string. */
  function FieldIn(fields: map<string, Json>, key: string, show: Json -> string): Option<string>
  {
    var j := Or(Lookup(fields, key), JNull);
    if j == JNull then None else if j.JStr? then Some(j.s) else Some(show(j))
  }

  function RecordIn(fields: map<string, Json>, show: Json -> string): FindingRecord
  {
    FindingRecord(FieldIn(fields, "severity", show), FieldIn(fields, "description", show),
                  FieldIn(fields, "location", show))
  }

  /** A finding as the review stores it. */
  function Stored(f: Finding): map<string, Json>
  {
    map["severity" := JStr(f.severity), "description" := JStr(f.description), "location" := JStr(f.location)]
  }

  /** A stored finding reads back as it was. */
  lemma FindingSurvives(f: Finding, show: Json -> string)
    ensures FromRecord(RecordIn(Stored(f), show)) == f
  {
    assert "severity"[0] != "description"[0] && "severity"[0] != "location"[0] && "description"[0] != "location"[0];
  }
}
