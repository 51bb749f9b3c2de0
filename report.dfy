/**
  The report of src/Composer.jsx: `getNextSteps`, `mapToCSDM` and the text
  `generateArchitecture` hands to the message box.
*/
module Report {
  import opened Wrappers
  import opened Text
  import opened Config

  // ---------------------------------------------------------------------------
  // Next steps

  /** `projectName || 'my-project'` */
  function DefaultName(projectName: string): string {
    if projectName == "" then "my-project" else projectName
  }

  const Fallback: string := "Consult the framework's documentation for next steps."

  const FirebaseIds: set<string> := {"react-firebase", "mobile-firebase", "serverless-firebase"}

  /** The template ids the `switch` of `getNextSteps` has a case for. */
  predicate HasEntry(frameworkId: string) {
    || frameworkId in {"react", "vue", "angular", "svelte", "express", "django"}
    || frameworkId in {"docker", "terraform", "postgresql", "mongodb"}
    || frameworkId in FirebaseIds
  }

  /** An entry whose first line is `1. cd <name>`. */
  function CdFirst(name: string, rest: string): string {
    "1. cd " + name + rest
  }

  /** The entry the three Firebase templates share; it ends by changing into the project. */
  function FirebaseSteps(name: string): string {
    "1. Make sure you have Firebase CLI installed.\n2. In your project, run 'npm install firebase'.\n"
    + "3. In your code, import and initialize Firebase services:\n\n```javascript\n"
    + "import { initializeApp } from \"firebase/app\";\nimport { getFirestore } from \"firebase/firestore\";\n"
    + "import { getAuth } from \"firebase/auth\";\n\nconst firebaseConfig = { ... }; // Your config\n\n"
    + "const app = initializeApp(firebaseConfig);\nconst db = getFirestore(app);\nconst auth = getAuth(app);\n```\n\n"
    + "4. For web apps, run:\n   cd " + name + "\n   npm start"
  }

  lemma CdFirstContainsCd(name: string, rest: string)
    ensures Contains(CdFirst(name, rest), "cd " + name)
  {
    ContainsSelf(CdFirst(name, rest), "cd " + name, "1. ", rest);
  }

  lemma FirebaseContainsCd(name: string)
    ensures Contains(FirebaseSteps(name), "cd " + name)
  {
    var s := FirebaseSteps(name);
    var tail := "\n   npm start";
    var head := s[..|s| - |tail| - |name| - 3];
    assert s == head + ("cd " + name) + tail;
    ContainsSelf(s, "cd " + name, head, tail);
  }

  /** The two shapes an entry of the table takes. */
  datatype Instructions =
    | CdThen(rest: string)   // `1. cd <name>` followed by `rest`
    | FirebaseSetup          // the shared Firebase text

  /** The `switch (frameworkId)` of `getNextSteps`; `None` is its `default`. */
  function TableEntry(frameworkId: string): Option<Instructions> {
    if frameworkId == "react" then Some(CdThen("\n2. npm install\n3. npm start"))
    else if frameworkId == "vue" then Some(CdThen("\n2. npm install\n3. npm run dev"))
    else if frameworkId == "angular" then Some(CdThen("\n2. npm install\n3. ng serve"))
    else if frameworkId == "svelte" then Some(CdThen("\n2. npm install\n3. npm run dev"))
    else if frameworkId == "express" then Some(CdThen("\n2. npm install\n3. npm run dev"))
    else if frameworkId == "django" then Some(CdThen("\n2. pip install -r requirements.txt\n3. python manage.py runserver"))
    else if frameworkId == "docker" then Some(CdThen("\n2. docker-compose up --build"))
    else if frameworkId == "terraform" then Some(CdThen("\n2. terraform init\n3. terraform apply"))
    else if frameworkId == "postgresql" then Some(CdThen("\n2. docker-compose up -d\n3. psql -U user -d db_name"))
    else if frameworkId == "mongodb" then Some(CdThen("\n2. mongosh --file ./scripts/seed-data.js"))
    else if frameworkId in FirebaseIds then Some(FirebaseSetup)
    else None
  }

  /** The table has an entry for exactly the listed ids, and the Firebase ids share theirs. */
  lemma TableEntryDomain(frameworkId: string)
    ensures TableEntry(frameworkId).Some? <==> HasEntry(frameworkId)
    ensures frameworkId in FirebaseIds <==> TableEntry(frameworkId) == Some(FirebaseSetup)
  {
  }

  function InstructionsText(i: Instructions, name: string): (r: string)
    ensures Contains(r, "cd " + name)
  {
    match i
    case CdThen(rest) =>
      CdFirstContainsCd(name, rest);
      CdFirst(name, rest)
    case FirebaseSetup =>
      FirebaseContainsCd(name);
      FirebaseSteps(name)
  }

  /**
    `getNextSteps(frameworkId, projectName)`: an exact-match table on the
    template id. Every entry changes into the project directory, named by the
    project name or `my-project` when that is empty; an id without an entry
    gets the fixed fallback text.
  */
  function GetNextSteps(frameworkId: string, projectName: string): (r: string)
    ensures HasEntry(frameworkId) ==> Contains(r, "cd " + DefaultName(projectName))
    ensures !HasEntry(frameworkId) ==> r == Fallback
    ensures frameworkId in FirebaseIds ==> r == FirebaseSteps(DefaultName(projectName))
  {
    TableEntryDomain(frameworkId);
    match TableEntry(frameworkId)
    case None => Fallback
    case Some(i) => InstructionsText(i, DefaultName(projectName))
  }

  /** An empty project name and `my-project` give the same instructions. */
  lemma NextStepsDefaultName(frameworkId: string)
    ensures GetNextSteps(frameworkId, "") == GetNextSteps(frameworkId, "my-project")
  {
  }

  /** `vue`, `svelte` and `express` share their instructions; so do the three Firebase templates. */
  lemma NextStepsSharedEntries(projectName: string)
    ensures GetNextSteps("vue", projectName) == GetNextSteps("svelte", projectName) == GetNextSteps("express", projectName)
    ensures GetNextSteps("react-firebase", projectName) == GetNextSteps("mobile-firebase", projectName)
         == GetNextSteps("serverless-firebase", projectName)
  {
    var dev := Some(CdThen("\n2. npm install\n3. npm run dev"));
    assert TableEntry("vue") == dev;
    assert TableEntry("svelte") == dev;
    assert TableEntry("express") == dev;
  }

  // ---------------------------------------------------------------------------
  // The CSDM export

  /** The flat record `mapToCSDM` builds, field by field. */
  datatype CsdmRecord = CsdmRecord(
    productModel: string,
    valueStream: string,
    businessProcess: string,
    businessCapability: string,
    informationObject: string,
    serviceOffering: string,
    technologyService: string)

  /** The property name each configuration key is exported under. */
  function ExportKey(f: CsdmField): string {
    match f
    case ProductModel => "product_model"
    case ValueStream => "value_stream"
    case BusinessProcess => "business_process"
    case BusinessCapability => "business_capability"
    case InformationObject => "information_object"
    case ServiceOffering => "service_offering"
  }

  /** Reading an exported record by property name. */
  function Lookup(r: CsdmRecord, key: string): Option<string> {
    if key == "product_model" then Some(r.productModel)
    else if key == "value_stream" then Some(r.valueStream)
    else if key == "business_process" then Some(r.businessProcess)
    else if key == "business_capability" then Some(r.businessCapability)
    else if key == "information_object" then Some(r.informationObject)
    else if key == "service_offering" then Some(r.serviceOffering)
    else if key == "technology_service" then Some(r.technologyService)
    else None
  }

  /** The configuration group a record was exported from. */
  function Imported(r: CsdmRecord): Csdm {
    Csdm(r.valueStream, r.businessCapability, r.businessProcess, r.productModel, r.serviceOffering, r.informationObject)
  }

  /**
    `mapToCSDM(project)`: each of the six `csdm` keys under its snake-case
    name, and the template's display name as `technology_service`. The group
    can be read back from the record unchanged.
  */
  function MapToCsdm(p: Instance): (r: CsdmRecord)
    ensures forall f :: Lookup(r, ExportKey(f)) == Some(GetCsdm(p.config.csdm, f))
    ensures Lookup(r, "technology_service") == Some(p.template.name)
    ensures Imported(r) == p.config.csdm
  {
    var c := p.config.csdm;
    CsdmRecord(c.productModel, c.valueStream, c.businessProcess, c.businessCapability,
      c.informationObject, c.serviceOffering, p.template.name)
  }

  /** The six export names are distinct and none of them is `technology_service`. */
  lemma ExportKeysDistinct(f: CsdmField, g: CsdmField)
    ensures ExportKey(f) == ExportKey(g) <==> f == g
    ensures ExportKey(f) != "technology_service"
  {
  }

  // ---------------------------------------------------------------------------
  // Summary blocks

  /** `projectName || 'Unnamed Project'` */
  function DisplayName(projectName: string): string {
    if projectName == "" then "Unnamed Project" else projectName
  }

  function BlockHeader(p: Instance): string {
    "Project: " + DisplayName(p.config.projectName) + " (" + p.template.name + ")\n"
  }

  /** Everything a block holds before the CSDM section: the plan, empathy map, TOGAF lines and developer options. */
  function BlockBody(p: Instance): string {
    var c := p.config;
    var m := c.empathyMap;
    var g := c.governance;
    "Purpose: " + c.purpose + "\nImpact: " + c.impact + "\nFirst Step: " + c.firstStep + "\n"
    + "\nEmpathy Map:\n  - Sees: " + m.sees + "\n  - Hears: " + m.hears
    + "\n  - Thinks & Feels: " + m.thinksFeels + "\n  - Says & Does: " + m.saysDoes + "\n"
    + "\nTOGAF Metamodel:\n  - Business: " + g.business + "\n  - Data: " + g.data
    + "\n  - Application: " + g.application + "\n"
    + DeveloperOptions(c) + "\n"
  }

  /** The developer-options text, trailing indentation of the template literal included. */
  function DeveloperOptions(c: Config): string {
    "\nDeveloper Options:\n  - Language: " + c.language + "\n  - Testing Framework: " + c.testingFramework + "\n      "
  }

  /** The CSDM lines, present only in CSDM mode; the process and information-object keys are not listed. */
  function CsdmSection(c: Config, csdmEnabled: bool): string {
    if csdmEnabled then
      "\nCSDM Data Model:\n  - Value Stream: " + c.csdm.valueStream
      + "\n  - Business Capability: " + c.csdm.businessCapability
      + "\n  - Service Offering: " + c.csdm.serviceOffering
      + "\n  - Product Model: " + c.csdm.productModel + "\n"
    else ""
  }

  const BlockEnd: string := "\n---\n"

  /**
    One instance's summary block: it opens with the `Project:` line naming the
    project (or `Unnamed Project`) and the template, and closes with `---`.
  */
  function SummaryBlock(p: Instance, csdmEnabled: bool): (r: string)
    ensures StartsWith(r, BlockHeader(p))
    ensures EndsWith(r, BlockEnd)
  {
    var r := BlockHeader(p) + BlockBody(p) + CsdmSection(p.config, csdmEnabled) + BlockEnd;
    assert r[..|BlockHeader(p)|] == BlockHeader(p);
    assert r[|r| - |BlockEnd|..] == BlockEnd;
    r
  }

  /**
    CSDM mode only inserts its section before the closing line: the block
    with the mode on is the block with the mode off, cut before `---`, then
    the CSDM lines, then the same closing line.
  */
  lemma CsdmModeInsertsSection(p: Instance)
    ensures var off := SummaryBlock(p, false);
      && |off| >= |BlockEnd|
      && SummaryBlock(p, true) == off[..|off| - |BlockEnd|] + CsdmSection(p.config, true) + BlockEnd
    ensures Contains(SummaryBlock(p, true), CsdmSection(p.config, true))
    ensures |SummaryBlock(p, true)| > |SummaryBlock(p, false)|
  {
    var off := SummaryBlock(p, false);
    var front := BlockHeader(p) + BlockBody(p);
    var section := CsdmSection(p.config, true);
    assert off == front + BlockEnd;
    assert off[..|off| - |BlockEnd|] == front;
    ContainsSelf(SummaryBlock(p, true), section, front, BlockEnd);
  }

  // ---------------------------------------------------------------------------
  // The whole report

  /**
    What `generateArchitecture` passes to `showMessage`. `code` is the
    next-steps text; in CSDM mode the source appends the exported records to
    it as pretty-printed JSON, here kept as the list `csdmExport`.
  */
  datatype Message = Message(title: string, message: Option<string>, code: string, csdmExport: Option<seq<CsdmRecord>>)

  const EmptyWorkspaceTitle: string := "Please add at least one project to the workspace."

  const ReportTitle: string := "Architecture Generated! \U{1F389}"

  function Intro(integrationType: string): string {
    "Integration Type: " + integrationType + "\n\nHere is a summary of your project architecture:\n\n"
  }

  /** One next-steps entry: `For <template name> (<project name or Unnamed>):` and the instructions. */
  function NextStepsEntry(p: Instance): string {
    "For " + p.template.name + " (" + (if p.config.projectName == "" then "Unnamed" else p.config.projectName)
    + "):\n  " + GetNextSteps(p.template.id, p.config.projectName) + "\n"
  }

  function Blocks(ps: seq<Instance>, csdmEnabled: bool): (r: seq<string>)
    ensures |r| == |ps|
    ensures forall i :: 0 <= i < |ps| ==> r[i] == SummaryBlock(ps[i], csdmEnabled)
  {
    if |ps| == 0 then [] else [SummaryBlock(ps[0], csdmEnabled)] + Blocks(ps[1..], csdmEnabled)
  }

  function Entries(ps: seq<Instance>): (r: seq<string>)
    ensures |r| == |ps|
    ensures forall i :: 0 <= i < |ps| ==> r[i] == NextStepsEntry(ps[i])
  {
    if |ps| == 0 then [] else [NextStepsEntry(ps[0])] + Entries(ps[1..])
  }

  function Records(ps: seq<Instance>): (r: seq<CsdmRecord>)
    ensures |r| == |ps|
    ensures forall i :: 0 <= i < |ps| ==> r[i] == MapToCsdm(ps[i])
  {
    if |ps| == 0 then [] else [MapToCsdm(ps[0])] + Records(ps[1..])
  }

  /** A joined list is some text, then any one of its parts, then some text. */
  lemma {:induction false} JoinAround(parts: seq<string>, sep: string, i: nat) returns (before: string, after: string)
    requires i < |parts|
    ensures Join(parts, sep) == before + parts[i] + after
  {
    if |parts| == 1 {
      before, after := "", "";
    } else if i == 0 {
      before, after := "", sep + Join(parts[1..], sep);
    } else {
      var b, a := JoinAround(parts[1..], sep, i - 1);
      before, after := parts[0] + sep + b, a;
    }
  }

  lemma JoinContains(prefix: string, parts: seq<string>, sep: string, i: nat)
    requires i < |parts|
    ensures Contains(prefix + Join(parts, sep), parts[i])
  {
    var before, after := JoinAround(parts, sep, i);
    ContainsSelf(prefix + Join(parts, sep), parts[i], prefix + before, after);
  }

  lemma SummaryHoldsBlocks(prefix: string, ps: seq<Instance>, csdmEnabled: bool)
    ensures forall i :: 0 <= i < |ps| ==> Contains(prefix + Join(Blocks(ps, csdmEnabled), "\n"), SummaryBlock(ps[i], csdmEnabled))
  {
    forall i | 0 <= i < |ps|
      ensures Contains(prefix + Join(Blocks(ps, csdmEnabled), "\n"), SummaryBlock(ps[i], csdmEnabled))
    {
      JoinContains(prefix, Blocks(ps, csdmEnabled), "\n", i);
    }
  }

  lemma NextStepsHoldEntries(ps: seq<Instance>)
    ensures forall i :: 0 <= i < |ps| ==> Contains(Join(Entries(ps), "\n"), NextStepsEntry(ps[i]))
  {
    forall i | 0 <= i < |ps|
      ensures Contains(Join(Entries(ps), "\n"), NextStepsEntry(ps[i]))
    {
      JoinContains("", Entries(ps), "\n", i);
      assert "" + Join(Entries(ps), "\n") == Join(Entries(ps), "\n");
    }
  }

  /**
    `generateArchitecture()`: with an empty workspace only the reminder title
    and no summary; otherwise the summary joins one block per instance and the
    next-steps text one entry per instance, both in workspace order, and the
    CSDM export is there exactly in CSDM mode, one record per instance.
  */
  function GenerateArchitecture(ps: seq<Instance>, integrationType: string, csdmEnabled: bool): (m: Message)
    ensures |ps| == 0 ==> m == Message(EmptyWorkspaceTitle, None, "", None)
    ensures |ps| > 0 ==> m.title == ReportTitle && m.message.Some?
    ensures |ps| > 0 ==> StartsWith(m.message.value, Intro(integrationType))
    ensures |ps| > 0 ==>
      && m.message == Some(Intro(integrationType) + Join(Blocks(ps, csdmEnabled), "\n"))
      && m.code == Join(Entries(ps), "\n")
    ensures |ps| > 0 ==> forall i :: 0 <= i < |ps| ==>
      Contains(m.message.value, SummaryBlock(ps[i], csdmEnabled)) && Contains(m.code, NextStepsEntry(ps[i]))
    ensures m.csdmExport.Some? <==> |ps| > 0 && csdmEnabled
    ensures m.csdmExport.Some? ==>
              |m.csdmExport.value| == |ps| && forall i :: 0 <= i < |ps| ==> m.csdmExport.value[i] == MapToCsdm(ps[i])
  {
    if |ps| == 0 then Message(EmptyWorkspaceTitle, None, "", None)
    else
      var summary := Join(Blocks(ps, csdmEnabled), "\n");
      var nextSteps := Join(Entries(ps), "\n");
      SummaryHoldsBlocks(Intro(integrationType), ps, csdmEnabled);
      NextStepsHoldEntries(ps);
      assert (Intro(integrationType) + summary)[..|Intro(integrationType)|] == Intro(integrationType);
      Message(ReportTitle, Some(Intro(integrationType) + summary), nextSteps,
        if csdmEnabled then Some(Records(ps)) else None)
  }

  /**
    Every instance of a non-empty workspace is named in the report: its
    summary has the `Project: <name> (<template>)` line, and where the table
    has an entry for its template, the next steps change into its directory.
  */
  lemma ReportNamesProjects(ps: seq<Instance>, integrationType: string, csdmEnabled: bool, i: nat)
    requires i < |ps|
    ensures var m := GenerateArchitecture(ps, integrationType, csdmEnabled);
      var p := ps[i];
      && m.message.Some?
      && Contains(m.message.value, "Project: " + DisplayName(p.config.projectName) + " (" + p.template.name + ")")
      && (HasEntry(p.template.id) ==> Contains(m.code, "cd " + DefaultName(p.config.projectName)))
  {
    var m := GenerateArchitecture(ps, integrationType, csdmEnabled);
    var p := ps[i];
    var line := "Project: " + DisplayName(p.config.projectName) + " (" + p.template.name + ")";
    var header := BlockHeader(p);
    assert header == line + "\n";
    ContainsPrefix(SummaryBlock(p, csdmEnabled), header);
    ContainsTrans(m.message.value, SummaryBlock(p, csdmEnabled), header);
    ContainsSelf(header, line, "", "\n");
    ContainsTrans(m.message.value, header, line);
    if HasEntry(p.template.id) {
      var steps := GetNextSteps(p.template.id, p.config.projectName);
      var entry := NextStepsEntry(p);
      ContainsSelf(entry, steps, "For " + p.template.name + " (" + (if p.config.projectName == "" then "Unnamed" else p.config.projectName) + "):\n  ", "\n");
      ContainsTrans(m.code, entry, steps);
      ContainsTrans(m.code, steps, "cd " + DefaultName(p.config.projectName));
    }
  }
}
