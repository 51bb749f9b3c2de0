/**
  The planning data attached to a project: catalog templates, the per-instance
  configuration with its three nested groups, the keyed edits the editor
  performs on it, and the derived progress percentage (src/Composer.jsx).
*/
module Config {

  /**
    A catalog entry. `boilerplate` is the template's path-to-content object,
    as the ordered list of its (relative path, content) entries.
  */
  datatype Template = Template(
    id: string,
    name: string,
    icon: string,
    structure: string,
    tip: string,
    boilerplate: seq<(string, string)>)

  datatype EmpathyMap = EmpathyMap(sees: string, hears: string, thinksFeels: string, saysDoes: string)

  datatype Governance = Governance(business: string, data: string, application: string)

  datatype Csdm = Csdm(
    valueStream: string,
    businessCapability: string,
    businessProcess: string,
    productModel: string,
    serviceOffering: string,
    informationObject: string)

  datatype Config = Config(
    projectName: string,
    purpose: string,
    impact: string,
    firstStep: string,
    empathyMap: EmpathyMap,
    governance: Governance,
    csdm: Csdm,
    language: string,
    testingFramework: string)

  /** A workspace entry: a copy of its template, its instance id and its configuration. */
  datatype Instance = Instance(template: Template, instanceId: int, config: Config)

  // ---------------------------------------------------------------------------
  // Keys of the configuration

  /** The keys of the configuration whose values are plain strings. */
  datatype TextField = ProjectName | Purpose | Impact | FirstStep | Language | TestingFramework

  datatype EmpathyField = Sees | Hears | ThinksFeels | SaysDoes

  datatype GovernanceField = Business | Data | Application

  datatype CsdmField =
    | ValueStream | BusinessCapability | BusinessProcess
    | ProductModel | ServiceOffering | InformationObject

  function GetText(c: Config, f: TextField): string {
    match f
    case ProjectName => c.projectName
    case Purpose => c.purpose
    case Impact => c.impact
    case FirstStep => c.firstStep
    case Language => c.language
    case TestingFramework => c.testingFramework
  }

  function GetEmpathy(m: EmpathyMap, f: EmpathyField): string {
    match f
    case Sees => m.sees
    case Hears => m.hears
    case ThinksFeels => m.thinksFeels
    case SaysDoes => m.saysDoes
  }

  function GetGovernance(g: Governance, f: GovernanceField): string {
    match f
    case Business => g.business
    case Data => g.data
    case Application => g.application
  }

  function GetCsdm(m: Csdm, f: CsdmField): string {
    match f
    case ValueStream => m.valueStream
    case BusinessCapability => m.businessCapability
    case BusinessProcess => m.businessProcess
    case ProductModel => m.productModel
    case ServiceOffering => m.serviceOffering
    case InformationObject => m.informationObject
  }

  // ---------------------------------------------------------------------------
  // A new instance

  /**
    The instance `addProjectToWorkspace` builds from a template: every text
    empty, every group empty, JavaScript and no testing framework.
  */
  function NewInstance(t: Template, instanceId: int): (p: Instance)
    ensures p.template == t && p.instanceId == instanceId
    ensures forall f :: f !in {Language, TestingFramework} ==> GetText(p.config, f) == ""
    ensures p.config.language == "javascript" && p.config.testingFramework == "none"
    ensures forall f :: GetEmpathy(p.config.empathyMap, f) == ""
    ensures forall f :: GetGovernance(p.config.governance, f) == ""
    ensures forall f :: GetCsdm(p.config.csdm, f) == ""
    ensures Progress(p.config) == 0
  {
    Instance(t, instanceId, Config(
      "", "", "", "",
      EmpathyMap("", "", "", ""),
      Governance("", "", ""),
      Csdm("", "", "", "", "", ""),
      "javascript", "none"))
  }

  // ---------------------------------------------------------------------------
  // Keyed edits

  /** `{ ...config, [f]: v }` for a string-valued key. */
  function WithText(c: Config, f: TextField, v: string): (r: Config)
    ensures GetText(r, f) == v
    ensures forall g :: g != f ==> GetText(r, g) == GetText(c, g)
    ensures r.empathyMap == c.empathyMap && r.governance == c.governance && r.csdm == c.csdm
  {
    match f
    case ProjectName => c.(projectName := v)
    case Purpose => c.(purpose := v)
    case Impact => c.(impact := v)
    case FirstStep => c.(firstStep := v)
    case Language => c.(language := v)
    case TestingFramework => c.(testingFramework := v)
  }

  /** `{ ...empathyMap, [f]: v }`: the merge the empathy-map inputs perform before updating. */
  function WithEmpathy(m: EmpathyMap, f: EmpathyField, v: string): (r: EmpathyMap)
    ensures GetEmpathy(r, f) == v
    ensures forall g :: g != f ==> GetEmpathy(r, g) == GetEmpathy(m, g)
  {
    match f
    case Sees => m.(sees := v)
    case Hears => m.(hears := v)
    case ThinksFeels => m.(thinksFeels := v)
    case SaysDoes => m.(saysDoes := v)
  }

  /** `{ ...governance, [f]: v }`: the merge the governance inputs perform before updating. */
  function WithGovernance(g: Governance, f: GovernanceField, v: string): (r: Governance)
    ensures GetGovernance(r, f) == v
    ensures forall h :: h != f ==> GetGovernance(r, h) == GetGovernance(g, h)
  {
    match f
    case Business => g.(business := v)
    case Data => g.(data := v)
    case Application => g.(application := v)
  }

  /** `{ ...csdm, [f]: v }`, the merge inside `updateCSDMConfig`. */
  function WithCsdm(m: Csdm, f: CsdmField, v: string): (r: Csdm)
    ensures GetCsdm(r, f) == v
    ensures forall g :: g != f ==> GetCsdm(r, g) == GetCsdm(m, g)
  {
    match f
    case ValueStream => m.(valueStream := v)
    case BusinessCapability => m.(businessCapability := v)
    case BusinessProcess => m.(businessProcess := v)
    case ProductModel => m.(productModel := v)
    case ServiceOffering => m.(serviceOffering := v)
    case InformationObject => m.(informationObject := v)
  }

  /**
    The `(key, value)` arguments the editor passes to `updateProjectConfig`:
    a string key with its text, or a whole replacement group.
  */
  datatype ConfigUpdate =
    | SetText(field: TextField, text: string)
    | SetEmpathyMap(empathyMap: EmpathyMap)
    | SetGovernance(governance: Governance)

  /** `{ ...config, [key]: value }`: one key of the configuration is replaced. */
  function Apply(c: Config, u: ConfigUpdate): (r: Config)
    ensures u.SetText? ==> r == WithText(c, u.field, u.text)
    ensures u.SetEmpathyMap? ==> r == c.(empathyMap := u.empathyMap)
    ensures u.SetGovernance? ==> r == c.(governance := u.governance)
    ensures r.csdm == c.csdm
  {
    match u
    case SetText(f, v) => WithText(c, f, v)
    case SetEmpathyMap(m) => c.(empathyMap := m)
    case SetGovernance(g) => c.(governance := g)
  }

  /** The update an empathy-map text area sends: the current group with one field replaced. */
  function EmpathyEdit(c: Config, f: EmpathyField, v: string): ConfigUpdate {
    SetEmpathyMap(WithEmpathy(c.empathyMap, f, v))
  }

  /** The update a governance text area sends: the current group with one field replaced. */
  function GovernanceEdit(c: Config, f: GovernanceField, v: string): ConfigUpdate {
    SetGovernance(WithGovernance(c.governance, f, v))
  }

  /**
    Merge law of the nested edits: editing one empathy-map field keeps the
    other three, and nothing else in the configuration changes.
  */
  lemma EmpathyEditKeepsSiblings(c: Config, f: EmpathyField, v: string)
    ensures var r := Apply(c, EmpathyEdit(c, f, v));
      && GetEmpathy(r.empathyMap, f) == v
      && (forall g :: g != f ==> GetEmpathy(r.empathyMap, g) == GetEmpathy(c.empathyMap, g))
      && (forall t :: GetText(r, t) == GetText(c, t))
      && r.governance == c.governance && r.csdm == c.csdm
  {
    var r := Apply(c, EmpathyEdit(c, f, v));
    forall t ensures GetText(r, t) == GetText(c, t) {
      assert r == c.(empathyMap := r.empathyMap);
    }
  }

  /**
    Merge law for the governance group: editing one field keeps the other two,
    and nothing else in the configuration changes.
  */
  lemma GovernanceEditKeepsSiblings(c: Config, f: GovernanceField, v: string)
    ensures var r := Apply(c, GovernanceEdit(c, f, v));
      && GetGovernance(r.governance, f) == v
      && (forall g :: g != f ==> GetGovernance(r.governance, g) == GetGovernance(c.governance, g))
      && (forall t :: GetText(r, t) == GetText(c, t))
      && r.empathyMap == c.empathyMap && r.csdm == c.csdm
  {
    var r := Apply(c, GovernanceEdit(c, f, v));
    forall t ensures GetText(r, t) == GetText(c, t) {
      assert r == c.(governance := r.governance);
    }
  }

  // ---------------------------------------------------------------------------
  // Progress

  /** The four fields whose completion the progress bar tracks. */
  predicate Tracked(f: TextField) {
    f in {ProjectName, Purpose, Impact, FirstStep}
  }

  /** JavaScript truthiness of a string: only the empty string is falsy. */
  function Filled(s: string): nat {
    if s == "" then 0 else 1
  }

  /** `[projectName, purpose, impact, firstStep].filter(Boolean).length` */
  function FilledCount(c: Config): nat {
    Filled(c.projectName) + Filled(c.purpose) + Filled(c.impact) + Filled(c.firstStep)
  }

  /**
    `(filledFields / 4) * 100`. The division is exact for every count from 0
    to 4, so the percentage is 25 per filled field and always one of five values.
  */
  function Progress(c: Config): (r: nat)
    ensures r * 4 == FilledCount(c) * 100
    ensures r in {0, 25, 50, 75, 100}
  {
    FilledCount(c) * 100 / 4
  }

  /**
    Filling a tracked field that was empty raises progress by exactly 25;
    filling any field never lowers it.
  */
  lemma ProgressFillsUp(c: Config, f: TextField, v: string)
    requires v != ""
    ensures Progress(WithText(c, f, v)) >= Progress(c)
    ensures Tracked(f) && GetText(c, f) == "" ==> Progress(WithText(c, f, v)) == Progress(c) + 25
  {
    var r := WithText(c, f, v);
    assert FilledCount(r) >= FilledCount(c) by {
      assert forall g :: g != f ==> GetText(r, g) == GetText(c, g);
    }
  }

  /** Progress depends on the four tracked fields only. */
  lemma ProgressIgnoresUntracked(c: Config, u: ConfigUpdate)
    requires u.SetText? ==> !Tracked(u.field)
    ensures Progress(Apply(c, u)) == Progress(c)
  {
    var r := Apply(c, u);
    assert forall g :: Tracked(g) ==> GetText(r, g) == GetText(c, g);
    assert r.projectName == GetText(r, ProjectName) && r.purpose == GetText(r, Purpose);
    assert r.impact == GetText(r, Impact) && r.firstStep == GetText(r, FirstStep);
  }

  /** Progress is 100 exactly when all four tracked fields are non-empty, and 0 exactly when all are empty. */
  lemma ProgressExtremes(c: Config)
    ensures Progress(c) == 100 <==> (forall f :: Tracked(f) ==> GetText(c, f) != "")
    ensures Progress(c) == 0 <==> (forall f :: Tracked(f) ==> GetText(c, f) == "")
  {
    assert GetText(c, ProjectName) == c.projectName && GetText(c, Purpose) == c.purpose;
    assert GetText(c, Impact) == c.impact && GetText(c, FirstStep) == c.firstStep;
  }
}
