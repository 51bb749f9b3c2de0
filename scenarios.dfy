/**
  Worked examples on the `react` entry of the catalog: a workspace built and
  edited through the store, the report generated from it, and the tree that
  the template's boilerplate and the React entries give.
*/
module Scenarios {
  import opened Wrappers
  import opened Text
  import opened Config
  import opened Workspace
  import opened Report
  import opened FileTreeBuilder
  import opened Catalog

  /** The content of the `src/App.jsx` boilerplate entry of the `react` template. */
  const FixtureApp: string := "import React from 'react';\n\nfunction App() { return <h1>Hello, React!</h1>; }"

  /** `split('/')` of a path made of one folder name and one file name. */
  lemma SplitFolderFile(dir: string, file: string)
    requires '/' !in dir && '/' !in file
    ensures FolderPath(dir + "/" + file) == [dir] && FileName(dir + "/" + file) == file
  {
    var s := dir + "/" + file;
    assert s[|dir|] == '/';
    assert IndexOf(s, '/') == |dir| by {
      assert s[..|dir|] == dir;
    }
    assert s[..|dir|] == dir && s[|dir| + 1..] == file;
  }

  /**
    The boilerplate loop on a root file followed by one file in a folder:
    the folder holds that file alone.
  */
  lemma RootFileThenFolderFile(f0: string, c0: string, dir: string, f1: string, c1: string)
    requires '/' !in f0 && '/' !in dir && '/' !in f1 && dir != ""
    ensures FolderAt(InsertAll([], [(f0, c0), (dir + "/" + f1, c1)]), [dir]) == Some([File(f1, c1)])
  {
    var bp := [(f0, c0), (dir + "/" + f1, c1)];
    assert Split(f0, '/') == [f0];
    SplitFolderFile(dir, f1);
    var b0 := InsertEntry([], bp[0]);
    assert b0 == [File(f0, c0)];
    assert bp[..1] == [bp[0]] && bp[..1][..0] == [] && bp[..|bp| - 1] == bp[..1];
    assert InsertAll([], bp[..1]) == InsertEntry(InsertAll([], []), bp[0]);
    assert InsertAll([], bp) == InsertEntry(b0, bp[1]);
    assert FolderAt(b0, [dir]) == None;
    EntryPlaced(b0, bp[1]);
    assert FolderPath(bp[1].0) == [dir] && FileName(bp[1].0) == f1;
    assert FolderAt(InsertEntry(b0, bp[1]), [dir]) == Some([] + [File(f1, c1)]);
    assert [] + [File(f1, c1)] == [File(f1, c1)];
    assert FolderAt(InsertAll([], bp), [dir]) == Some([File(f1, c1)]);
  }

  /** The boilerplate loop on the `react` template puts `App.jsx` alone in `src`. */
  lemma FixtureBoilerplate()
    ensures FolderAt(InsertAll([], ReactTemplate.boilerplate), ["src"]) == Some([File("App.jsx", FixtureApp)])
  {
    var bp := ReactTemplate.boilerplate;
    assert |bp| == 2 && bp[1].0 == "src" + "/" + "App.jsx" && bp[1].1 == FixtureApp;
    assert bp == [(bp[0].0, bp[0].1), ("src" + "/" + "App.jsx", FixtureApp)];
    assert '/' !in bp[0].0;
    RootFileThenFolderFile(bp[0].0, bp[0].1, "src", "App.jsx", FixtureApp);
  }

  /**
    The `react` template's own `src/App.jsx` and the `App.jsx` the React
    entries add are both in `src`: files are appended, never merged by name.
    The template's file stays first; the added one is next to last, before `main.js`.
  */
  lemma ReactFixtureKeepsBothApps(instanceId: int)
    ensures var p := NewInstance(ReactTemplate, instanceId);
      var src := FolderAt(StructuredFileTree(p), ["src"]);
      && src.Some?
      && |src.value| >= 2
      && src.value[0] == File("App.jsx", FixtureApp)
      && src.value[|src.value| - 2] == File("App.jsx", AppContent(p.config))
      && src.value[0] != src.value[|src.value| - 2]
  {
    var p := NewInstance(ReactTemplate, instanceId);
    var c := p.config;
    var base := InsertAll([], ReactTemplate.boilerplate);
    FixtureBoilerplate();
    assert StructuredFileTree(p) == ReactExtras(base, c);
    StepsWithShape(
      File(AppFileName(c), AppContent(c)), File(MainFileName(c), MainContent),
      File("index.html", IndexHtml), File("README.md", "# " + c.projectName), None);
    StepsKeepFolderFiles(base, ReactSteps(c), ["src"]);
    ReactExtrasSrc(base, c);
    assert |AppContent(c)| != |FixtureApp|;
  }

  /** The report on a workspace whose first instance is the `react` template named `demo`. */
  lemma DemoReportText(ps: seq<Instance>, integrationType: string)
    requires |ps| >= 1 && ps[0].config.projectName == "demo" && ps[0].template == ReactTemplate
    ensures var m := GenerateArchitecture(ps, integrationType, false);
      && m.message.Some?
      && Contains(m.message.value, "Project: demo (React.js)")
      && Contains(m.code, "cd demo")
  {
    assert "Project: " + DisplayName("demo") + " (" + ReactTemplate.name + ")" == "Project: demo (React.js)";
    assert "cd " + DefaultName("demo") == "cd demo";
    assert HasEntry(ps[0].template.id);
    ReportNamesProjects(ps, integrationType, false, 0);
  }

  /**
    Start empty, add the `react` template and name the project `demo`: the
    workspace holds that one instance, at 0% before the name is typed and
    at 25% after.
  */
  method DemoWorkspace(instanceId: int) returns (before: int, after: int, ps: seq<Instance>)
    ensures before == 0 && after == 25
    ensures |ps| == 1 && ps[0].config.projectName == "demo" && ps[0].template == ReactTemplate
  {
    var store := new WorkspaceStore();
    ghost var p0 := NewInstance(ReactTemplate, instanceId);
    store.AddProject(ReactTemplate, instanceId);
    assert store.projects == [p0] && store.selected == Some(p0);
    before := store.progress[instanceId];
    store.UpdateProjectConfig(SetText(ProjectName, "demo"));
    ghost var p1 := p0.(config := Apply(p0.config, SetText(ProjectName, "demo")));
    assert p1.config.projectName == "demo" && p1.config.purpose == "" && p1.config.impact == "" && p1.config.firstStep == "";
    assert store.projects == [p1];
    after := store.progress[instanceId];
    ps := store.projects;
  }

  /**
    The report on that workspace names the project and its template and
    changes into the project's directory.
  */
  method DemoReport(instanceId: int, integrationType: string) returns (m: Message)
    ensures m.message.Some? && Contains(m.message.value, "Project: demo (React.js)")
    ensures Contains(m.code, "cd demo")
  {
    var _, _, ps := DemoWorkspace(instanceId);
    m := GenerateArchitecture(ps, integrationType, false);
    DemoReportText(ps, integrationType);
  }

  /**
    In CSDM mode, a value stream typed into the selected instance comes out
    under `value_stream` in its exported record, beside the template's name
    as `technology_service`.
  */
  method CheckoutFlowExport(instanceId: int, integrationType: string) returns (m: Message)
    ensures m.csdmExport.Some? && |m.csdmExport.value| == 1
    ensures Lookup(m.csdmExport.value[0], "value_stream") == Some("Checkout flow")
    ensures Lookup(m.csdmExport.value[0], "technology_service") == Some("React.js")
  {
    var store := new WorkspaceStore();
    store.AddProject(ReactTemplate, instanceId);
    store.UpdateCsdmConfig(ValueStream, "Checkout flow");
    m := GenerateArchitecture(store.projects, integrationType, true);
    assert ExportKey(ValueStream) == "value_stream";
  }

  /**
    Editing an instance and then removing it leaves an empty workspace, no
    selection and no progress entry for its id.
  */
  method EditThenRemove(instanceId: int) returns (count: nat, selected: bool, tracked: bool)
    ensures count == 0 && !selected && !tracked
  {
    var store := new WorkspaceStore();
    store.AddProject(ReactTemplate, instanceId);
    store.UpdateProjectConfig(SetText(Purpose, "plan"));
    store.RemoveProject(instanceId);
    count := |store.projects|;
    selected := store.selected.Some?;
    tracked := instanceId in store.progress;
  }
}
