/**
  `generateStructuredFileTree` of src/Composer.jsx: the selected instance's
  boilerplate paths become a folder/file tree, folders reused by name, and
  the React templates receive a fixed set of conventional entries.

  The source builds the tree by pushing into folder objects it holds
  references to. Here a tree is a value and `AddAt` rebuilds the spine from
  the root down to the folder being filled. Looking a folder up again by name
  from the root reaches the same folder the source's reference points to:
  lookup returns the first folder with that name, and folders are only ever
  appended, never inserted in front of or removed.
*/
module FileTreeBuilder {
  import opened Wrappers
  import opened Text
  import opened Config

  datatype Node = Folder(name: string, children: seq<Node>) | File(name: string, content: string)

  predicate IsFolderNamed(n: Node, name: string) {
    n.Folder? && n.name == name
  }

  predicate AllFiles(ns: seq<Node>) {
    forall i :: 0 <= i < |ns| ==> ns[i].File?
  }

  /**
    `children.find(child => child.name === part && child.type === 'folder')`,
    as the index of the first folder child with that name.
  */
  function FindFolder(children: seq<Node>, name: string): (r: Option<nat>)
    ensures r.Some? ==> r.value < |children| && IsFolderNamed(children[r.value], name)
    ensures r.Some? ==> forall j :: 0 <= j < r.value ==> !IsFolderNamed(children[j], name)
    ensures r.None? ==> forall j :: 0 <= j < |children| ==> !IsFolderNamed(children[j], name)
  {
    if |children| == 0 then None
    else if IsFolderNamed(children[0], name) then Some(0)
    else match FindFolder(children[1..], name)
      case None => None
      case Some(k) => Some(k + 1)
  }

  /**
    `findOrCreateFolder(root, path)` followed by pushing `leaf` onto the
    children of the folder it returns: empty segments are skipped, an
    existing folder of the segment's name is entered, otherwise a new empty
    folder is appended and entered.
  */
  function AddAt(children: seq<Node>, path: seq<string>, leaf: seq<Node>): (r: seq<Node>)
    ensures |r| >= |children|
    ensures forall j :: 0 <= j < |children| ==> r[j].name == children[j].name && r[j].Folder? == children[j].Folder?
    ensures forall j :: 0 <= j < |children| && children[j].File? ==> r[j] == children[j]
    decreases |path|
  {
    if |path| == 0 then children + leaf
    else if path[0] == "" then AddAt(children, path[1..], leaf)
    else match FindFolder(children, path[0])
      case Some(i) => children[i := Folder(path[0], AddAt(children[i].children, path[1..], leaf))]
      case None => children + [Folder(path[0], AddAt([], path[1..], leaf))]
  }

  /** The children of the folder reached by following `path` by name, if every step exists. */
  function FolderAt(children: seq<Node>, path: seq<string>): Option<seq<Node>>
    decreases |path|
  {
    if |path| == 0 then Some(children)
    else if path[0] == "" then FolderAt(children, path[1..])
    else match FindFolder(children, path[0])
      case Some(i) => FolderAt(children[i].children, path[1..])
      case None => None
  }

  // ---------------------------------------------------------------------------
  // The tree for one instance

  /** Folder part and file name of a boilerplate path: `split('/')`, then `pop()`. */
  function FolderPath(path: string): seq<string> {
    var parts := Split(path, '/');
    parts[..|parts| - 1]
  }

  function FileName(path: string): string {
    var parts := Split(path, '/');
    parts[|parts| - 1]
  }

  /** One iteration of the boilerplate loop. */
  function InsertEntry(children: seq<Node>, entry: (string, string)): seq<Node> {
    AddAt(children, FolderPath(entry.0), [File(FileName(entry.0), entry.1)])
  }

  /** The boilerplate loop over `entries`, in order. */
  function InsertAll(children: seq<Node>, entries: seq<(string, string)>): seq<Node> {
    if |entries| == 0 then children
    else InsertEntry(InsertAll(children, entries[..|entries| - 1]), entries[|entries| - 1])
  }

  predicate IsReact(id: string) {
    id == "react" || id == "netlify-react"
  }

  function AppFileName(c: Config): string {
    if c.language == "typescript" then "App.tsx" else "App.jsx"
  }

  function MainFileName(c: Config): string {
    if c.language == "typescript" then "main.ts" else "main.js"
  }

  function TestFileName(c: Config): string {
    if c.testingFramework == "jest" then "App.test.js" else "App.spec.js"
  }

  function AppContent(c: Config): string {
    "import React from 'react';\n\nfunction App() { return <h1>Hello, " + c.projectName + "!</h1>; }"
  }

  const MainContent: string :=
    "import React from 'react';\nimport ReactDOM from 'react-dom/client';\nimport App from './App';\n\n"
    + "ReactDOM.createRoot(document.getElementById('root')).render(<React.StrictMode><App /></React.StrictMode>);"

  const IndexHtml: string :=
    "<!DOCTYPE html>\n<html lang=\"en\">\n<body>\n<div id=\"root\"></div>\n</body>\n</html>"

  const TestContent: string :=
    "import { render, screen } from '@testing-library/react';\nimport App from '../src/App';\n\n"
    + "test('renders hello message', () => {\n  render(<App />);\n  expect(screen.getByText(/hello/i)).toBeInTheDocument();\n});"

  /** One `findOrCreateFolder` + `push` of the React block: the folder path and the files pushed. */
  datatype Step = Step(path: seq<string>, leaf: seq<Node>)

  /** The steps in order, each on the tree the previous ones produced. */
  function ApplySteps(children: seq<Node>, steps: seq<Step>): seq<Node> {
    if |steps| == 0 then children
    else
      var last := steps[|steps| - 1];
      AddAt(ApplySteps(children, steps[..|steps| - 1]), last.path, last.leaf)
  }

  /**
    The conventional React entries, in the order the source adds them: the
    `src` folder and its four sub-folders, `App` and `main` in `src`,
    `public/index.html`, a root README and, with a testing framework, one test.
  */
  function ReactSteps(c: Config): seq<Step> {
    StepsWith(
      File(AppFileName(c), AppContent(c)),
      File(MainFileName(c), MainContent),
      File("index.html", IndexHtml),
      File("README.md", "# " + c.projectName),
      if c.testingFramework != "none" then Some(File(TestFileName(c), TestContent)) else None)
  }

  /** The shape of the React block, for any five files it pushes. */
  function StepsWith(app: Node, main: Node, index: Node, readme: Node, test: Option<Node>): seq<Step> {
    [ Step(["src"], []),
      Step(["src", "components"], []),
      Step(["src", "pages"], []),
      Step(["src", "hooks"], []),
      Step(["src", "utils"], []),
      Step(["src"], [app]),
      Step(["src"], [main]),
      Step(["public"], [index]),
      Step([], [readme]) ]
    + (if test.Some? then [Step(["tests"], [test.value])] else [])
  }

  function ReactExtras(children: seq<Node>, c: Config): seq<Node> {
    ApplySteps(children, ReactSteps(c))
  }

  /** The children of the project root for an instance. */
  function StructuredFileTree(p: Instance): seq<Node> {
    var base := InsertAll([], p.template.boilerplate);
    if IsReact(p.template.id) then ReactExtras(base, p.config) else base
  }

  /**
    `generateStructuredFileTree(project)`: no project gives no tree; otherwise
    the boilerplate loop, then the React entries, and only the root's
    children are returned. The tree never holds two sibling folders of the
    same name.
  */
  method GenerateStructuredFileTree(project: Option<Instance>) returns (tree: seq<Node>)
    ensures project.None? ==> tree == []
    ensures project.Some? ==> tree == StructuredFileTree(project.value)
    ensures WellFormed(tree)
  {
    if project.None? {
      return [];
    }
    var p := project.value;
    var boilerplate := p.template.boilerplate;
    var children: seq<Node> := [];
    var i := 0;
    while i < |boilerplate|
      invariant 0 <= i <= |boilerplate|
      invariant children == InsertAll([], boilerplate[..i])
    {
      var (filePath, content) := boilerplate[i];
      var parts := Split(filePath, '/');
      var fileName := parts[|parts| - 1];
      var folderPath := parts[..|parts| - 1];
      children := AddAt(children, folderPath, [File(fileName, content)]);
      assert boilerplate[..i + 1][..i] == boilerplate[..i];
      i := i + 1;
    }
    assert boilerplate[..i] == boilerplate;
    if IsReact(p.template.id) {
      children := ReactExtras(children, p.config);
    }
    tree := children;
    TreeWellFormed(p);
  }

  // ---------------------------------------------------------------------------
  // Shape of a tree

  predicate DistinctFolders(ns: seq<Node>) {
    forall i, j :: 0 <= i < j < |ns| && ns[i].Folder? && ns[j].Folder? ==> ns[i].name != ns[j].name
  }

  /** No folder, at any depth, has two sub-folders of the same name. */
  predicate WellFormed(ns: seq<Node>)
    decreases ns
  {
    && DistinctFolders(ns)
    && forall i :: 0 <= i < |ns| && ns[i].Folder? ==> WellFormed(ns[i].children)
  }

  function CountFiles(ns: seq<Node>): nat
    decreases ns
  {
    if |ns| == 0 then 0
    else (if ns[0].File? then 1 else CountFiles(ns[0].children)) + CountFiles(ns[1..])
  }

  // ---------------------------------------------------------------------------
  // Lookup facts

  /** Two child lists that agree on which positions hold a folder of `name` give the same lookup. */
  lemma FindFolderAgrees(a: seq<Node>, b: seq<Node>, name: string)
    requires |a| <= |b|
    requires forall j :: 0 <= j < |a| ==> IsFolderNamed(a[j], name) == IsFolderNamed(b[j], name)
    requires forall j :: |a| <= j < |b| ==> !IsFolderNamed(b[j], name)
    ensures FindFolder(b, name) == FindFolder(a, name)
  {
    var ra := FindFolder(a, name);
    if ra.Some? {
      assert IsFolderNamed(b[ra.value], name);
    }
  }

  /** Looking a path up in an empty list finds nothing, or the empty list itself. */
  lemma {:induction false} FolderAtEmpty(path: seq<string>)
    ensures FolderAt([], path).GetOr([]) == []
    decreases |path|
  {
    if |path| > 0 {
      FolderAtEmpty(path[1..]);
    }
  }

  /**
    What `AddAt` does, seen through a lookup of the same path: the folder at
    the path exists afterwards, and its children are its previous children
    (none if it did not exist) followed by `leaf`.
  */
  lemma {:induction false} AddAtPlaces(children: seq<Node>, path: seq<string>, leaf: seq<Node>)
    ensures FolderAt(AddAt(children, path, leaf), path) == Some(FolderAt(children, path).GetOr([]) + leaf)
    decreases |path|
  {
    if |path| == 0 {
    } else if path[0] == "" {
      AddAtPlaces(children, path[1..], leaf);
    } else {
      var r := AddAt(children, path, leaf);
      match FindFolder(children, path[0])
      case Some(i) =>
        FindFolderAgrees(children, r, path[0]);
        AddAtPlaces(children[i].children, path[1..], leaf);
      case None =>
        assert IsFolderNamed(r[|children|], path[0]);
        assert forall j :: 0 <= j < |children| ==> r[j] == children[j];
        assert FindFolder(r, path[0]) == Some(|children|);
        AddAtPlaces([], path[1..], leaf);
        FolderAtEmpty(path[1..]);
    }
  }

  /** `AddAt` skips empty path segments: it acts as on the path without them. */
  function NonEmpty(path: seq<string>): (r: seq<string>)
    ensures "" !in r
  {
    if |path| == 0 then []
    else if path[0] == "" then NonEmpty(path[1..])
    else [path[0]] + NonEmpty(path[1..])
  }

  lemma {:induction false} SkipsEmptySegments(children: seq<Node>, path: seq<string>, leaf: seq<Node>)
    ensures AddAt(children, path, leaf) == AddAt(children, NonEmpty(path), leaf)
    ensures FolderAt(children, path) == FolderAt(children, NonEmpty(path))
    decreases |path|
  {
    if |path| > 0 {
      SkipsEmptySegments(children, path[1..], leaf);
      if path[0] != "" {
        var q := NonEmpty(path);
        assert q[0] == path[0] && q[1..] == NonEmpty(path[1..]);
        match FindFolder(children, path[0])
        case Some(i) =>
          SkipsEmptySegments(children[i].children, path[1..], leaf);
        case None =>
          SkipsEmptySegments([], path[1..], leaf);
      }
    }
  }

  /**
    Adding under one top-level folder leaves the lookup of every path that
    starts with a different top-level name unchanged.
  */
  lemma AddAtFrame(children: seq<Node>, p: seq<string>, q: seq<string>, leaf: seq<Node>)
    requires AllFiles(leaf)
    requires |q| > 0 && q[0] != ""
    requires |p| == 0 || (p[0] != "" && p[0] != q[0])
    ensures FolderAt(AddAt(children, p, leaf), q) == FolderAt(children, q)
  {
    var r := AddAt(children, p, leaf);
    assert forall j :: 0 <= j < |children| && r[j] != children[j] ==> r[j].Folder? && r[j].name == p[0];
    assert forall j :: |children| <= j < |r| ==> !IsFolderNamed(r[j], q[0]);
    FindFolderAgrees(children, r, q[0]);
  }

  /** Adding never makes an existing folder path disappear. */
  lemma {:induction false} AddAtKeepsFolders(children: seq<Node>, p: seq<string>, q: seq<string>, leaf: seq<Node>)
    requires AllFiles(leaf)
    requires "" !in p && "" !in q
    requires FolderAt(children, q).Some?
    ensures FolderAt(AddAt(children, p, leaf), q).Some?
    decreases |p|
  {
    var r := AddAt(children, p, leaf);
    if |q| == 0 {
    } else if |p| == 0 || p[0] != q[0] {
      AddAtFrame(children, p, q, leaf);
    } else {
      var i := FindFolder(children, q[0]).value;
      FindFolderAgrees(children, r, q[0]);
      assert r[i] == Folder(p[0], AddAt(children[i].children, p[1..], leaf));
      AddAtKeepsFolders(children[i].children, p[1..], q[1..], leaf);
    }
  }

  /** `ys` starts like `xs`, except that folders may have changed: every file of `xs` is still at its place. */
  predicate FilesKept(xs: seq<Node>, ys: seq<Node>) {
    |xs| <= |ys| && forall j :: 0 <= j < |xs| && xs[j].File? ==> ys[j] == xs[j]
  }

  /** A folder found in `a` is found at the same place in any extension of `a`. */
  lemma FindFolderPrefix(a: seq<Node>, b: seq<Node>, name: string)
    requires FindFolder(a, name).Some?
    ensures FindFolder(a + b, name) == FindFolder(a, name)
  {
    var k := FindFolder(a, name).value;
    assert IsFolderNamed((a + b)[k], name);
    assert forall j :: 0 <= j < k ==> (a + b)[j] == a[j];
  }

  /**
    Files are only ever appended: adding anywhere leaves every existing folder
    in place, and every file already in it where it was.
  */
  lemma {:induction false} AddAtKeepsFiles(children: seq<Node>, p: seq<string>, q: seq<string>, leaf: seq<Node>)
    requires AllFiles(leaf)
    requires "" !in p && "" !in q
    requires FolderAt(children, q).Some?
    ensures FolderAt(AddAt(children, p, leaf), q).Some?
    ensures FilesKept(FolderAt(children, q).value, FolderAt(AddAt(children, p, leaf), q).value)
    decreases |p|
  {
    var r := AddAt(children, p, leaf);
    if |q| == 0 {
    } else if |p| == 0 {
      FindFolderPrefix(children, leaf, q[0]);
    } else {
      match FindFolder(children, p[0])
      case Some(i) =>
        FindFolderAgrees(children, r, q[0]);
        var k := FindFolder(children, q[0]).value;
        if k == i {
          assert r[i] == Folder(p[0], AddAt(children[i].children, p[1..], leaf));
          AddAtKeepsFiles(children[i].children, p[1..], q[1..], leaf);
        } else {
          assert r[k] == children[k];
        }
      case None =>
        assert r == children + [Folder(p[0], AddAt([], p[1..], leaf))];
        FindFolderPrefix(children, [Folder(p[0], AddAt([], p[1..], leaf))], q[0]);
    }
  }

  // ---------------------------------------------------------------------------
  // Sibling folders stay distinct; every entry adds one file

  /**
    `findOrCreateFolder` never creates a second sibling folder of an existing
    name, so building from a well-formed list keeps it well-formed.
  */
  lemma {:induction false} AddAtWellFormed(children: seq<Node>, path: seq<string>, leaf: seq<Node>)
    requires WellFormed(children) && AllFiles(leaf)
    ensures WellFormed(AddAt(children, path, leaf))
    decreases |path|
  {
    var r := AddAt(children, path, leaf);
    if |path| == 0 {
      assert forall i :: |children| <= i < |r| ==> r[i] == leaf[i - |children|];
    } else if path[0] == "" {
      AddAtWellFormed(children, path[1..], leaf);
    } else {
      match FindFolder(children, path[0])
      case Some(i) =>
        AddAtWellFormed(children[i].children, path[1..], leaf);
        assert forall j :: 0 <= j < |r| && j != i ==> r[j] == children[j];
      case None =>
        AddAtWellFormed([], path[1..], leaf);
        assert forall j :: 0 <= j < |children| ==> r[j] == children[j];
    }
  }

  lemma {:induction false} CountAppend(a: seq<Node>, b: seq<Node>)
    ensures CountFiles(a + b) == CountFiles(a) + CountFiles(b)
  {
    if |a| == 0 {
      assert a + b == b;
    } else {
      assert (a + b)[0] == a[0];
      assert (a + b)[1..] == a[1..] + b;
      CountAppend(a[1..], b);
    }
  }

  lemma CountReplace(ns: seq<Node>, i: nat, x: Node)
    requires i < |ns|
    ensures CountFiles(ns[i := x]) + CountFiles([ns[i]]) == CountFiles(ns) + CountFiles([x])
  {
    assert ns == ns[..i] + [ns[i]] + ns[i + 1..];
    assert ns[i := x] == ns[..i] + [x] + ns[i + 1..];
    CountAppend(ns[..i] + [ns[i]], ns[i + 1..]);
    CountAppend(ns[..i], [ns[i]]);
    CountAppend(ns[..i] + [x], ns[i + 1..]);
    CountAppend(ns[..i], [x]);
  }

  /** Files are appended and never merged: `AddAt` adds exactly the files of `leaf`. */
  lemma {:induction false} AddAtCount(children: seq<Node>, path: seq<string>, leaf: seq<Node>)
    ensures CountFiles(AddAt(children, path, leaf)) == CountFiles(children) + CountFiles(leaf)
    decreases |path|
  {
    if |path| == 0 {
      CountAppend(children, leaf);
    } else if path[0] == "" {
      AddAtCount(children, path[1..], leaf);
    } else {
      match FindFolder(children, path[0])
      case Some(i) =>
        var inner := AddAt(children[i].children, path[1..], leaf);
        AddAtCount(children[i].children, path[1..], leaf);
        CountReplace(children, i, Folder(path[0], inner));
      case None =>
        AddAtCount([], path[1..], leaf);
        CountAppend(children, [Folder(path[0], AddAt([], path[1..], leaf))]);
    }
  }

  /**
    The boilerplate loop adds one file per entry, duplicates included, and
    keeps sibling folder names distinct.
  */
  lemma {:induction false} BoilerplateTree(entries: seq<(string, string)>)
    ensures CountFiles(InsertAll([], entries)) == |entries|
    ensures WellFormed(InsertAll([], entries))
  {
    if |entries| > 0 {
      var prev := InsertAll([], entries[..|entries| - 1]);
      var e := entries[|entries| - 1];
      BoilerplateTree(entries[..|entries| - 1]);
      AddAtCount(prev, FolderPath(e.0), [File(FileName(e.0), e.1)]);
      AddAtWellFormed(prev, FolderPath(e.0), [File(FileName(e.0), e.1)]);
    }
  }

  /** Each boilerplate entry lands, as a file named by its last segment, in the folder its path names. */
  lemma EntryPlaced(children: seq<Node>, entry: (string, string))
    ensures FolderAt(InsertEntry(children, entry), FolderPath(entry.0))
         == Some(FolderAt(children, FolderPath(entry.0)).GetOr([]) + [File(FileName(entry.0), entry.1)])
    ensures Join(FolderPath(entry.0) + [FileName(entry.0)], "/") == entry.0
  {
    AddAtPlaces(children, FolderPath(entry.0), [File(FileName(entry.0), entry.1)]);
    var parts := Split(entry.0, '/');
    assert FolderPath(entry.0) + [FileName(entry.0)] == parts;
  }

  // ---------------------------------------------------------------------------
  // The React entries

  /** Applying one more step extends a prefix of the steps. */
  lemma StepsPrefix(children: seq<Node>, steps: seq<Step>, k: nat)
    requires k < |steps|
    ensures ApplySteps(children, steps[..k + 1]) == AddAt(ApplySteps(children, steps[..k]), steps[k].path, steps[k].leaf)
  {
    assert steps[..k + 1][..k] == steps[..k];
  }

  /** Steps can be applied in two batches. */
  lemma {:induction false} StepsSplit(children: seq<Node>, a: seq<Step>, b: seq<Step>)
    ensures ApplySteps(children, a + b) == ApplySteps(ApplySteps(children, a), b)
  {
    if |b| == 0 {
      assert a + b == a;
    } else {
      assert (a + b)[..|a + b| - 1] == a + b[..|b| - 1];
      StepsSplit(children, a, b[..|b| - 1]);
    }
  }

  predicate FileSteps(steps: seq<Step>) {
    forall k :: 0 <= k < |steps| ==> AllFiles(steps[k].leaf) && "" !in steps[k].path
  }

  function StepFiles(steps: seq<Step>): nat {
    if |steps| == 0 then 0 else StepFiles(steps[..|steps| - 1]) + |steps[|steps| - 1].leaf|
  }

  lemma {:induction false} CountAllFiles(ns: seq<Node>)
    requires AllFiles(ns)
    ensures CountFiles(ns) == |ns|
  {
    if |ns| > 0 {
      CountAllFiles(ns[1..]);
    }
  }

  /** Applying steps adds exactly their files and keeps sibling folder names distinct. */
  lemma {:induction false} StepsCountAndShape(children: seq<Node>, steps: seq<Step>)
    requires FileSteps(steps)
    ensures CountFiles(ApplySteps(children, steps)) == CountFiles(children) + StepFiles(steps)
    ensures WellFormed(children) ==> WellFormed(ApplySteps(children, steps))
  {
    if |steps| > 0 {
      var init := steps[..|steps| - 1];
      var last := steps[|steps| - 1];
      StepsCountAndShape(children, init);
      AddAtCount(ApplySteps(children, init), last.path, last.leaf);
      CountAllFiles(last.leaf);
      if WellFormed(children) {
        AddAtWellFormed(ApplySteps(children, init), last.path, last.leaf);
      }
    }
  }

  /** Folder paths that exist stay reachable through any further steps. */
  lemma {:induction false} StepsKeepFolders(children: seq<Node>, steps: seq<Step>, q: seq<string>)
    requires FileSteps(steps) && "" !in q
    requires FolderAt(children, q).Some?
    ensures FolderAt(ApplySteps(children, steps), q).Some?
  {
    if |steps| > 0 {
      var init := steps[..|steps| - 1];
      var last := steps[|steps| - 1];
      StepsKeepFolders(children, init, q);
      AddAtKeepsFolders(ApplySteps(children, init), last.path, q, last.leaf);
    }
  }

  /** Through any further steps, every file of an existing folder stays where it was. */
  lemma {:induction false} StepsKeepFolderFiles(children: seq<Node>, steps: seq<Step>, q: seq<string>)
    requires FileSteps(steps) && "" !in q
    requires FolderAt(children, q).Some?
    ensures FolderAt(ApplySteps(children, steps), q).Some?
    ensures FilesKept(FolderAt(children, q).value, FolderAt(ApplySteps(children, steps), q).value)
  {
    if |steps| > 0 {
      var init := steps[..|steps| - 1];
      var last := steps[|steps| - 1];
      StepsKeepFolderFiles(children, init, q);
      AddAtKeepsFiles(ApplySteps(children, init), last.path, q, last.leaf);
    }
  }

  /** Steps that all work outside the top-level folder `q[0]` leave the lookup of `q` unchanged. */
  lemma {:induction false} StepsFrame(children: seq<Node>, steps: seq<Step>, q: seq<string>)
    requires FileSteps(steps)
    requires |q| > 0 && q[0] != ""
    requires forall k :: 0 <= k < |steps| ==> |steps[k].path| == 0 || steps[k].path[0] != q[0]
    ensures FolderAt(ApplySteps(children, steps), q) == FolderAt(children, q)
  {
    if |steps| > 0 {
      var init := steps[..|steps| - 1];
      var last := steps[|steps| - 1];
      StepsFrame(children, init, q);
      AddAtFrame(ApplySteps(children, init), last.path, q, last.leaf);
    }
  }

  /** Top-level files stay in place through any further steps. */
  lemma {:induction false} StepsKeepFiles(children: seq<Node>, steps: seq<Step>, j: nat)
    requires j < |children| && children[j].File?
    ensures j < |ApplySteps(children, steps)| && ApplySteps(children, steps)[j] == children[j]
  {
    if |steps| > 0 {
      StepsKeepFiles(children, steps[..|steps| - 1], j);
    }
  }

  /** A step's folder exists after it and after every later step. */
  lemma StepMakesFolder(children: seq<Node>, steps: seq<Step>, n: nat)
    requires FileSteps(steps) && n < |steps|
    ensures FolderAt(ApplySteps(children, steps), steps[n].path).Some?
  {
    StepsPrefix(children, steps, n);
    AddAtPlaces(ApplySteps(children, steps[..n]), steps[n].path, steps[n].leaf);
    StepsSplit(children, steps[..n + 1], steps[n + 1..]);
    assert steps[..n + 1] + steps[n + 1..] == steps;
    StepsKeepFolders(ApplySteps(children, steps[..n + 1]), steps[n + 1..], steps[n].path);
  }

  /**
    A step's files end the children of its folder as long as no later step
    works under the same top-level folder.
  */
  lemma StepFilesLast(children: seq<Node>, steps: seq<Step>, n: nat)
    requires FileSteps(steps) && n < |steps|
    requires |steps[n].path| > 0
    requires forall k :: n < k < |steps| ==> |steps[k].path| == 0 || steps[k].path[0] != steps[n].path[0]
    ensures FolderAt(ApplySteps(children, steps), steps[n].path)
         == Some(FolderAt(ApplySteps(children, steps[..n]), steps[n].path).GetOr([]) + steps[n].leaf)
  {
    var q := steps[n].path;
    var rest := steps[n + 1..];
    assert q[0] != "";
    assert FileSteps(rest) && forall k :: 0 <= k < |rest| ==> |rest[k].path| == 0 || rest[k].path[0] != q[0] by {
      assert forall k :: 0 <= k < |rest| ==> rest[k] == steps[n + 1 + k];
    }
    var mid := ApplySteps(children, steps[..n + 1]);
    assert FolderAt(mid, q) == Some(FolderAt(ApplySteps(children, steps[..n]), q).GetOr([]) + steps[n].leaf) by {
      StepsPrefix(children, steps, n);
      AddAtPlaces(ApplySteps(children, steps[..n]), q, steps[n].leaf);
    }
    StepsSplit(children, steps[..n + 1], rest);
    assert steps[..n + 1] + rest == steps;
    StepsFrame(mid, rest, q);
  }

  lemma StepFilesSnoc(steps: seq<Step>, k: nat)
    requires k < |steps|
    ensures StepFiles(steps[..k + 1]) == StepFiles(steps[..k]) + |steps[k].leaf|
  {
    assert steps[..k + 1][..k] == steps[..k];
  }

  /** The React steps add files only: four of them, five with a testing framework. */
  predicate FilesOnly(app: Node, main: Node, index: Node, readme: Node, test: Option<Node>) {
    app.File? && main.File? && index.File? && readme.File? && (test.Some? ==> test.value.File?)
  }

  /** The steps add files only: four of them, five with a test. */
  lemma StepsWithShape(app: Node, main: Node, index: Node, readme: Node, test: Option<Node>)
    requires FilesOnly(app, main, index, readme, test)
    ensures FileSteps(StepsWith(app, main, index, readme, test))
    ensures StepFiles(StepsWith(app, main, index, readme, test)) == if test.None? then 4 else 5
  {
    var st := StepsWith(app, main, index, readme, test);
    var n := |st|;
    StepFilesSnoc(st, 0);
    StepFilesSnoc(st, 1);
    StepFilesSnoc(st, 2);
    StepFilesSnoc(st, 3);
    StepFilesSnoc(st, 4);
    StepFilesSnoc(st, 5);
    StepFilesSnoc(st, 6);
    StepFilesSnoc(st, 7);
    StepFilesSnoc(st, 8);
    if n == 10 {
      StepFilesSnoc(st, 9);
    }
    assert st[..n] == st;
  }

  /** Step list facts the React lemmas rely on, for any list that has them. */
  predicate ReactLayout(st: seq<Step>, app: Node, main: Node, index: Node, readme: Node, test: Option<Node>) {
    && FileSteps(st)
    && |st| == (if test.Some? then 10 else 9)
    && st[0].path == ["src"]
    && st[1].path == ["src", "components"]
    && st[2].path == ["src", "pages"]
    && st[3].path == ["src", "hooks"]
    && st[4].path == ["src", "utils"]
    && st[5] == Step(["src"], [app])
    && st[6] == Step(["src"], [main])
    && st[7] == Step(["public"], [index])
    && st[8] == Step([], [readme])
    && (test.Some? ==> st[9] == Step(["tests"], [test.value]))
  }

  lemma StepsWithLayout(app: Node, main: Node, index: Node, readme: Node, test: Option<Node>)
    requires FilesOnly(app, main, index, readme, test)
    ensures ReactLayout(StepsWith(app, main, index, readme, test), app, main, index, readme, test)
  {
    StepsWithShape(app, main, index, readme, test);
  }

  /** The four `src` sub-folders exist afterwards. */
  lemma LayoutSubfolders(children: seq<Node>, st: seq<Step>, app: Node, main: Node, index: Node, readme: Node, test: Option<Node>)
    requires ReactLayout(st, app, main, index, readme, test)
    ensures FolderAt(ApplySteps(children, st), ["src", "components"]).Some?
    ensures FolderAt(ApplySteps(children, st), ["src", "pages"]).Some?
    ensures FolderAt(ApplySteps(children, st), ["src", "hooks"]).Some?
    ensures FolderAt(ApplySteps(children, st), ["src", "utils"]).Some?
  {
    StepMakesFolder(children, st, 1);
    StepMakesFolder(children, st, 2);
    StepMakesFolder(children, st, 3);
    StepMakesFolder(children, st, 4);
  }

  /** `src` ends with `app` then `main`. */
  lemma LayoutSrcFiles(children: seq<Node>, st: seq<Step>, app: Node, main: Node, index: Node, readme: Node, test: Option<Node>)
    requires ReactLayout(st, app, main, index, readme, test)
    ensures FolderAt(ApplySteps(children, st), ["src"])
         == Some(FolderAt(ApplySteps(children, st[..5]), ["src"]).GetOr([]) + [app, main])
  {
    var st6 := st[..6];
    var x := FolderAt(ApplySteps(children, st[..5]), ["src"]).GetOr([]);
    assert FolderAt(ApplySteps(children, st6), ["src"]) == Some(x + [app]) by {
      assert FileSteps(st6) && st6[..5] == st[..5] && st6[5] == st[5];
      StepFilesLast(children, st6, 5);
    }
    assert forall k :: 6 < k < |st| ==> |st[k].path| == 0 || st[k].path[0] != "src";
    StepFilesLast(children, st, 6);
    assert x + [app] + [main] == x + [app, main];
  }

  /** `public` ends with `index`. */
  lemma LayoutPublic(children: seq<Node>, st: seq<Step>, app: Node, main: Node, index: Node, readme: Node, test: Option<Node>)
    requires ReactLayout(st, app, main, index, readme, test)
    ensures FolderAt(ApplySteps(children, st), ["public"])
         == Some(FolderAt(ApplySteps(children, st[..7]), ["public"]).GetOr([]) + [index])
  {
    assert forall k :: 7 < k < |st| ==> |st[k].path| == 0 || st[k].path[0] != "public";
    StepFilesLast(children, st, 7);
  }

  /** The root holds `readme`. */
  lemma LayoutReadme(children: seq<Node>, st: seq<Step>, app: Node, main: Node, index: Node, readme: Node, test: Option<Node>)
    requires ReactLayout(st, app, main, index, readme, test)
    ensures readme in ApplySteps(children, st)
  {
    var s8 := ApplySteps(children, st[..8]);
    var s9 := ApplySteps(children, st[..9]);
    StepsPrefix(children, st, 8);
    assert s9[|s8|] == readme;
    StepsSplit(children, st[..9], st[9..]);
    assert st[..9] + st[9..] == st;
    StepsKeepFiles(s9, st[9..], |s8|);
  }

  /** A `tests` folder ending with the test is added exactly when there is one. */
  lemma LayoutTests(children: seq<Node>, st: seq<Step>, app: Node, main: Node, index: Node, readme: Node, test: Option<Node>)
    requires ReactLayout(st, app, main, index, readme, test)
    ensures test.None? ==> FolderAt(ApplySteps(children, st), ["tests"]) == FolderAt(children, ["tests"])
    ensures test.Some? ==>
              FolderAt(ApplySteps(children, st), ["tests"])
              == Some(FolderAt(ApplySteps(children, st[..9]), ["tests"]).GetOr([]) + [test.value])
  {
    if test.Some? {
      assert st[9].path == ["tests"] && st[9].leaf == [test.value];
      StepFilesLast(children, st, 9);
    } else {
      assert forall k :: 0 <= k < |st| ==> |st[k].path| == 0 || st[k].path[0] != "tests";
      StepsFrame(children, st, ["tests"]);
    }
  }

  /**
    The React entries: the four `src` sub-folders exist afterwards, and `src`
    ends with the `App` and `main` files whose extensions follow the language.
  */
  lemma ReactExtrasSrc(children: seq<Node>, c: Config)
    ensures var r := ReactExtras(children, c);
      && FolderAt(r, ["src", "components"]).Some?
      && FolderAt(r, ["src", "pages"]).Some?
      && FolderAt(r, ["src", "hooks"]).Some?
      && FolderAt(r, ["src", "utils"]).Some?
      && FolderAt(r, ["src"]).Some?
      && var src := FolderAt(r, ["src"]).value;
      && |src| >= 2
      && src[|src| - 2] == File(AppFileName(c), AppContent(c))
      && src[|src| - 1] == File(MainFileName(c), MainContent)
  {
    var app := File(AppFileName(c), AppContent(c));
    var main := File(MainFileName(c), MainContent);
    var index := File("index.html", IndexHtml);
    var readme := File("README.md", "# " + c.projectName);
    var test := if c.testingFramework != "none" then Some(File(TestFileName(c), TestContent)) else None;
    StepsWithLayout(app, main, index, readme, test);
    LayoutSubfolders(children, ReactSteps(c), app, main, index, readme, test);
    LayoutSrcFiles(children, ReactSteps(c), app, main, index, readme, test);
  }

  /**
    The React entries: `public` ends with `index.html`, the root holds the
    README, and a `tests` folder ending with `App.test.js` (jest) or
    `App.spec.js` (any other framework) is added exactly when the framework
    is not `none`; with `none` the `tests` lookup is whatever the boilerplate left.
  */
  lemma ReactExtrasRoot(children: seq<Node>, c: Config)
    ensures var r := ReactExtras(children, c);
      && FolderAt(r, ["public"]).Some?
      && var pub := FolderAt(r, ["public"]).value;
      && |pub| >= 1 && pub[|pub| - 1] == File("index.html", IndexHtml)
      && File("README.md", "# " + c.projectName) in r
      && (c.testingFramework == "none" ==> FolderAt(r, ["tests"]) == FolderAt(children, ["tests"]))
      && (c.testingFramework != "none" ==>
            && FolderAt(r, ["tests"]).Some?
            && var tests := FolderAt(r, ["tests"]).value;
            && |tests| >= 1 && tests[|tests| - 1] == File(TestFileName(c), TestContent))
  {
    var app := File(AppFileName(c), AppContent(c));
    var main := File(MainFileName(c), MainContent);
    var index := File("index.html", IndexHtml);
    var readme := File("README.md", "# " + c.projectName);
    var test := if c.testingFramework != "none" then Some(File(TestFileName(c), TestContent)) else None;
    StepsWithLayout(app, main, index, readme, test);
    LayoutPublic(children, ReactSteps(c), app, main, index, readme, test);
    LayoutReadme(children, ReactSteps(c), app, main, index, readme, test);
    LayoutTests(children, ReactSteps(c), app, main, index, readme, test);
  }

  /** The React entries add four files, five with a testing framework. */
  lemma ReactExtrasCount(children: seq<Node>, c: Config)
    ensures CountFiles(ReactExtras(children, c)) == CountFiles(children) + (if c.testingFramework == "none" then 4 else 5)
    ensures WellFormed(children) ==> WellFormed(ReactExtras(children, c))
  {
    StepsWithShape(
      File(AppFileName(c), AppContent(c)),
      File(MainFileName(c), MainContent),
      File("index.html", IndexHtml),
      File("README.md", "# " + c.projectName),
      if c.testingFramework != "none" then Some(File(TestFileName(c), TestContent)) else None);
    StepsCountAndShape(children, ReactSteps(c));
  }

  /** The whole tree keeps sibling folder names distinct. */
  lemma TreeWellFormed(p: Instance)
    ensures WellFormed(StructuredFileTree(p))
  {
    BoilerplateTree(p.template.boilerplate);
    ReactExtrasCount(InsertAll([], p.template.boilerplate), p.config);
  }

  /** For a template other than the two React ones, the tree has exactly one file per boilerplate entry. */
  lemma PlainTreeFileCount(p: Instance)
    requires !IsReact(p.template.id)
    ensures CountFiles(StructuredFileTree(p)) == |p.template.boilerplate|
  {
    BoilerplateTree(p.template.boilerplate);
  }
}
