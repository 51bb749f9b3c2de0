# Project Architecture Composer: a Dafny model of its workspace core

The composer is a React page. Users pick framework templates from a catalog
and add them to a workspace. Each instance gets a plan (name, purpose,
impact, first step, empathy map, TOGAF governance notes, CSDM fields,
language, testing framework), a progress percentage, a preview tree of its
starter files, and a generated architecture report. A small Python script
beside it turns a Firebase console snippet into `.env` variables.

This project models that core and proves properties about it:

- `config.dfy` (`Config`): templates, instances, the configuration and its
  three nested groups, the keyed edits (including the one-field merges the
  empathy-map and governance inputs do at their call sites), and the
  progress formula.
- `workspace.dfy` (`Workspace`): the workspace store as a class. Its fields
  are the ordered instance list, the optional selection and the progress map
  keyed by instance id. `Valid()` says ids are unique, the selection is an
  element of the workspace (so it is the one with its id), and the progress
  map holds exactly the workspace's ids, each with its instance's
  percentage.
  - The constructor establishes `Valid()`. `AddProject`, `CommitSelected`,
    `UpdateProjectConfig`, `UpdateCsdmConfig`, `RemoveProject`, `Select` and
    `ClearSelection` require it and keep it.
  - The edits and removal state their new list through the pure
    `ReplaceById` / `RemoveById`, which have lemmas of their own.
    `AddProject` states it as an append, and `Select` and `ClearSelection`
    change only the selection.
  - `UpdateProgress` is the internal step of `CommitSelected`: it sets one
    progress entry and promises nothing about `Valid()` on its own.
  - `Hydrate` (the load path) establishes `Valid()` from the mount state
    (empty progress map, no selection) when the loaded ids are distinct.
- `file_tree_builder.dfy` (`FileTreeBuilder`): `generateStructuredFileTree`
  with `findOrCreateFolder` and the React augmentation.
- `file_tree_view.dfy` (`FileTreeView`): `renderTree`'s path keys and
  collapse rule, and `toggleCollapse`.
- `report.dfy` (`Report`): `getNextSteps`, `mapToCSDM` and
  `generateArchitecture`.
- `catalog.dfy` (`Catalog`, `Navigation`): the search filter, the `react`
  catalog entry as a fixture, and the arrow-key index arithmetic.
- `firebase_env.dfy` (`FirebaseEnv`): project-type detection, prefix
  normalisation, a hand-written scanner for the two regular expressions,
  `.env` parsing, new-variable selection and the whole conversion.
- `scenarios.dfy` (`Scenarios`): worked examples on the `react` template.
- `text.dfy`, `wrappers.dfy`: string helpers and `Option`.

Inputs the source reads from outside are parameters:

- the instance id, which the source takes from `Date.now()`, with the
  precondition that it is not already in use;
- whether `vite.config.js` exists and the text of `package.json`;
- the pasted lines, the typed prefix and the lines of an existing `.env`.

Where the code and the design description disagree, the model follows the code:

- The React augmentation applies only when the template id is exactly
  `react` or `netlify-react`, not for any id containing `react`.
- The Firebase next-steps entry is shared by exactly `react-firebase`,
  `mobile-firebase` and `serverless-firebase`. It is not chosen by a
  `firebase` marker in the id.
- Progress is `(filled / 4) * 100`, which is exact for 0..4 filled fields.
  It is not rounded.
- `updateProjectConfig(key, value)` always targets the current selection.
  It has no instance-id parameter.
- The CSDM summary section lists four of the six CSDM fields: value stream,
  capability, offering and product model.

## Model

| member | source | states |
|---|---|---|
| Config.NewInstance | src/Composer.jsx:217-241 | a new instance carries its template and the given id; every text field and every nested field is empty; the language is `javascript` and the testing framework `none`; its progress is 0 |
| Config.Apply | src/Composer.jsx:248-256 | `{...config, [key]: value}`: the named key is replaced, every other text key and group is kept, and the CSDM group is never touched |
| Config.WithCsdm | src/Composer.jsx:266-277 | `{...csdm, [key]: value}`: the named CSDM field takes the value and the other five keep their previous values |
| Config.EmpathyEditKeepsSiblings | src/Composer.jsx:877-907 | an empathy-map input replaces its own field; the other three empathy fields, every text key, the governance group and the CSDM group keep their values |
| Config.GovernanceEditKeepsSiblings | src/Composer.jsx:921-941 | a governance input replaces its own field; the other two governance fields, every text key, the empathy map and the CSDM group keep their values |
| Config.Progress | src/Composer.jsx:287-290 | progress times 4 equals 100 times the number of non-empty tracked fields, so it is always one of 0, 25, 50, 75, 100 |
| Config.ProgressFillsUp | src/Composer.jsx:287-292 | making a field non-empty never lowers progress; filling an empty tracked field raises it by exactly 25 |
| Config.ProgressIgnoresUntracked | src/Composer.jsx:288-290 | edits to language, testing framework, empathy map or governance leave progress unchanged |
| Config.ProgressExtremes | src/Composer.jsx:288-290 | progress is 100 exactly when all four tracked fields are filled, and 0 exactly when all four are empty |
| Workspace.ReplaceById | src/Composer.jsx:258-260 | the `map` keeps length and order; entries with the updated id become the update and all others are unchanged |
| Workspace.RemoveById | src/Composer.jsx:314 | the `filter` keeps exactly the instances whose id differs, and the removed id is absent afterwards |
| Workspace.ReplaceKeepsIds | src/Composer.jsx:258-260 | replacing by id keeps the id set and id uniqueness, and the update is present afterwards |
| Workspace.RemoveKeepsOrder | src/Composer.jsx:314 | removal distributes over concatenation, so the survivors keep their relative order |
| Workspace.RemoveAbsentIsIdentity | src/Composer.jsx:313-324 | removing an id not in the workspace leaves it unchanged |
| Workspace.RemoveIdempotent | src/Composer.jsx:313-324 | removing the same id twice is the same as removing it once |
| Workspace.RemoveKeepsUnique | src/Composer.jsx:314 | removal keeps ids unique, and the new id set is the old one minus the removed id |
| Workspace.RecalculatedEntries | src/Composer.jsx:141-146 | the load loop's progress map has the previous keys plus the loaded ids; each loaded instance maps to its own percentage, and other keys keep their values |
| Workspace.AddKeepsConsistent | src/Composer.jsx:217-245 | appending a fresh instance, selecting it and giving it progress 0 preserves the store invariant |
| Workspace.CommitKeepsConsistent | src/Composer.jsx:257-262 | writing an updated copy of the selection back by id, selecting it and recomputing its progress preserves the store invariant |
| Workspace.RemoveKeepsConsistent | src/Composer.jsx:313-324 | removing an id from the list and the progress map, and clearing a selection with that id, preserves the store invariant |
| Workspace.WorkspaceStore.constructor | src/Composer.jsx:72-76 | the store starts valid, with an empty workspace, no selection and an empty progress map |
| Workspace.WorkspaceStore.AddProject | src/Composer.jsx:217-245 | the new default instance is appended at the end and earlier instances are unchanged; it becomes the selection; its progress is 0; the invariant holds |
| Workspace.WorkspaceStore.UpdateProgress | src/Composer.jsx:287-292 | only the instance's own progress entry is set, to its percentage |
| Workspace.WorkspaceStore.CommitSelected | src/Composer.jsx:257-262 | the updated copy becomes the selection and replaces its id's entries in the workspace, and its progress entry is recomputed |
| Workspace.WorkspaceStore.UpdateProjectConfig | src/Composer.jsx:248-263 | without a selection nothing changes; otherwise only the selected id's entries change, to the selection with one key replaced; the selection equals that entry and its progress is recomputed |
| Workspace.WorkspaceStore.UpdateCsdmConfig | src/Composer.jsx:266-284 | without a selection nothing changes; otherwise only `config.csdm[key]` of the selected instance changes and the other CSDM keys keep their values; the workspace entry and the selection stay equal |
| Workspace.WorkspaceStore.RemoveProject | src/Composer.jsx:313-324 | every instance with the id is removed and the others keep their order; the selection is cleared only when it had that id; the id's progress entry is deleted |
| Workspace.WorkspaceStore.Select | src/Composer.jsx:117-122 | Enter on a focused card selects that workspace entry, and the invariant holds |
| Workspace.WorkspaceStore.ClearSelection | src/Composer.jsx:97-102 | Escape with no message open clears the selection, and the invariant holds |
| Workspace.WorkspaceStore.Hydrate | src/Composer.jsx:136-146 | the parsed list becomes the workspace and the loop leaves the progress map equal to the recalculated map; from the mount state with distinct ids the store is valid afterwards |
| FileTreeBuilder.FindFolder | src/Composer.jsx:528 | the result is the first child that is a folder with that name, or none when no child is |
| FileTreeBuilder.AddAt | src/Composer.jsx:524-548 | existing children keep their names and kinds, existing files are untouched, and nothing is removed |
| FileTreeBuilder.FindFolderPrefix | src/Composer.jsx:528-531 | a folder already found is still the one found after more children are appended |
| FileTreeBuilder.AddAtPlaces | src/Composer.jsx:524-548 | after adding at a path, the folder at that path exists and holds its previous children (none if it was new) followed by the pushed nodes |
| FileTreeBuilder.SkipsEmptySegments | src/Composer.jsx:527 | empty path segments are skipped: adding and looking up act as on the path without them |
| FileTreeBuilder.AddAtFrame | src/Composer.jsx:528-533 | adding under one top-level name leaves the lookup of every path starting with another name unchanged |
| FileTreeBuilder.AddAtKeepsFolders | src/Composer.jsx:528-533 | adding never makes an existing folder path disappear |
| FileTreeBuilder.AddAtKeepsFiles | src/Composer.jsx:528-548 | adding anywhere keeps every existing folder, and every file already in it stays at its position |
| FileTreeBuilder.AddAtWellFormed | src/Composer.jsx:528-532 | `findOrCreateFolder` never creates two sibling folders of one name; a file and a folder may still share a name |
| FileTreeBuilder.AddAtCount | src/Composer.jsx:544-548 | adding puts exactly the pushed files into the tree; nothing is merged or de-duplicated |
| FileTreeBuilder.BoilerplateTree | src/Composer.jsx:539-549 | the boilerplate loop yields exactly one file per entry, duplicates included, with no two sibling folders of one name |
| FileTreeBuilder.EntryPlaced | src/Composer.jsx:539-549 | each entry puts a file named by its last path segment at the end of the folder its path names; that folder path and name join back to the original path |
| FileTreeBuilder.StepsKeepFolderFiles | src/Composer.jsx:560-579 | through the React steps, existing folders remain and the files in them keep their positions |
| FileTreeBuilder.ReactExtrasSrc | src/Composer.jsx:559-568 | `src/components`, `src/pages`, `src/hooks` and `src/utils` exist; `src` ends with `App.tsx`/`main.ts` for TypeScript, otherwise `App.jsx`/`main.js` |
| FileTreeBuilder.ReactExtrasRoot | src/Composer.jsx:570-580 | `public` ends with `index.html` and the root holds `README.md`; with framework `none` the `tests` lookup is what the boilerplate left; otherwise `tests` ends with `App.test.js` for jest and `App.spec.js` for any other value |
| FileTreeBuilder.ReactExtrasCount | src/Composer.jsx:552-580 | the React entries add four files, five when a testing framework is set, and keep sibling folder names distinct |
| FileTreeBuilder.TreeWellFormed | src/Composer.jsx:514-583 | no folder of the returned tree, at any depth, has two sub-folders of one name |
| FileTreeBuilder.PlainTreeFileCount | src/Composer.jsx:538-553 | for any id other than `react` and `netlify-react`, the tree holds exactly one file per boilerplate entry |
| FileTreeBuilder.GenerateStructuredFileTree | src/Composer.jsx:514-584 | no project gives an empty list; otherwise the loop's result is the root's children as the tree function defines them, and the result is well-formed |
| FileTreeView.KeyOf | src/FileTree.jsx:9 | a key is the parent path, `/`, then the name, and the name can be read back from it |
| FileTreeView.RenderTree | src/FileTree.jsx:7-28 | one row per item, in input order, keyed by its path; a folder is collapsed exactly when its map entry is `false`; a collapsed folder's children are not drawn, and an expanded folder's children are drawn under its path |
| FileTreeView.KeysUnder | src/FileTree.jsx:7-9 | every key drawn below a parent path starts with that path and `/`, so every key from the top starts with `/` |
| FileTreeView.SiblingKeys | src/FileTree.jsx:9 | two siblings get the same key exactly when they have the same name, whatever their kinds |
| FileTreeView.SameNameSharesCollapse | src/FileTree.jsx:9-10 | two same-named sibling folders read one collapse entry and are collapsed together |
| FileTreeView.VisibleAtMost | src/FileTree.jsx:24-28 | collapsing only hides: no more files are drawn than the tree holds |
| FileTreeView.NothingCollapsedShowsAll | src/FileTree.jsx:10 | a collapse map with no `false` entry draws every file of the tree |
| FileTreeView.ToggleCollapse | src/Composer.jsx:586-591 | the toggled key gets the negation of its entry, or `true` when it had none; every other entry is unchanged |
| FileTreeView.ToggleLeavesOthers | src/Composer.jsx:586-591 | a toggle changes the collapse reading of its own key only |
| FileTreeView.ToggleFlipsSetEntry | src/Composer.jsx:586-591 | once a key has an entry, each toggle flips it between collapsed and expanded, and two toggles restore the map |
| FileTreeView.FirstToggleShowsNoChange | src/Composer.jsx:589 | an untouched folder reads as expanded, and after its first toggle it still does |
| FileTreeView.TogglesFromUntouched | src/Composer.jsx:586-591 | after n ≥ 1 toggles from an absent entry, the stored value is `true` for odd n, and the folder is collapsed exactly when n is even |
| FileTreeView.ToggleCollapseFixed | src/Composer.jsx:586-591 | the corrected toggle stores the opposite of what is drawn and leaves other entries alone |
| FileTreeView.ToggleFixedFlips | src/Composer.jsx:586-591 | with the corrected toggle every click flips what is drawn, including the first, and no other key changes |
| FileTreeView.TogglesFixedFromUntouched | src/Composer.jsx:586-591 | with the corrected toggle, n clicks on an untouched folder leave it collapsed exactly when n is odd |
| Report.TableEntryDomain | src/Composer.jsx:438-476 | the switch has a case for exactly the listed ids, and the three Firebase ids are exactly the ones that share the Firebase entry |
| Report.GetNextSteps | src/Composer.jsx:434-478 | every table entry contains `cd <name>`, where the name is the project name or `my-project`; an id without an entry gets the fixed fallback text; the three Firebase ids get the Firebase text |
| Report.NextStepsDefaultName | src/Composer.jsx:435 | an empty project name gives the same instructions as `my-project` |
| Report.NextStepsSharedEntries | src/Composer.jsx:442-453 | `vue`, `svelte` and `express` give the same instructions, and so do the three Firebase ids |
| Report.MapToCsdm | src/Composer.jsx:327-344 | each CSDM key is read back under its snake-case export name; `technology_service` is the template's name; the CSDM group can be rebuilt from the record |
| Report.ExportKeysDistinct | src/Composer.jsx:331-341 | the six export names are pairwise distinct and none is `technology_service` |
| Report.SummaryBlock | src/Composer.jsx:377-408 | a block starts with `Project: <name or Unnamed Project> (<template name>)` and ends with the `---` line |
| Report.CsdmModeInsertsSection | src/Composer.jsx:380-386 | the block in CSDM mode is the block without it, cut before the closing `---` line, then the CSDM section, then the same closing line; so it contains the section and is strictly longer |
| Report.GenerateArchitecture | src/Composer.jsx:371-422 | an empty workspace gives only the add-a-project title, with no summary, code or export; otherwise the summary is the integration line followed by exactly one block per instance, in workspace order, joined by newlines, and the next steps are exactly one entry per instance, in order, joined the same way; so each block and entry occurs in the text; the CSDM export exists exactly in CSDM mode, with one record per instance in order |
| Report.ReportNamesProjects | src/Composer.jsx:394-415 | every instance's `Project:` line is in the summary; for a template the table knows, its `cd <name>` line is in the next steps |
| Catalog.FilterTemplates | src/Composer.jsx:601-604 | the result holds exactly the templates whose name or tip contains the term, ignoring ASCII case, and is no longer than the input |
| Catalog.FilterCatalog | src/Composer.jsx:600-606 | every category is kept in its place under its name, holding its filtered templates |
| Catalog.FilterKeepsOrder | src/Composer.jsx:601 | filtering a concatenation filters each part, so catalog order is kept |
| Catalog.EmptyTermKeepsAll | src/Composer.jsx:601-604 | an empty search term keeps every template |
| Catalog.FilterIdempotent | src/Composer.jsx:601-604 | filtering twice with the same term is the same as filtering once |
| Catalog.TermCaseIgnored | src/Composer.jsx:602-603 | two terms equal up to ASCII case select the same templates |
| Navigation.Next | src/Composer.jsx:111-112 | the next index stays in range and wraps from the last card to the first |
| Navigation.Prev | src/Composer.jsx:114-115 | the previous index stays in range and wraps from the first card to the last |
| Navigation.NextPrevInverse | src/Composer.jsx:111-116 | forward then back, or back then forward, returns to the same card |
| Navigation.NextTimesBelowEnd | src/Composer.jsx:111-112 | before the last card, k presses forward move exactly k cards |
| Navigation.FullCycle | src/Composer.jsx:111-112 | as many presses forward as there are cards return to the starting card |
| FirebaseEnv.DetectProjectType | firebase_config_converter.py:4-18 | the checks run in order and the first that holds wins: Vite config → `VITE_`; `"react-scripts"` in package.json → `REACT_APP_`; `"nuxt"` → `NUXT_`; anything else → `CUSTOM_` |
| FirebaseEnv.DetectedPrefixes | firebase_config_converter.py:9-18 | a detected prefix is one of the four, and each ends with `_` |
| FirebaseEnv.NormalizePrefix | firebase_config_converter.py:56-60 | the chosen prefix is the stripped answer if non-empty, else the detected one; the result always ends with `_`, and `_` is appended only when missing |
| FirebaseEnv.NormalizeTypedIdempotent | firebase_config_converter.py:56-60 | typing back a normalised prefix keeps it as it is |
| FirebaseEnv.ReadSnippet | firebase_config_converter.py:38-48 | the input is every line followed by a newline, and it strips to empty exactly when every line is whitespace |
| FirebaseEnv.ConfigAt | firebase_config_converter.py:66-73 | a captured config body is non-empty, holds no `}`, and occurs in the input between `{` and `};` |
| FirebaseEnv.ConfigFound | firebase_config_converter.py:66-73 | on `const firebaseConfig = {` + body + `};` with a non-empty, brace-free body, the search returns that body unchanged |
| FirebaseEnv.PairAt | firebase_config_converter.py:76 | a pair matched at a position has a `\w+` key and a quoted or all-digit value, and the match consumes at least one character |
| FirebaseEnv.FindAll | firebase_config_converter.py:76-77 | every extracted key is a `\w+` run and every value is a double-quoted string (quotes kept) or a digit run |
| FirebaseEnv.ExtractRendered | firebase_config_converter.py:76-77 | extracting from printed pairs gives back the same pairs in the same order, duplicates included |
| FirebaseEnv.SnippetExtracted | firebase_config_converter.py:66-77 | for the snippet the Firebase console prints, the search finds the body and extraction returns the printed pairs in order |
| FirebaseEnv.EnvEntry | firebase_config_converter.py:91-93 | only lines holding `=` give an entry; the key has no `=`, and key, `=` and value rebuild the stripped line, so values may contain `=` |
| FirebaseEnv.ReadEnv | firebase_config_converter.py:87-93 | the loop's dictionary equals the one the lines define |
| FirebaseEnv.EnvMapKeys | firebase_config_converter.py:88-93 | a key is in the dictionary exactly when some line defines it |
| FirebaseEnv.EnvMapLastWins | firebase_config_converter.py:90-93 | the value kept for a key is the one from the last line that defines it |
| FirebaseEnv.EnvName | firebase_config_converter.py:97 | the variable name is the prefix followed by the key upper-cased character by character |
| FirebaseEnv.NewEnvVars | firebase_config_converter.py:95-99 | the loop's list equals the new-variable list the pairs, prefix and existing keys define |
| FirebaseEnv.NewVarsMembership | firebase_config_converter.py:95-99 | an assignment is emitted exactly for a pair whose variable name is not already in the file |
| FirebaseEnv.NewVarsEmpty | firebase_config_converter.py:95-103 | nothing is emitted exactly when every variable already exists |
| FirebaseEnv.NewVarsAllNew | firebase_config_converter.py:95-99 | with no variable defined yet, every pair is emitted in order, and repeated keys are not de-duplicated |
| FirebaseEnv.CreateEnvFileFromFirebaseConfig | firebase_config_converter.py:20-117 | it stops on blank input, on no config match, on no pairs, or on no new variables, each exactly when that case holds; otherwise it appends a blank line, the header, then the new variables in order |
| Text.Split | src/Composer.jsx:540 | `split` on one character gives at least one piece, no piece holds the separator, and joining the pieces with it rebuilds the string |
| Text.Strip | firebase_config_converter.py:56 | the result is empty exactly when the input is all whitespace, otherwise it neither starts nor ends with whitespace, and it holds only input characters |
| Text.StripIsMiddle | firebase_config_converter.py:56 | the result of stripping is the contiguous middle `s[i..j]` of the input, with only whitespace before `i` and after `j` |
| Scenarios.ReactFixtureKeepsBothApps | src/Composer.jsx:539-568 | for the `react` catalog entry, `src` holds the boilerplate `App.jsx` first and the added `App.jsx` next to last, as two distinct files |
| Scenarios.DemoWorkspace | src/Composer.jsx:217-292 | adding `react` to an empty store gives progress 0; naming it `demo` gives 25; the workspace is that one instance |
| Scenarios.DemoReportText | src/Composer.jsx:371-422 | the report on a `react` instance named `demo` contains `Project: demo (React.js)` and `cd demo` |
| Scenarios.DemoReport | src/Composer.jsx:371-422 | the report built from that workspace contains `Project: demo (React.js)` and `cd demo` |
| Scenarios.CheckoutFlowExport | src/Composer.jsx:266-344 | after typing `Checkout flow` as the value stream in CSDM mode, the one exported record has `value_stream` = `Checkout flow` and `technology_service` = `React.js` |
| Scenarios.EditThenRemove | src/Composer.jsx:313-324 | editing and then removing the only instance leaves an empty workspace, no selection and no progress entry for its id |

## Findings

| source | as written | input that shows it | evidently intended | confidence | as-written member | corrected member |
|---|---|---|---|---|---|---|
| src/Composer.jsx:586-591 | `toggleCollapse` stores `!prev[path]`. An untouched folder has no entry and is drawn expanded (src/FileTree.jsx:10), so its first click stores `true` and it stays expanded. | one click on any folder of a fresh tree | each click flips the folder between expanded and collapsed, starting from expanded | medium, not executed | FileTreeView.TogglesFromUntouched | FileTreeView.TogglesFixedFromUntouched |

## Left out

- Rendering, styling, dark mode, modals, the message box and hover state
  are out. `showMessage` is modelled as the returned `Message` value.
- Firebase authentication, Firestore `setDoc`/`onSnapshot`, `saveProject`
  and `loadProjects` are out. `src/firebase.js` is not part of this model.
  These are network services and asynchronous callbacks.
- `localStorage` and JSON parsing and serialisation are out. `Hydrate`
  takes the already-parsed list. The CSDM export is kept as the list of
  records, not as its pretty-printed JSON text.
- `Date.now()` is out: the instance id is a parameter that must not
  already be in use.
- The string-template `generateFileTree` is out: nothing calls it.
  `getPlaceholder` is out: it is hint text.
- The tree builder's root folder name (project name, or the first segment
  of `structure`) is out: only the root's children are returned.
- GenerateStructuredFileTree: the model builds the tree as a value and
  re-finds each folder by name. The source pushes through the folder
  references it holds. The two agree because lookup returns the first
  folder of a name and folders are only appended. Object aliasing itself
  is not modelled.
- Boilerplate objects are an ordered list of (path, content) entries, in
  the order JavaScript's `for…in` visits their string keys.
- Focus movement in the keyboard handler is out. Only the index arithmetic
  and the Enter/Escape selection changes are modelled.
- `toLowerCase` and Python's `str.upper` are ASCII-only here. Python's
  `\s` and `str.strip` use Python's full whitespace set. `\w` and `\d` are
  ASCII-only.
- Python's regex engine is out: the two patterns are a hand-written scanner
  for the same grammar. The input loop, `os.path.exists` and the file reads
  and writes are parameters and the returned `Outcome`. The printed console
  messages and a failed final write are out.
- Legacy instances missing a nested group cannot occur here, because every
  `Config` has all three groups.
- The `config` and `data` entries under `src/data/` are catalog content.
  Only the `react` entry is kept, as a fixture.
