/**
  `renderTree` of src/FileTree.jsx, without its markup: each node is drawn
  under a key that is its `/`-joined path, folders show their children
  unless the collapse map says otherwise, and `toggleCollapse` of
  src/Composer.jsx is the only thing that writes that map.
*/
module FileTreeView {
  import opened Text
  import opened FileTreeBuilder

  /** One drawn node: its key (the path string), its name, and for a folder whether it is collapsed. */
  datatype Row =
    | FolderRow(key: string, name: string, collapsed: bool, children: seq<Row>)
    | FileRow(key: string, name: string, content: string)

  /** `${parentPath}/${item.name}` */
  function KeyOf(parentPath: string, name: string): (k: string)
    ensures |k| == |parentPath| + 1 + |name|
    ensures StartsWith(k, parentPath + "/")
    ensures k[|parentPath| + 1..] == name
  {
    parentPath + "/" + name
  }

  /** `collapseState[path] === false`: an absent entry, or `true`, means expanded. */
  predicate IsCollapsed(collapseState: map<string, bool>, path: string) {
    path in collapseState && collapseState[path] == false
  }

  /**
    `renderTree(items, parentPath)`: one row per item, in order; a collapsed
    folder's children are not drawn at all.
  */
  function RenderTree(items: seq<Node>, parentPath: string, collapseState: map<string, bool>): (r: seq<Row>)
    ensures |r| == |items|
    ensures forall i :: 0 <= i < |items| ==>
      && r[i].key == KeyOf(parentPath, items[i].name)
      && r[i].name == items[i].name
      && r[i].FolderRow? == items[i].Folder?
    ensures forall i :: 0 <= i < |items| && items[i].File? ==> r[i].content == items[i].content
    ensures forall i :: 0 <= i < |items| && items[i].Folder? ==>
      && r[i].collapsed == IsCollapsed(collapseState, r[i].key)
      && (r[i].collapsed ==> r[i].children == [])
      && (!r[i].collapsed ==> r[i].children == RenderTree(items[i].children, r[i].key, collapseState))
    decreases items
  {
    if |items| == 0 then []
    else
      var item := items[0];
      var path := KeyOf(parentPath, item.name);
      var row :=
        if item.Folder? then
          var collapsed := IsCollapsed(collapseState, path);
          FolderRow(path, item.name, collapsed, if collapsed then [] else RenderTree(item.children, path, collapseState))
        else FileRow(path, item.name, item.content);
      [row] + RenderTree(items[1..], parentPath, collapseState)
  }

  /** Every key drawn, at any depth, in drawing order. */
  function Keys(rows: seq<Row>): seq<string>
    decreases rows
  {
    if |rows| == 0 then []
    else
      [rows[0].key]
      + (if rows[0].FolderRow? then Keys(rows[0].children) else [])
      + Keys(rows[1..])
  }

  /** The number of file rows drawn, at any depth. */
  function VisibleFiles(rows: seq<Row>): nat
    decreases rows
  {
    if |rows| == 0 then 0
    else (if rows[0].FileRow? then 1 else VisibleFiles(rows[0].children)) + VisibleFiles(rows[1..])
  }

  // ---------------------------------------------------------------------------
  // Keys

  /** Every key drawn below `parentPath` starts with `parentPath + "/"`; from the top, every key starts with `/`. */
  lemma {:induction false} KeysUnder(items: seq<Node>, parentPath: string, collapseState: map<string, bool>)
    ensures forall k :: k in Keys(RenderTree(items, parentPath, collapseState)) ==> StartsWith(k, parentPath + "/")
    decreases items
  {
    var r := RenderTree(items, parentPath, collapseState);
    if |items| > 0 {
      var key := r[0].key;
      var below := if r[0].FolderRow? then Keys(r[0].children) else [];
      KeysUnder(items[1..], parentPath, collapseState);
      assert r[1..] == RenderTree(items[1..], parentPath, collapseState);
      if items[0].Folder? && !r[0].collapsed {
        KeysUnder(items[0].children, key, collapseState);
        forall k | k in below ensures StartsWith(k, parentPath + "/") {
          assert StartsWith(k, key + "/");
          assert k[..|parentPath| + 1] == key[..|parentPath| + 1];
        }
      }
      assert Keys(r) == [key] + below + Keys(r[1..]);
    }
  }

  /** Two siblings share a key exactly when they share a name, whatever their kinds. */
  lemma SiblingKeys(items: seq<Node>, parentPath: string, collapseState: map<string, bool>, i: nat, j: nat)
    requires i < |items| && j < |items|
    ensures var r := RenderTree(items, parentPath, collapseState);
      r[i].key == r[j].key <==> items[i].name == items[j].name
  {
    var r := RenderTree(items, parentPath, collapseState);
    if r[i].key == r[j].key {
      assert r[i].key[|parentPath| + 1..] == r[j].key[|parentPath| + 1..];
    }
  }

  /**
    Siblings of the same name are drawn under one key and read one collapse
    entry, so two same-named folders collapse and expand together.
  */
  lemma SameNameSharesCollapse(items: seq<Node>, parentPath: string, collapseState: map<string, bool>, i: nat, j: nat)
    requires i < |items| && j < |items|
    requires items[i].Folder? && items[j].Folder? && items[i].name == items[j].name
    ensures var r := RenderTree(items, parentPath, collapseState);
      r[i].collapsed == r[j].collapsed
  {
    SiblingKeys(items, parentPath, collapseState, i, j);
  }

  // ---------------------------------------------------------------------------
  // What is drawn

  /** Collapsing can only hide files: no more are drawn than the tree holds. */
  lemma {:induction false} VisibleAtMost(items: seq<Node>, parentPath: string, collapseState: map<string, bool>)
    ensures VisibleFiles(RenderTree(items, parentPath, collapseState)) <= CountFiles(items)
    decreases items
  {
    var r := RenderTree(items, parentPath, collapseState);
    if |items| > 0 {
      VisibleAtMost(items[1..], parentPath, collapseState);
      assert r[1..] == RenderTree(items[1..], parentPath, collapseState);
      if items[0].Folder? && !r[0].collapsed {
        VisibleAtMost(items[0].children, r[0].key, collapseState);
      }
    }
  }

  /** A map holding no `false` collapses nothing: every file of the tree is drawn. */
  lemma {:induction false} NothingCollapsedShowsAll(items: seq<Node>, parentPath: string, collapseState: map<string, bool>)
    requires forall k :: k in collapseState ==> collapseState[k]
    ensures VisibleFiles(RenderTree(items, parentPath, collapseState)) == CountFiles(items)
    decreases items
  {
    var r := RenderTree(items, parentPath, collapseState);
    if |items| > 0 {
      NothingCollapsedShowsAll(items[1..], parentPath, collapseState);
      assert r[1..] == RenderTree(items[1..], parentPath, collapseState);
      if items[0].Folder? {
        NothingCollapsedShowsAll(items[0].children, r[0].key, collapseState);
      }
    }
  }

  // ---------------------------------------------------------------------------
  // The collapse toggle

  /** `{ ...prevState, [id]: !prevState[id] }`; an absent entry is `undefined`, whose negation is `true`. */
  function ToggleCollapse(collapseState: map<string, bool>, id: string): (r: map<string, bool>)
    ensures r.Keys == collapseState.Keys + {id}
    ensures id in collapseState ==> r[id] == !collapseState[id]
    ensures id !in collapseState ==> r[id] == true
    ensures forall k :: k in collapseState && k != id ==> r[k] == collapseState[k]
  {
    collapseState[id := !(id in collapseState && collapseState[id])]
  }

  /** `n` clicks on the same folder. */
  function Toggles(collapseState: map<string, bool>, id: string, n: nat): map<string, bool> {
    if n == 0 then collapseState else ToggleCollapse(Toggles(collapseState, id, n - 1), id)
  }

  /** A toggle changes the collapse reading of its own key only. */
  lemma ToggleLeavesOthers(collapseState: map<string, bool>, id: string, k: string)
    requires k != id
    ensures IsCollapsed(ToggleCollapse(collapseState, id), k) == IsCollapsed(collapseState, k)
  {
  }

  /** Once a key has an entry, every toggle flips it between collapsed and expanded. */
  lemma ToggleFlipsSetEntry(collapseState: map<string, bool>, id: string)
    requires id in collapseState
    ensures IsCollapsed(ToggleCollapse(collapseState, id), id) == !IsCollapsed(collapseState, id)
    ensures ToggleCollapse(ToggleCollapse(collapseState, id), id) == collapseState
  {
    var once := ToggleCollapse(collapseState, id);
    var twice := ToggleCollapse(once, id);
    assert twice.Keys == collapseState.Keys;
  }

  /**
    The first toggle of an untouched folder stores `true`, which reads as
    expanded, just as the absent entry did: that click changes nothing drawn.
  */
  lemma FirstToggleShowsNoChange(collapseState: map<string, bool>, id: string)
    requires id !in collapseState
    ensures !IsCollapsed(collapseState, id)
    ensures !IsCollapsed(ToggleCollapse(collapseState, id), id)
  {
  }

  /** After `n >= 1` clicks on an untouched folder it is collapsed exactly when `n` is even. */
  lemma {:induction false} TogglesFromUntouched(collapseState: map<string, bool>, id: string, n: nat)
    requires id !in collapseState && n >= 1
    ensures id in Toggles(collapseState, id, n)
    ensures Toggles(collapseState, id, n)[id] == (n % 2 == 1)
    ensures IsCollapsed(Toggles(collapseState, id, n), id) <==> n % 2 == 0
  {
    if n > 1 {
      TogglesFromUntouched(collapseState, id, n - 1);
    }
  }

  /**
    The toggle the collapse rule calls for: store `true` (expanded) when the
    folder reads as collapsed and `false` otherwise, so that an absent entry
    is treated as the expanded state it is drawn as.
  */
  function ToggleCollapseFixed(collapseState: map<string, bool>, id: string): (r: map<string, bool>)
    ensures r.Keys == collapseState.Keys + {id}
    ensures forall k :: k in collapseState && k != id ==> r[k] == collapseState[k]
  {
    collapseState[id := IsCollapsed(collapseState, id)]
  }

  function TogglesFixed(collapseState: map<string, bool>, id: string, n: nat): map<string, bool> {
    if n == 0 then collapseState else ToggleCollapseFixed(TogglesFixed(collapseState, id, n - 1), id)
  }

  /** With the corrected toggle every click flips what is drawn, the first one included. */
  lemma ToggleFixedFlips(collapseState: map<string, bool>, id: string, k: string)
    ensures IsCollapsed(ToggleCollapseFixed(collapseState, id), id) == !IsCollapsed(collapseState, id)
    ensures k != id ==> IsCollapsed(ToggleCollapseFixed(collapseState, id), k) == IsCollapsed(collapseState, k)
  {
  }

  /** With the corrected toggle, `n` clicks on an untouched folder collapse it exactly when `n` is odd. */
  lemma {:induction false} TogglesFixedFromUntouched(collapseState: map<string, bool>, id: string, n: nat)
    requires id !in collapseState
    ensures IsCollapsed(TogglesFixed(collapseState, id, n), id) <==> n % 2 == 1
  {
    if n > 0 {
      TogglesFixedFromUntouched(collapseState, id, n - 1);
      ToggleFixedFlips(TogglesFixed(collapseState, id, n - 1), id, id);
    }
  }
}
