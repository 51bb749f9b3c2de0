/**
  The workspace store of src/Composer.jsx: the ordered list of project
  instances, the selected instance and the progress map keyed by instance id.
*/
module Workspace {
  import opened Wrappers
  import opened Config

  /** The instance ids present in a workspace. */
  function Ids(ps: seq<Instance>): set<int> {
    set i | 0 <= i < |ps| :: ps[i].instanceId
  }

  predicate UniqueIds(ps: seq<Instance>) {
    forall i, j :: 0 <= i < j < |ps| ==> ps[i].instanceId != ps[j].instanceId
  }

  /**
    `ps.map(p => p.instanceId === updated.instanceId ? updated : p)`: only the
    instances carrying the updated id change; length and order stay.
  */
  function ReplaceById(ps: seq<Instance>, updated: Instance): (r: seq<Instance>)
    ensures |r| == |ps|
    ensures forall i :: 0 <= i < |ps| && ps[i].instanceId != updated.instanceId ==> r[i] == ps[i]
    ensures forall i :: 0 <= i < |ps| && ps[i].instanceId == updated.instanceId ==> r[i] == updated
  {
    if |ps| == 0 then []
    else [if ps[0].instanceId == updated.instanceId then updated else ps[0]] + ReplaceById(ps[1..], updated)
  }

  /** `ps.filter(p => p.instanceId !== id)` */
  function RemoveById(ps: seq<Instance>, id: int): (r: seq<Instance>)
    ensures id !in Ids(r)
    ensures forall p :: p in r <==> p in ps && p.instanceId != id
    ensures |r| <= |ps|
  {
    if |ps| == 0 then []
    else (if ps[0].instanceId == id then [] else [ps[0]]) + RemoveById(ps[1..], id)
  }

  lemma IdsCons(h: Instance, t: seq<Instance>)
    ensures Ids([h] + t) == {h.instanceId} + Ids(t)
  {
    var ps := [h] + t;
    forall x | x in Ids(ps) ensures x in {h.instanceId} + Ids(t) {
      var i :| 0 <= i < |ps| && ps[i].instanceId == x;
      if i > 0 { assert t[i - 1] == ps[i]; }
    }
    forall x | x in Ids(t) ensures x in Ids(ps) {
      var i :| 0 <= i < |t| && t[i].instanceId == x;
      assert ps[i + 1] == t[i];
    }
    assert ps[0] == h;
  }

  lemma IdsSnoc(a: seq<Instance>, p: Instance)
    ensures Ids(a + [p]) == Ids(a) + {p.instanceId}
  {
    var ps := a + [p];
    forall x | x in Ids(ps) ensures x in Ids(a) + {p.instanceId} {
      var i :| 0 <= i < |ps| && ps[i].instanceId == x;
      if i < |a| { assert a[i] == ps[i]; }
    }
    forall x | x in Ids(a) ensures x in Ids(ps) {
      var i :| 0 <= i < |a| && a[i].instanceId == x;
      assert ps[i] == a[i];
    }
    assert ps[|a|] == p;
  }

  lemma UniqueCons(h: Instance, t: seq<Instance>)
    ensures UniqueIds([h] + t) <==> UniqueIds(t) && h.instanceId !in Ids(t)
  {
    var ps := [h] + t;
    assert forall i :: 0 <= i < |t| ==> ps[i + 1] == t[i];
    if UniqueIds(ps) {
      assert UniqueIds(t) by {
        forall i, j | 0 <= i < j < |t| ensures t[i].instanceId != t[j].instanceId {
          assert ps[i + 1].instanceId != ps[j + 1].instanceId;
        }
      }
      assert h.instanceId !in Ids(t) by {
        forall k | 0 <= k < |t| ensures t[k].instanceId != h.instanceId {
          assert ps[0].instanceId != ps[k + 1].instanceId;
        }
      }
    }
    if UniqueIds(t) && h.instanceId !in Ids(t) {
      assert UniqueIds(ps) by {
        forall i, j | 0 <= i < j < |ps| ensures ps[i].instanceId != ps[j].instanceId {
          assert ps[j] == t[j - 1];
          assert t[j - 1].instanceId in Ids(t);
          if i > 0 { assert ps[i] == t[i - 1]; }
        }
      }
    }
  }

  /** Replacing by id keeps the set of ids and their uniqueness, and the replacement is present. */
  lemma ReplaceKeepsIds(ps: seq<Instance>, updated: Instance)
    requires updated.instanceId in Ids(ps)
    ensures Ids(ReplaceById(ps, updated)) == Ids(ps)
    ensures UniqueIds(ps) ==> UniqueIds(ReplaceById(ps, updated))
    ensures updated in ReplaceById(ps, updated)
  {
    var r := ReplaceById(ps, updated);
    assert forall i :: 0 <= i < |ps| ==> r[i].instanceId == ps[i].instanceId;
    forall x | x in Ids(r) ensures x in Ids(ps) {
      var i :| 0 <= i < |r| && r[i].instanceId == x;
    }
    forall x | x in Ids(ps) ensures x in Ids(r) {
      var i :| 0 <= i < |ps| && ps[i].instanceId == x;
    }
    var k :| 0 <= k < |ps| && ps[k].instanceId == updated.instanceId;
    assert r[k] == updated;
  }

  /** The filter distributes over concatenation: the survivors keep their relative order. */
  lemma {:induction false} RemoveKeepsOrder(a: seq<Instance>, b: seq<Instance>, id: int)
    ensures RemoveById(a + b, id) == RemoveById(a, id) + RemoveById(b, id)
  {
    if |a| == 0 {
      assert a + b == b;
    } else {
      assert (a + b)[1..] == a[1..] + b;
      RemoveKeepsOrder(a[1..], b, id);
    }
  }

  /** Removing an id that is absent changes nothing. */
  lemma {:induction false} RemoveAbsentIsIdentity(ps: seq<Instance>, id: int)
    requires id !in Ids(ps)
    ensures RemoveById(ps, id) == ps
  {
    if |ps| > 0 {
      assert ps == [ps[0]] + ps[1..];
      IdsCons(ps[0], ps[1..]);
      RemoveAbsentIsIdentity(ps[1..], id);
    }
  }

  /** Removing twice is removing once. */
  lemma RemoveIdempotent(ps: seq<Instance>, id: int)
    ensures RemoveById(RemoveById(ps, id), id) == RemoveById(ps, id)
  {
    RemoveAbsentIsIdentity(RemoveById(ps, id), id);
  }

  /** Removing keeps the remaining ids unique, and removes exactly the given id from the id set. */
  lemma {:induction false} RemoveKeepsUnique(ps: seq<Instance>, id: int)
    requires UniqueIds(ps)
    ensures UniqueIds(RemoveById(ps, id))
    ensures Ids(RemoveById(ps, id)) == Ids(ps) - {id}
  {
    if |ps| > 0 {
      var h, t := ps[0], ps[1..];
      assert ps == [h] + t;
      UniqueCons(h, t);
      IdsCons(h, t);
      RemoveKeepsUnique(t, id);
      var tail := RemoveById(t, id);
      if h.instanceId != id {
        assert RemoveById(ps, id) == [h] + tail;
        IdsCons(h, tail);
        UniqueCons(h, tail);
      }
    }
  }

  /**
    Progress map after `forEach(p => setProgress(prev => ({...prev, [p.instanceId]: pct})))`
    over `ps`: each instance in turn writes its own entry, a later one overwriting an earlier.
  */
  function Recalculated(prev: map<int, int>, ps: seq<Instance>): map<int, int> {
    if |ps| == 0 then prev
    else Recalculated(prev, ps[..|ps| - 1])[ps[|ps| - 1].instanceId := Progress(ps[|ps| - 1].config)]
  }

  /** Keys of the recalculated map, and each instance's entry when ids are unique. */
  lemma {:induction false} RecalculatedEntries(prev: map<int, int>, ps: seq<Instance>)
    requires UniqueIds(ps)
    ensures Recalculated(prev, ps).Keys == prev.Keys + Ids(ps)
    ensures forall i :: 0 <= i < |ps| ==> Recalculated(prev, ps)[ps[i].instanceId] == Progress(ps[i].config)
    ensures forall k :: k in prev && k !in Ids(ps) ==> Recalculated(prev, ps)[k] == prev[k]
  {
    if |ps| > 0 {
      var init := ps[..|ps| - 1];
      var last := ps[|ps| - 1];
      RecalculatedEntries(prev, init);
      assert ps == init + [last];
      IdsSnoc(init, last);
      forall i | 0 <= i < |ps| - 1 ensures ps[i].instanceId != last.instanceId && ps[i] == init[i] {
      }
    }
  }

  /**
    The store's invariant on its three parts: ids are unique; a selection is
    an element of the workspace (hence the one with its id); the progress map
    holds exactly the workspace's ids, each with the percentage of that
    instance's configuration.
  */
  ghost predicate Consistent(ps: seq<Instance>, selected: Option<Instance>, progress: map<int, int>) {
    && UniqueIds(ps)
    && (selected.Some? ==> selected.value in ps)
    && progress.Keys == Ids(ps)
    && (forall i :: 0 <= i < |ps| ==> progress[ps[i].instanceId] == Progress(ps[i].config))
  }

  /** Adding a fresh instance, selecting it and giving it progress 0 keeps the invariant. */
  lemma AddKeepsConsistent(ps: seq<Instance>, selected: Option<Instance>, progress: map<int, int>, t: Template, instanceId: int)
    requires Consistent(ps, selected, progress) && instanceId !in Ids(ps)
    ensures Consistent(ps + [NewInstance(t, instanceId)], Some(NewInstance(t, instanceId)), progress[instanceId := 0])
  {
    var p := NewInstance(t, instanceId);
    var r := ps + [p];
    IdsSnoc(ps, p);
    assert forall i :: 0 <= i < |ps| ==> r[i] == ps[i];
    assert r[|ps|] == p;
    assert Progress(p.config) == 0;
  }

  /**
    Putting an updated copy of the selection in its place, selecting it and
    recomputing its progress keeps the invariant.
  */
  lemma CommitKeepsConsistent(ps: seq<Instance>, selected: Option<Instance>, progress: map<int, int>, updated: Instance)
    requires Consistent(ps, selected, progress)
    requires selected.Some? && updated.instanceId == selected.value.instanceId
    ensures Consistent(ReplaceById(ps, updated), Some(updated), progress[updated.instanceId := Progress(updated.config)])
  {
    var r := ReplaceById(ps, updated);
    var m := progress[updated.instanceId := Progress(updated.config)];
    assert updated.instanceId in Ids(ps) by {
      var k :| 0 <= k < |ps| && ps[k] == selected.value;
    }
    assert UniqueIds(r) && updated in r && m.Keys == Ids(r) by {
      ReplaceKeepsIds(ps, updated);
    }
    assert forall i :: 0 <= i < |r| ==> m[r[i].instanceId] == Progress(r[i].config) by {
      ReplacedProgress(ps, progress, updated);
    }
  }

  /** The progress entries stay right when one id's instance is replaced and its entry recomputed. */
  lemma ReplacedProgress(ps: seq<Instance>, progress: map<int, int>, updated: Instance)
    requires progress.Keys == Ids(ps)
    requires forall i :: 0 <= i < |ps| ==> progress[ps[i].instanceId] == Progress(ps[i].config)
    ensures var r := ReplaceById(ps, updated);
      var m := progress[updated.instanceId := Progress(updated.config)];
      forall i :: 0 <= i < |r| ==> r[i].instanceId in m && m[r[i].instanceId] == Progress(r[i].config)
  {
    var r := ReplaceById(ps, updated);
    var m := progress[updated.instanceId := Progress(updated.config)];
    forall i | 0 <= i < |r|
      ensures r[i].instanceId in m && m[r[i].instanceId] == Progress(r[i].config)
    {
      if ps[i].instanceId != updated.instanceId {
        assert r[i] == ps[i];
        assert ps[i].instanceId in Ids(ps);
      } else {
        assert r[i] == updated;
      }
    }
  }

  /**
    Removing an id from the workspace and the progress map, and clearing the
    selection if it had that id, keeps the invariant.
  */
  lemma RemoveKeepsConsistent(ps: seq<Instance>, selected: Option<Instance>, progress: map<int, int>, id: int)
    requires Consistent(ps, selected, progress)
    ensures Consistent(RemoveById(ps, id), if selected.Some? && selected.value.instanceId == id then None else selected, progress - {id})
  {
    RemoveKeepsUnique(ps, id);
    var r := RemoveById(ps, id);
    forall i | 0 <= i < |r|
      ensures (progress - {id})[r[i].instanceId] == Progress(r[i].config)
    {
      assert r[i] in ps;
    }
  }

  /**
    The store. `selected` is React's `selectedProject` (null is `None`);
    `progress` is the percentage map keyed by instance id.
  */
  class WorkspaceStore {
    var projects: seq<Instance>
    var selected: Option<Instance>
    var progress: map<int, int>

    ghost predicate Valid()
      reads this
    {
      Consistent(projects, selected, progress)
    }

    /** The state at mount: `useState([])`, `useState(null)`, `useState({})`. */
    constructor ()
      ensures Valid()
      ensures projects == [] && selected == None && progress == map[]
    {
      projects := [];
      selected := None;
      progress := map[];
    }

    /**
      `addProjectToWorkspace`: appends the new instance, selects it and sets
      its progress to 0. The id (a timestamp in the source) is a parameter
      that must not already be in use.
    */
    method AddProject(t: Template, instanceId: int)
      requires Valid()
      requires instanceId !in Ids(projects)
      modifies this
      ensures Valid()
      ensures projects == old(projects) + [NewInstance(t, instanceId)]
      ensures selected == Some(NewInstance(t, instanceId))
      ensures progress == old(progress)[instanceId := 0]
    {
      AddKeepsConsistent(projects, selected, progress, t, instanceId);
      var p := NewInstance(t, instanceId);
      projects := projects + [p];
      selected := Some(p);
      progress := progress[instanceId := 0];
    }

    /** `updateProgress(project)`: recomputes one instance's percentage. */
    method UpdateProgress(p: Instance)
      modifies this`progress
      ensures progress == old(progress)[p.instanceId := Progress(p.config)]
    {
      progress := progress[p.instanceId := Progress(p.config)];
    }

    /**
      The common tail of both update operations: the updated copy of the
      selection becomes the selection, replaces its id's entry in the
      workspace, and has its progress recomputed.
    */
    method CommitSelected(updated: Instance)
      requires Valid()
      requires selected.Some? && updated.instanceId == selected.value.instanceId
      modifies this
      ensures Valid()
      ensures selected == Some(updated)
      ensures projects == ReplaceById(old(projects), updated)
      ensures progress == old(progress)[updated.instanceId := Progress(updated.config)]
    {
      CommitKeepsConsistent(projects, selected, progress, updated);
      selected := Some(updated);
      projects := ReplaceById(projects, updated);
      UpdateProgress(updated);
    }

    /**
      `updateProjectConfig(key, value)`: nothing happens without a selection;
      otherwise only `config[key]` of the selected instance changes.
    */
    method UpdateProjectConfig(u: ConfigUpdate)
      requires Valid()
      modifies this
      ensures Valid()
      ensures old(selected).None? ==>
        projects == old(projects) && selected == old(selected) && progress == old(progress)
      ensures old(selected).Some? ==>
        var updated := old(selected).value.(config := Apply(old(selected).value.config, u));
        && selected == Some(updated)
        && projects == ReplaceById(old(projects), updated)
        && progress == old(progress)[updated.instanceId := Progress(updated.config)]
    {
      if selected.None? {
        return;
      }
      var s := selected.value;
      CommitSelected(s.(config := Apply(s.config, u)));
    }

    /**
      `updateCSDMConfig(key, value)`: nothing happens without a selection;
      otherwise only `config.csdm[key]` of the selected instance changes.
    */
    method UpdateCsdmConfig(f: CsdmField, v: string)
      requires Valid()
      modifies this
      ensures Valid()
      ensures old(selected).None? ==>
        projects == old(projects) && selected == old(selected) && progress == old(progress)
      ensures old(selected).Some? ==>
        var s := old(selected).value;
        var updated := s.(config := s.config.(csdm := WithCsdm(s.config.csdm, f, v)));
        && selected == Some(updated)
        && projects == ReplaceById(old(projects), updated)
        && progress == old(progress)[updated.instanceId := Progress(updated.config)]
    {
      if selected.None? {
        return;
      }
      var s := selected.value;
      CommitSelected(s.(config := s.config.(csdm := WithCsdm(s.config.csdm, f, v))));
    }

    /**
      `removeProjectFromWorkspace(id)`: drops every instance with that id,
      clears the selection only if it had that id, deletes the progress entry.
    */
    method RemoveProject(id: int)
      requires Valid()
      modifies this
      ensures Valid()
      ensures projects == RemoveById(old(projects), id)
      ensures selected == if old(selected).Some? && old(selected).value.instanceId == id then None else old(selected)
      ensures progress == old(progress) - {id}
    {
      RemoveKeepsConsistent(projects, selected, progress, id);
      projects := RemoveById(projects, id);
      if selected.Some? && selected.value.instanceId == id {
        selected := None;
      }
      progress := progress - {id};
    }

    /** Selecting a workspace card (a click, or Enter on the focused card). */
    method Select(index: int)
      requires Valid()
      requires 0 <= index < |projects|
      modifies this`selected
      ensures Valid()
      ensures selected == Some(projects[index])
    {
      selected := Some(projects[index]);
    }

    /** Escape with no message open: `setSelectedProject(null)`. */
    method ClearSelection()
      requires Valid()
      modifies this`selected
      ensures Valid()
      ensures selected == None
    {
      selected := None;
    }

    /**
      The load path at mount: the parsed list becomes the workspace and a
      loop writes each instance's recomputed percentage into the progress map.
      From the mount state with distinct ids the store is valid afterwards.
    */
    method Hydrate(parsed: seq<Instance>)
      modifies this`projects, this`progress
      ensures projects == parsed
      ensures progress == Recalculated(old(progress), parsed)
      ensures old(progress) == map[] && old(selected) == None && UniqueIds(parsed) ==> Valid()
    {
      projects := parsed;
      var i := 0;
      while i < |parsed|
        invariant 0 <= i <= |parsed|
        invariant projects == parsed
        invariant progress == Recalculated(old(progress), parsed[..i])
      {
        assert parsed[..i + 1][..i] == parsed[..i];
        UpdateProgress(parsed[i]);
        i := i + 1;
      }
      assert parsed[..|parsed|] == parsed;
      if old(progress) == map[] && old(selected) == None && UniqueIds(parsed) {
        RecalculatedEntries(old(progress), parsed);
      }
    }
  }
}
