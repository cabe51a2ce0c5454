/** The grid assembler's pure half: which live scenes a tick admits, the grid cell
    built for each, how many of them the mesh accepted, and what the processed-scene
    ledger guarantees across ticks. */
module Scenes {
  import opened Wrappers
  import opened Geometry

  /** Identity of one placement of a scene in the live world (two integer tokens). */
  datatype SceneUid = SceneUid(part0: int, part1: int)

  /** A live scene as the snapshot phase sees it: the raw scene id, the placement's
      uid, its template (SNO) id, its area id and its world-space extent. */
  datatype LiveScene = LiveScene(id: int, uid: SceneUid, sceneSnoId: int, areaSnoId: int, min: Vec3, max: Vec3)

  /** A template sub-cell, in the template's local coordinates. */
  datatype TemplateCell = TemplateCell(min: Vec3, max: Vec3, flags: int)

  /** Navigation data of one scene template (SNO), as the template cache holds it. */
  datatype SceneTemplate = SceneTemplate(sceneSnoId: int, cells: seq<TemplateCell>)

  /** A world-space sub-cell of a grid cell, numbered within its grid cell. */
  datatype Cell = Cell(min: Vec3, max: Vec3, flags: int, id: int)

  /** The grid cell handed to the mesh for one scene. */
  datatype GridCell = GridCell(min: Vec3, max: Vec3, sceneSnoId: int, areaSnoId: int, userData: int, cells: seq<Cell>)

  /** The base mesh's `Add`: whether it accepts a cell, given the cells already
      handed to it earlier in the same batch. */
  type AddOracle = (seq<GridCell>, GridCell) -> bool

  predicate Distinct<T(==)>(s: seq<T>)
  {
    forall i, j :: 0 <= i < j < |s| ==> s[i] != s[j]
  }

  /** The allow-list rule: an empty area list admits every scene; otherwise the
      scene's area or its template must be listed. */
  predicate PassesAllowLists(s: LiveScene, areas: seq<int>, gridCells: seq<int>)
  {
    |areas| == 0 || s.areaSnoId in areas || s.sceneSnoId in gridCells
  }

  /** Whether the snapshot phase keeps one entry of the live scene list. */
  predicate Admits(slot: Option<LiveScene>, areas: seq<int>, gridCells: seq<int>, processed: set<SceneUid>)
  {
    && slot.Some?
    && slot.value.id >= 0
    && PassesAllowLists(slot.value, areas, gridCells)
    && slot.value.uid !in processed
  }

  /** The batch of the snapshot phase, in enumeration order. */
  function Admitted(live: seq<Option<LiveScene>>, areas: seq<int>, gridCells: seq<int>, processed: set<SceneUid>): (batch: seq<LiveScene>)
    ensures |batch| <= |live|
  {
    if live == [] then []
    else
      var batch := Admitted(live[..|live| - 1], areas, gridCells, processed);
      if Admits(live[|live| - 1], areas, gridCells, processed) then batch + [live[|live| - 1].value] else batch
  }

  /** A scene is in the batch iff it was enumerated and passes every filter. */
  lemma {:induction false} AdmittedMembership(live: seq<Option<LiveScene>>, areas: seq<int>, gridCells: seq<int>, processed: set<SceneUid>, s: LiveScene)
    ensures s in Admitted(live, areas, gridCells, processed) <==>
      && Some(s) in live
      && s.id >= 0
      && (|areas| == 0 || s.areaSnoId in areas || s.sceneSnoId in gridCells)
      && s.uid !in processed
  {
    if live != [] {
      var init := live[..|live| - 1];
      AdmittedMembership(init, areas, gridCells, processed, s);
      assert live == init + [live[|live| - 1]];
    }
  }

  /** Filtering commutes with concatenation, so admitted scenes keep their
      enumeration order. */
  lemma {:induction false} AdmittedKeepsOrder(front: seq<Option<LiveScene>>, back: seq<Option<LiveScene>>, areas: seq<int>, gridCells: seq<int>, processed: set<SceneUid>)
    ensures Admitted(front + back, areas, gridCells, processed) ==
      Admitted(front, areas, gridCells, processed) + Admitted(back, areas, gridCells, processed)
  {
    if back == [] {
      assert front + back == front;
    } else {
      var init := back[..|back| - 1];
      AdmittedKeepsOrder(front, init, areas, gridCells, processed);
      assert (front + back)[..|front + back| - 1] == front + init;
      assert (front + back)[|front + back| - 1] == back[|back| - 1];
    }
  }

  /** The uids of a batch, in order. */
  function Uids(batch: seq<LiveScene>): (us: seq<SceneUid>)
    ensures |us| == |batch|
    ensures forall i :: 0 <= i < |batch| ==> us[i] == batch[i].uid
  {
    if batch == [] then []
    else Uids(batch[..|batch| - 1]) + [batch[|batch| - 1].uid]
  }

  function UidSet(batch: seq<LiveScene>): set<SceneUid>
  {
    set u | u in Uids(batch)
  }

  /** Sub-cells of a template translated by `offset` and numbered from `firstId`. */
  function Translated(cells: seq<TemplateCell>, offset: Vec3, firstId: int): (r: seq<Cell>)
    ensures |r| == |cells|
    ensures forall i :: 0 <= i < |cells| ==>
      r[i] == Cell(cells[i].min.Plus(offset), cells[i].max.Plus(offset), cells[i].flags, firstId + i)
  {
    if cells == [] then []
    else [Cell(cells[0].min.Plus(offset), cells[0].max.Plus(offset), cells[0].flags, firstId)] + Translated(cells[1..], offset, firstId + 1)
  }

  /** The grid cell for one scene: the scene's extent and ids, with the template's
      sub-cells moved to the scene's minimum corner, or no sub-cells at all when the
      template is not cached. */
  function GridCellFor(s: LiveScene, cache: map<int, SceneTemplate>): GridCell
  {
    GridCell(s.min, s.max, s.sceneSnoId, s.areaSnoId, s.areaSnoId,
             if s.sceneSnoId in cache then Translated(cache[s.sceneSnoId].cells, s.min, 0) else [])
  }

  /** A scene's grid cell keeps the scene's extent and area id; it has no sub-cells
      unless the scene's template is cached, and then one per template cell, moved to
      the scene's minimum corner and numbered from 0. */
  lemma GridCellForShape(s: LiveScene, cache: map<int, SceneTemplate>)
    ensures var g := GridCellFor(s, cache);
      g.min == s.min && g.max == s.max && g.userData == s.areaSnoId
    ensures s.sceneSnoId !in cache ==> GridCellFor(s, cache).cells == []
    ensures s.sceneSnoId in cache ==>
      var t := cache[s.sceneSnoId].cells;
      var g := GridCellFor(s, cache);
      |g.cells| == |t| &&
      forall i :: 0 <= i < |t| ==> g.cells[i] == Cell(t[i].min.Plus(s.min), t[i].max.Plus(s.min), t[i].flags, i)
  {
  }

  /** The cells handed to the mesh for a batch, in batch order. */
  function GridCells(batch: seq<LiveScene>, cache: map<int, SceneTemplate>): (cells: seq<GridCell>)
    ensures |cells| == |batch|
    ensures forall i :: 0 <= i < |batch| ==> cells[i] == GridCellFor(batch[i], cache)
  {
    if batch == [] then []
    else GridCells(batch[..|batch| - 1], cache) + [GridCellFor(batch[|batch| - 1], cache)]
  }

  /** How many of the cells handed in order the mesh accepted. */
  function Accepted(add: AddOracle, cells: seq<GridCell>): (n: nat)
    ensures n <= |cells|
  {
    if cells == [] then 0
    else Accepted(add, cells[..|cells| - 1]) + (if add(cells[..|cells| - 1], cells[|cells| - 1]) then 1 else 0)
  }

  /** The count is positive iff the mesh accepted at least one of the cells. */
  lemma {:induction false} AcceptedPositiveIffSomeAccepted(add: AddOracle, cells: seq<GridCell>)
    ensures Accepted(add, cells) > 0 <==> exists i :: 0 <= i < |cells| && add(cells[..i], cells[i])
  {
    if cells != [] {
      var n := |cells| - 1;
      var init := cells[..n];
      AcceptedPositiveIffSomeAccepted(add, init);
      if exists i :: 0 <= i < |init| && add(init[..i], init[i]) {
        var i :| 0 <= i < |init| && add(init[..i], init[i]);
        assert init[..i] == cells[..i];
        assert add(cells[..i], cells[i]);
      }
      if exists i :: 0 <= i < |cells| && add(cells[..i], cells[i]) {
        var i :| 0 <= i < |cells| && add(cells[..i], cells[i]);
        if i < n {
          assert init[..i] == cells[..i];
          assert add(init[..i], init[i]);
        }
      }
    }
  }

  /** The template cell (0,0,0)-(10,10,5) of a scene placed at (100,200,0) becomes
      the world sub-cell (100,200,0)-(110,210,5), numbered 0. */
  lemma TranslationExample(flags: int)
    ensures Translated([TemplateCell(Vec3(0.0, 0.0, 0.0), Vec3(10.0, 10.0, 5.0), flags)], Vec3(100.0, 200.0, 0.0), 0)
      == [Cell(Vec3(100.0, 200.0, 0.0), Vec3(110.0, 210.0, 5.0), flags, 0)]
  {
  }

  /** No two present entries of one live scene list share a uid. */
  predicate DistinctLiveUids(live: seq<Option<LiveScene>>)
  {
    forall i, j :: 0 <= i < j < |live| && live[i].Some? && live[j].Some? ==> live[i].value.uid != live[j].value.uid
  }

  /** Every uid of a batch is new to the ledger it was filtered against. */
  lemma AdmittedUidsAreNew(live: seq<Option<LiveScene>>, areas: seq<int>, gridCells: seq<int>, processed: set<SceneUid>)
    ensures forall u :: u in Uids(Admitted(live, areas, gridCells, processed)) ==> u !in processed
  {
    var batch := Admitted(live, areas, gridCells, processed);
    forall u | u in Uids(batch) ensures u !in processed {
      var k :| 0 <= k < |batch| && Uids(batch)[k] == u;
      AdmittedMembership(live, areas, gridCells, processed, batch[k]);
    }
  }

  /** A list without repeated uids yields a batch without repeated uids. */
  lemma {:induction false} AdmittedUidsDistinct(live: seq<Option<LiveScene>>, areas: seq<int>, gridCells: seq<int>, processed: set<SceneUid>)
    requires DistinctLiveUids(live)
    ensures Distinct(Uids(Admitted(live, areas, gridCells, processed)))
  {
    if live != [] {
      var n := |live| - 1;
      var init := live[..n];
      assert DistinctLiveUids(init);
      AdmittedUidsDistinct(init, areas, gridCells, processed);
      var batch := Admitted(init, areas, gridCells, processed);
      if Admits(live[n], areas, gridCells, processed) {
        var x := live[n].value;
        assert Admitted(live, areas, gridCells, processed) == batch + [x];
        forall k | 0 <= k < |batch| ensures batch[k].uid != x.uid {
          AdmittedMembership(init, areas, gridCells, processed, batch[k]);
          var j :| 0 <= j < |init| && init[j] == Some(batch[k]);
          assert live[j] == init[j];
        }
        var us := Uids(batch + [x]);
        forall i, j | 0 <= i < j < |us| ensures us[i] != us[j] {
          if j < |batch| {
            assert us[i] == Uids(batch)[i] && us[j] == Uids(batch)[j];
          }
        }
      }
    }
  }

  /** What one completed nav-data tick works on: the allow-lists as they stood at that
      tick (they may be replaced between ticks) and the live scene list it read. */
  datatype Tick = Tick(areas: seq<int>, gridCells: seq<int>, live: seq<Option<LiveScene>>)

  /** The uids folded into the mesh over a run of completed ticks, in order, with the
      ledger growing by each tick's batch. */
  function RunUids(processed: set<SceneUid>, ticks: seq<Tick>): seq<SceneUid>
    decreases |ticks|
  {
    if ticks == [] then []
    else
      var batch := Admitted(ticks[0].live, ticks[0].areas, ticks[0].gridCells, processed);
      Uids(batch) + RunUids(processed + UidSet(batch), ticks[1..])
  }

  /** Across any run of ticks, whatever the allow-lists at each tick, no scene
      placement is folded into the mesh twice, and none that the ledger held at the
      start is folded at all. The premise is per tick: within one live list the same
      uid must not be enumerated twice, since the snapshot phase filters against the
      ledger as it stood before the tick. */
  lemma {:induction false} NoSceneFoldedTwice(processed: set<SceneUid>, ticks: seq<Tick>)
    requires forall t :: 0 <= t < |ticks| ==> DistinctLiveUids(ticks[t].live)
    ensures Distinct(RunUids(processed, ticks))
    ensures forall u :: u in RunUids(processed, ticks) ==> u !in processed
    decreases |ticks|
  {
    if ticks != [] {
      var tick := ticks[0];
      var batch := Admitted(tick.live, tick.areas, tick.gridCells, processed);
      var next := processed + UidSet(batch);
      AdmittedUidsDistinct(tick.live, tick.areas, tick.gridCells, processed);
      AdmittedUidsAreNew(tick.live, tick.areas, tick.gridCells, processed);
      NoSceneFoldedTwice(next, ticks[1..]);
      var b := Uids(batch);
      var rest := RunUids(next, ticks[1..]);
      assert RunUids(processed, ticks) == b + rest;
      forall i, j | 0 <= i < j < |b + rest| ensures (b + rest)[i] != (b + rest)[j] {
        if j >= |b| && i < |b| {
          assert (b + rest)[j] in rest;
          assert b[i] in UidSet(batch);
        }
      }
    }
  }

  /** The same placement enumerated twice in one live list is admitted twice: the
      ledger only deduplicates across ticks. */
  lemma RepeatWithinOneListIsAdmittedTwice(s: LiveScene)
    requires s.id >= 0
    ensures Admitted([Some(s), Some(s)], [], [], {}) == [s, s]
  {
    assert [Some(s), Some(s)][..1] == [Some(s)];
    assert [Some(s)][..0] == [];
  }
}
