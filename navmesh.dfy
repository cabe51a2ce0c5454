/** The Diablo III navmesh: the state the two fetch loops update between ticks and
    the operations that update it, each proved against the pure specifications of
    the other modules. One call of `FetchData` or `FetchDangerRegions` is one timer
    tick; the timers, locks and start/stop are not modelled. */
module NavD3 {
  import opened Wrappers
  import opened Geometry
  import opened Liveness
  import opened Scenes
  import opened SnoCache
  import opened Dangers
  import opened Persistence

  /** What one apply phase did: the cells handed to the mesh in order, how many the
      mesh accepted, and whether the exploration engine was told of new data. */
  datatype Batch = Batch(handed: seq<GridCell>, added: nat, notified: bool)

  /** The grid cell for scene `s`: the scene's extent and ids, and, when its template
      is cached, one sub-cell per template cell, moved to the scene's minimum corner
      and numbered in order. */
  method BuildGridCell(s: LiveScene, cache: map<int, SceneTemplate>) returns (g: GridCell)
    ensures g == GridCellFor(s, cache)
  {
    g := GridCell(s.min, s.max, s.sceneSnoId, s.areaSnoId, s.areaSnoId, []);
    if s.sceneSnoId in cache {
      var cells := cache[s.sceneSnoId].cells;
      var cellId := 0;
      while cellId < |cells|
        invariant 0 <= cellId <= |cells|
        invariant g.min == s.min && g.max == s.max
        invariant g.sceneSnoId == s.sceneSnoId && g.areaSnoId == s.areaSnoId && g.userData == s.areaSnoId
        invariant |g.cells| == cellId
        invariant forall i :: 0 <= i < cellId ==>
          g.cells[i] == Cell(cells[i].min.Plus(s.min), cells[i].max.Plus(s.min), cells[i].flags, i)
      {
        var c := cells[cellId];
        g := g.(cells := g.cells + [Cell(c.min.Plus(s.min), c.max.Plus(s.min), c.flags, cellId)]);
        cellId := cellId + 1;
      }
    }
    BuiltCellIsGridCellFor(s, cache, g);
  }

  class Navmesh {
    /** Whether an engine is attached; the engine reference is never replaced. */
    const engineAttached: bool
    /** Whether an exploration engine listens for nav-data changes. */
    const exploratorPresent: bool

    var lastFrame: int
    var isLocalActorReady: bool
    var dangerRegionsEnabled: bool
    var allowedAreas: seq<int>
    var allowedGridCells: seq<int>
    var processed: set<SceneUid>
    var snoCache: map<int, SceneTemplate>
    /** The danger regions published to the path search. */
    var regions: set<Region>

    /** A new navmesh over the template cache loaded at start-up. */
    constructor (engineAttached: bool, exploratorPresent: bool, loadedCache: map<int, SceneTemplate>)
      ensures this.engineAttached == engineAttached && this.exploratorPresent == exploratorPresent
      ensures lastFrame == 0 && !isLocalActorReady && !dangerRegionsEnabled
      ensures allowedAreas == [] && allowedGridCells == [] && processed == {}
      ensures snoCache == loadedCache && regions == {}
    {
      this.engineAttached := engineAttached;
      this.exploratorPresent := exploratorPresent;
      lastFrame := 0;
      isLocalActorReady := false;
      dangerRegionsEnabled := false;
      allowedAreas := [];
      allowedGridCells := [];
      processed := {};
      snoCache := loadedCache;
      regions := {};
    }

    /** Empties both allow-lists and the processed-scene ledger. */
    method Clear()
      modifies this`allowedAreas, this`allowedGridCells, this`processed
      ensures allowedAreas == [] && allowedGridCells == [] && processed == {}
    {
      allowedAreas := [];
      allowedGridCells := [];
      processed := {};
    }

    /** A copy of the allowed-area list. */
    method GetAllowedAreas() returns (areas: seq<int>)
      ensures areas == allowedAreas
    {
      areas := allowedAreas;
    }

    /** Replaces the allowed-area list by a copy of `areas`. */
    method SetAllowedAreas(areas: seq<int>)
      modifies this`allowedAreas
      ensures allowedAreas == areas
    {
      allowedAreas := areas;
    }

    /** A copy of the allowed grid-cell (template) list. */
    method GetAllowedGridCells() returns (gridCells: seq<int>)
      ensures gridCells == allowedGridCells
    {
      gridCells := allowedGridCells;
    }

    /** Replaces the allowed grid-cell list by a copy of `gridCells`. */
    method SetAllowedGridCells(gridCells: seq<int>)
      modifies this`allowedGridCells
      ensures allowedGridCells == gridCells
    {
      allowedGridCells := gridCells;
    }

    /** Switches the danger scan on or off. */
    method SetDangerRegionsEnabled(enabled: bool)
      modifies this`dangerRegionsEnabled
      ensures dangerRegionsEnabled == enabled
    {
      dangerRegionsEnabled := enabled;
    }

    /** The readiness latch, driven by the local data's status word. */
    method IsLocalActorValid(notInGame: Read<int>, actorCreated: Read<int>) returns (valid: Read<bool>)
      modifies this`isLocalActorReady
      ensures !engineAttached ==> valid == Got(false) && isLocalActorReady == old(isLocalActorReady)
      ensures engineAttached ==>
        LatchVerdict(valid, isLocalActorReady) == LocalActorStep(old(isLocalActorReady), notInGame, actorCreated)
    {
      if !engineAttached {
        return Got(false);
      }
      if notInGame.Threw? {
        return Threw;
      }
      var status := LowByte(notInGame.value);
      if status == Rewriting {
        if !isLocalActorReady {
          return Got(false);
        }
      } else {
        if status == 0 {
          if !isLocalActorReady {
            isLocalActorReady := true;
          }
        } else {
          if isLocalActorReady {
            isLocalActorReady := false;
          }
          return Got(false);
        }
      }
      if actorCreated.Threw? {
        return Threw;
      }
      return Got(actorCreated.value == 1);
    }

    /** The frame gate over the stored counter. */
    method IsObjectManagerOnNewFrame(currentFrame: Read<int>) returns (isNew: Read<bool>)
      modifies this`lastFrame
      ensures !engineAttached || currentFrame.Threw? ==> lastFrame == old(lastFrame)
      ensures !engineAttached ==> isNew == Got(false)
      ensures engineAttached && currentFrame.Threw? ==> isNew == Threw
      ensures engineAttached && currentFrame.Got? ==>
        isNew.Got? && FrameVerdict(isNew.value, lastFrame) == FrameStep(old(lastFrame), currentFrame.value)
    {
      if !engineAttached {
        return Got(false);
      }
      if currentFrame.Threw? {
        return Threw;
      }
      var frame := currentFrame.value;
      if frame == lastFrame {
        return Got(false);
      }
      if frame < lastFrame {
        lastFrame := frame;
        return Got(false);
      }
      lastFrame := frame;
      return Got(true);
    }

    /** The latch, then the frame gate only if the latch said yes; an exception in
        either reads as "not updating". */
    method IsUpdating(p: Probe) returns (updating: bool)
      modifies this`isLocalActorReady, this`lastFrame
      ensures UpdateVerdict(updating, isLocalActorReady, lastFrame)
        == UpdatingStep(engineAttached, old(isLocalActorReady), old(lastFrame), p)
    {
      var valid := IsLocalActorValid(p.notInGame, p.actorCreated);
      if valid == Got(true) {
        var isNew := IsObjectManagerOnNewFrame(p.currentFrame);
        updating := isNew == Got(true);
      } else {
        updating := false;
      }
    }

    /** The snapshot phase: the admitted scenes of the live list, in order. */
    method SnapshotScenes(live: seq<Option<LiveScene>>) returns (batch: seq<LiveScene>)
      ensures batch == Admitted(live, allowedAreas, allowedGridCells, processed)
    {
      batch := [];
      var i := 0;
      while i < |live|
        invariant 0 <= i <= |live|
        invariant batch == Admitted(live[..i], allowedAreas, allowedGridCells, processed)
      {
        var slot := live[i];
        if slot.Some? && slot.value.id >= 0 {
          var s := slot.value;
          var filteredOut := |allowedAreas| > 0 && s.areaSnoId !in allowedAreas && s.sceneSnoId !in allowedGridCells;
          if !filteredOut && s.uid !in processed {
            batch := batch + [s];
          }
        }
        assert live[..i + 1][..i] == live[..i];
        i := i + 1;
      }
      assert live[..|live|] == live;
    }

    /** One template-cache refresh pass over the enumerated templates. */
    method FetchSceneSnoData(enumerated: Read<seq<Option<SceneTemplate>>>) returns (ok: bool)
      modifies this`snoCache
      ensures enumerated.Threw? ==> !ok && snoCache == old(snoCache)
      ensures enumerated.Got? ==> CacheUpdate(snoCache, ok) == Refresh(old(snoCache), enumerated.value)
    {
      if enumerated.Threw? {
        return false;
      }
      var templates := enumerated.value;
      var newData: seq<SceneTemplate> := [];
      var i := 0;
      while i < |templates|
        invariant 0 <= i <= |templates|
        invariant newData == Pending(snoCache, templates[..i])
      {
        var slot := templates[i];
        if !(slot.None? || slot.value.sceneSnoId <= 0 || slot.value.sceneSnoId in snoCache) {
          newData := newData + [slot.value];
        }
        assert templates[..i + 1][..i] == templates[..i];
        i := i + 1;
      }
      assert templates[..|templates|] == templates;
      assert newData[0..] == newData;
      var j := 0;
      while j < |newData|
        invariant 0 <= j <= |newData|
        invariant InsertAll(snoCache, newData[j..]) == Refresh(old(snoCache), templates)
      {
        var data := newData[j];
        if data.sceneSnoId in snoCache {
          // `Dictionary.Add` throws on a key that is already present.
          return false;
        }
        assert newData[j..][1..] == newData[j + 1..];
        snoCache := snoCache[data.sceneSnoId := data];
        j := j + 1;
      }
      return true;
    }

    /** The apply phase over a snapshot batch: hands each scene's grid cell to the
        mesh in order, counts the cells the mesh accepted and records every scene's
        uid whatever the mesh answered. */
    method ApplyBatch(batch: seq<LiveScene>, add: AddOracle) returns (handed: seq<GridCell>, gridCellsAdded: nat)
      modifies this`processed
      ensures handed == GridCells(batch, snoCache)
      ensures gridCellsAdded == Accepted(add, handed)
      ensures processed == old(processed) + UidSet(batch)
    {
      gridCellsAdded := 0;
      handed := [];
      ghost var before := processed;
      ghost var recorded: set<SceneUid> := {};
      var i := 0;
      while i < |batch|
        invariant 0 <= i <= |batch|
        invariant AppliedState(batch[..i], snoCache, add, handed, gridCellsAdded, recorded)
        invariant processed == before + recorded
      {
        var s := batch[i];
        var gridCell := BuildGridCell(s, snoCache);
        ApplyStep(batch, i, snoCache, add, handed, gridCellsAdded, recorded);
        if add(handed, gridCell) {
          gridCellsAdded := gridCellsAdded + 1;
        }
        handed := handed + [gridCell];
        processed := processed + {s.uid};
        recorded := recorded + {s.uid};
        i := i + 1;
      }
      assert batch[..|batch|] == batch;
    }

    /** One grid-assembly pass: the snapshot phase, then the apply phase, then one
        notification of the exploration engine if any cell was accepted. */
    method FetchSceneData(live: Read<seq<Option<LiveScene>>>, add: AddOracle) returns (outcome: Read<Batch>)
      modifies this`processed
      ensures live.Threw? ==> outcome == Threw && processed == old(processed)
      ensures live.Got? ==>
        var batch := Admitted(live.value, allowedAreas, allowedGridCells, old(processed));
        var cells := GridCells(batch, snoCache);
        && outcome == Got(Batch(cells, Accepted(add, cells), Accepted(add, cells) > 0 && exploratorPresent))
        && processed == old(processed) + UidSet(batch)
    {
      if live.Threw? {
        return Threw;
      }
      var batch := SnapshotScenes(live.value);
      var handed, gridCellsAdded := ApplyBatch(batch, add);
      var notified := false;
      if gridCellsAdded > 0 && exploratorPresent {
        notified := true;
      }
      return Got(Batch(handed, gridCellsAdded, notified));
    }

    /** One tick of the nav-data loop. When the game is updating, the template
        refresh runs, and the grid assembly runs only if the refresh did not throw.
        The result is the assembly's batch, or None when none completed. */
    method FetchData(p: Probe, templates: Read<seq<Option<SceneTemplate>>>, live: Read<seq<Option<LiveScene>>>, add: AddOracle)
      returns (applied: Option<Batch>)
      modifies this`isLocalActorReady, this`lastFrame, this`snoCache, this`processed
      ensures var v := UpdatingStep(engineAttached, old(isLocalActorReady), old(lastFrame), p);
        isLocalActorReady == v.ready && lastFrame == v.lastFrame
      ensures !UpdatingStep(engineAttached, old(isLocalActorReady), old(lastFrame), p).updating ==>
        applied == None && snoCache == old(snoCache) && processed == old(processed)
      ensures UpdatingStep(engineAttached, old(isLocalActorReady), old(lastFrame), p).updating && templates.Threw? ==>
        applied == None && snoCache == old(snoCache) && processed == old(processed)
      ensures UpdatingStep(engineAttached, old(isLocalActorReady), old(lastFrame), p).updating && templates.Got? ==>
        var refresh := Refresh(old(snoCache), templates.value);
        && snoCache == refresh.cache
        && (!refresh.ok || live.Threw? ==> applied == None && processed == old(processed))
        && (refresh.ok && live.Got? ==>
              var batch := Admitted(live.value, allowedAreas, allowedGridCells, old(processed));
              var cells := GridCells(batch, snoCache);
              && applied == Some(Batch(cells, Accepted(add, cells), Accepted(add, cells) > 0 && exploratorPresent))
              && processed == old(processed) + UidSet(batch))
    {
      applied := None;
      var updating := IsUpdating(p);
      if updating {
        var ok := FetchSceneSnoData(templates);
        if ok {
          var outcome := FetchSceneData(live, add);
          if outcome.Got? {
            applied := Some(outcome.value);
          }
        }
      }
    }

    /** One tick of the danger loop: when the game is updating and danger regions are
        enabled, the qualifying actors' regions replace the published set in one
        assignment; a scan that throws leaves the published set as it was. */
    method FetchDangerRegions(p: Probe, actors: Read<seq<Actor>>)
      modifies this`isLocalActorReady, this`lastFrame, this`regions
      ensures var v := UpdatingStep(engineAttached, old(isLocalActorReady), old(lastFrame), p);
        isLocalActorReady == v.ready && lastFrame == v.lastFrame
      ensures regions ==
        if UpdatingStep(engineAttached, old(isLocalActorReady), old(lastFrame), p).updating && dangerRegionsEnabled && actors.Got?
        then ScanRegions(actors.value, Catalogue)
        else old(regions)
    {
      var updating := IsUpdating(p);
      if updating && dangerRegionsEnabled {
        if actors.Got? {
          var objects := Objects(actors.value, Catalogue);
          regions := CollectRegions(objects, Catalogue);
        }
      }
    }

    /** Writes both allow-lists and the processed set, each behind its count, then
        the base mesh's payload; the set is written in some order without repeats. */
    method Serialize(payload: seq<int>) returns (tokens: seq<int>, ghost order: seq<SceneUid>)
      ensures tokens == Encoding(allowedAreas, allowedGridCells, order, payload)
      ensures Distinct(order) && AsSet(order) == processed && |order| == |processed|
      ensures forall prior :: Decode(tokens, prior) == Decoded(allowedAreas, allowedGridCells, processed, Some(payload))
    {
      var areaTokens := WriteInts(allowedAreas);
      var gridCellTokens := WriteInts(allowedGridCells);
      var uidTokens;
      uidTokens, order := WriteUids(processed);
      tokens := areaTokens + gridCellTokens + uidTokens + payload;
      forall prior {
        RoundTrip(allowedAreas, allowedGridCells, order, payload, prior);
      }
    }

    /** Reads both allow-lists and the processed set back, clearing each first, and
        returns the tokens left for the base mesh, or None when the stream ended
        early (the fields then hold what was read up to that point). */
    method Deserialize(tokens: seq<int>) returns (payload: Option<seq<int>>)
      modifies this`allowedAreas, this`allowedGridCells, this`processed
      ensures Decoded(allowedAreas, allowedGridCells, processed, payload) == Decode(tokens, old(processed))
    {
      allowedAreas := [];
      allowedGridCells := [];
      var areas, p2, areasRead := ReadInts(tokens, 0);
      allowedAreas := areas;
      if !areasRead {
        DecodeStopsInAreas(tokens, old(processed));
        return None;
      }
      var gridCells, p3, gridCellsRead := ReadInts(tokens, p2);
      allowedGridCells := gridCells;
      if !gridCellsRead {
        DecodeStopsInGridCells(tokens, old(processed), p2);
        return None;
      }
      DecodeReachesUids(tokens, old(processed), p2, p3);
      processed := {};
      var uids, next, uidsRead := ReadUids(tokens, p3);
      processed := uids;
      if !uidsRead {
        return None;
      }
      return Some(tokens[next..]);
    }
  }

  /** The scan loop: each enumerated actor's first matching entry, when it has one,
      adds that entry's region around the actor to the set. */
  method CollectRegions(objects: seq<Actor>, catalogue: seq<DangerEntry>) returns (dangers: set<Region>)
    ensures dangers == RegionsOf(objects, catalogue)
  {
    dangers := {};
    var i := 0;
    while i < |objects|
      invariant 0 <= i <= |objects|
      invariant dangers == RegionsOf(objects[..i], catalogue)
    {
      var obj := objects[i];
      var data := FirstMatch(obj.name, catalogue);
      RegionsOfExtend(objects, i, catalogue);
      if data.Some? {
        dangers := dangers + {RegionFor(obj.pos, catalogue[data.value])};
      }
      i := i + 1;
    }
    assert objects[..|objects|] == objects;
  }

  /** A grid cell with a scene's extent and ids and the scene's cached template cells
      translated and numbered from zero is that scene's grid cell. */
  lemma BuiltCellIsGridCellFor(s: LiveScene, cache: map<int, SceneTemplate>, g: GridCell)
    requires g.min == s.min && g.max == s.max
    requires g.sceneSnoId == s.sceneSnoId && g.areaSnoId == s.areaSnoId && g.userData == s.areaSnoId
    requires s.sceneSnoId !in cache ==> g.cells == []
    requires s.sceneSnoId in cache ==> |g.cells| == |cache[s.sceneSnoId].cells|
    requires s.sceneSnoId in cache ==> forall i :: 0 <= i < |g.cells| ==>
      var c := cache[s.sceneSnoId].cells[i];
      g.cells[i] == Cell(c.min.Plus(s.min), c.max.Plus(s.min), c.flags, i)
    ensures g == GridCellFor(s, cache)
  {
    if s.sceneSnoId in cache {
      assert g.cells == Translated(cache[s.sceneSnoId].cells, s.min, 0);
    }
  }

  /** The apply phase's state after handing the cells of `done`: the cells handed in
      order, how many the mesh accepted, and the uids recorded. */
  predicate AppliedState(done: seq<LiveScene>, cache: map<int, SceneTemplate>, add: AddOracle,
                         handed: seq<GridCell>, count: nat, recorded: set<SceneUid>)
  {
    handed == GridCells(done, cache) && count == Accepted(add, handed) && recorded == UidSet(done)
  }

  /** One step of the apply phase extends the handed cells, the accepted count and the
      recorded uids by the next scene of the batch. */
  lemma ApplyStep(batch: seq<LiveScene>, i: nat, cache: map<int, SceneTemplate>, add: AddOracle,
                  handed: seq<GridCell>, count: nat, recorded: set<SceneUid>)
    requires i < |batch|
    requires AppliedState(batch[..i], cache, add, handed, count, recorded)
    ensures AppliedState(batch[..i + 1], cache, add, handed + [GridCellFor(batch[i], cache)],
                         count + (if add(handed, GridCellFor(batch[i], cache)) then 1 else 0),
                         recorded + {batch[i].uid})
  {
    var front := batch[..i];
    var g := GridCellFor(batch[i], cache);
    assert batch[..i + 1][..i] == front;
    assert GridCells(batch[..i + 1], cache) == handed + [g];
    assert (handed + [g])[..|handed|] == handed;
    assert Uids(batch[..i + 1]) == Uids(front) + [batch[i].uid];
  }
}
