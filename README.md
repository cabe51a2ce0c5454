# Nav.D3 navmesh bookkeeping, in Dafny

This project models the Diablo III specialisation of the navigation mesh
(`Nav/Nav.D3/Navmesh.cs`). Two timers drive it:

- the nav-data tick `FetchData` grows a cache of scene templates (SNO data) and
  folds every newly seen live scene into the mesh as a grid cell;
- the danger tick `FetchDangerRegions` republishes the regions around hazardous
  actors.

Both ticks first ask `IsUpdating`. It consults a local-actor readiness latch and
then a frame-counter gate. The mesh also persists its allow-lists and its
processed-scene set through a token stream.

The project has these modules:

- `Liveness`: the latch and the frame gate as pure steps.
- `Scenes`: scene admission, grid-cell assembly, and the processed-uid ledger
  over several ticks.
- `SnoCache`: the template-cache refresh pass.
- `Dangers`: the hazard catalogue, first-match selection and the region scan.
- `Persistence`: the serialized layout, its decoder, and the reading and writing
  loops.
- `NavD3`: the `Navmesh` class. Its fields are the ones the source updates in
  place, and each method is proved against the pure specification above it.

Reads of live game memory are inputs of type `Read<T>`. `Threw` stands for the
exception such a read can raise, and `Got(v)` for a value read. The base mesh's
`Add` is an oracle that sees the cells handed earlier in the same batch.

The danger region's vertical extent is not a fixed band around the actor. Line
364 builds `pos - (r, r, pos.Z - 100)` and `pos + (r, r, pos.Z + 100)`, so the
region's lower z is 100 and its upper z is `2 * pos.Z + 100`. The model builds
the region exactly so.

## Model

| member | source | states |
|---|---|---|
| Liveness.LowByte | Nav/Nav.D3/Navmesh.cs:387 | the `(byte)` cast yields a value in 0..255 congruent to the status word modulo 256 |
| Liveness.LocalActorStep | Nav/Nav.D3/Navmesh.cs:380-410 | a throwing status read throws and leaves the latch; a non-0xCD byte sets the latch iff it is 0; the answer is true iff the byte is 0 (or 0xCD while ready) and actor-created reads 1; it throws iff a consulted read throws |
| Liveness.FrameStep | Nav/Nav.D3/Navmesh.cs:412-434 | the gate answers "new frame" iff the counter is strictly above the stored one, and in every branch the stored counter becomes the counter read |
| Liveness.UpdatingStep | Nav/Nav.D3/Navmesh.cs:134-148 | no engine: false and nothing changes; otherwise the latch moves as `LocalActorStep`; updating iff the latch said true, the frame was read and it rose; the stored frame moves only when the latch passed and the frame was read |
| Liveness.FrameRunOpensOnStrictRise | Nav/Nav.D3/Navmesh.cs:422-433 | over any run of checks the gate opens at a check iff its counter exceeds the one read at the previous check (the stored one for the first) |
| Liveness.FrameRunStoresLastFrame | Nav/Nav.D3/Navmesh.cs:425-432 | after any non-empty run the stored counter is the last counter read, also after regressions |
| Liveness.RegressionIsNotUpdating | Nav/Nav.D3/Navmesh.cs:425-429 | a drop from 100 to 40 gives "not new" on that check and on a repeated 40, and 41 then opens the gate |
| Liveness.LatchFollowsLastDecisiveStatus | Nav/Nav.D3/Navmesh.cs:387-406 | after any run of status words the latch is set iff the last non-0xCD byte was 0, and is unchanged if all were 0xCD |
| Liveness.UpdatingMeansLiveAndNewFrame | Nav/Nav.D3/Navmesh.cs:134-148 | an "updating" answer implies an engine, status byte 0 (or 0xCD while ready), actor-created 1, a frame strictly above the stored one, a set latch and the stored frame raised to it |
| Scenes.Admitted | Nav/Nav.D3/Navmesh.cs:249-263 | the snapshot phase's batch is never longer than the live list; what it holds, and in which order, is stated by `AdmittedMembership` and `AdmittedKeepsOrder` |
| Scenes.AdmittedMembership | Nav/Nav.D3/Navmesh.cs:249-263 | a scene is in the batch iff it is a non-null slot of the live list with id >= 0, passes the allow-list rule of line 256 and its uid is not in the processed set |
| Scenes.AdmittedKeepsOrder | Nav/Nav.D3/Navmesh.cs:249-263 | the batch of a concatenated list is the concatenation of the batches, so admitted scenes keep enumeration order |
| Scenes.Translated | Nav/Nav.D3/Navmesh.cs:282-285 | one sub-cell per template cell in order, the i-th moved by the scene's min corner, with the same flags and id i |
| Scenes.GridCellForShape | Nav/Nav.D3/Navmesh.cs:272-286 | `GridCellFor` keeps the scene's extent and uses its area id as user data; without a cached template the cell has no sub-cells, with one it has one per template cell, moved by the scene's min corner, same flags, numbered from 0 |
| Scenes.GridCells | Nav/Nav.D3/Navmesh.cs:270-286 | one grid cell per admitted scene, in batch order, each the scene's grid cell |
| Scenes.Accepted | Nav/Nav.D3/Navmesh.cs:268-289 | the accepted-cell count never exceeds the number of cells handed |
| Scenes.AcceptedPositiveIffSomeAccepted | Nav/Nav.D3/Navmesh.cs:288-299 | the count is positive, and so notification can fire, iff some `Add` call returned true |
| Scenes.TranslationExample | Nav/Nav.D3/Navmesh.cs:284-285 | a template cell (0,0,0)-(10,10,5) in a scene at (100,200,0) becomes (100,200,0)-(110,210,5) with id 0 |
| Scenes.AdmittedUidsAreNew | Nav/Nav.D3/Navmesh.cs:259-260 | no admitted uid was already processed |
| Scenes.AdmittedUidsDistinct | Nav/Nav.D3/Navmesh.cs:259-262 | a live list without repeated uids yields a batch without repeated uids |
| Scenes.RunUids | Nav/Nav.D3/Navmesh.cs:243-302 | the uids folded over a run of ticks, each tick admitted against its own allow-lists and the ledger grown by the earlier ticks; its properties are stated by `NoSceneFoldedTwice` |
| Scenes.NoSceneFoldedTwice | Nav/Nav.D3/Navmesh.cs:259-291 | across any run of ticks, whatever allow-lists each tick sees, if no single tick's list repeats a uid then no uid is folded twice and none that was processed before the run |
| Scenes.RepeatWithinOneListIsAdmittedTwice | Nav/Nav.D3/Navmesh.cs:259-262 | the processed check uses the set as it stood before the tick, so a scene listed twice in one tick is admitted twice |
| SnoCache.Pending | Nav/Nav.D3/Navmesh.cs:213-227 | the collection phase keeps at most one template per enumerated slot; which ones is stated by `PendingMembership` |
| SnoCache.PendingMembership | Nav/Nav.D3/Navmesh.cs:217-227 | a template is collected iff it was enumerated non-null with id > 0 and its id was not cached before the pass |
| SnoCache.InsertAll | Nav/Nav.D3/Navmesh.cs:229-240 | the insert phase keeps every existing key and adds at most one key per pending template; `InsertAllGrows`, `InsertAllOkIff` and `InsertAllCovers` state the rest |
| SnoCache.InsertAllGrows | Nav/Nav.D3/Navmesh.cs:233-235 | inserting keeps every existing entry and adds only pending ids, each under a template with that id |
| SnoCache.InsertAllOkIff | Nav/Nav.D3/Navmesh.cs:233-235 | the insert phase completes iff no pending id is already a key and no id is pending twice |
| SnoCache.InsertAllCovers | Nav/Nav.D3/Navmesh.cs:233-235 | after a completed insert phase every pending id is a key |
| SnoCache.Refresh | Nav/Nav.D3/Navmesh.cs:209-241 | a pass keeps every existing key and adds at most one per enumerated slot; `RefreshOnlyGrows`, `RefreshCovers` and `RefreshFailsIffRepeatedNewId` state the rest |
| SnoCache.RefreshOnlyGrows | Nav/Nav.D3/Navmesh.cs:209-241 | a pass never drops or overwrites an entry, and every new key is a positive id of an enumerated template stored under it |
| SnoCache.RefreshCovers | Nav/Nav.D3/Navmesh.cs:209-241 | after a completed pass every enumerated template with id > 0 is cached |
| SnoCache.RefreshFailsIffRepeatedNewId | Nav/Nav.D3/Navmesh.cs:217-235 | a pass fails iff two collected templates share an id |
| SnoCache.RepeatedNewTemplateFailsAfterInserting | Nav/Nav.D3/Navmesh.cs:233-235 | a new template enumerated twice is inserted once and the second `Add` fails, the first insert staying |
| Dangers.CatalogueShape | Nav/Nav.D3/Navmesh.cs:318-344 | the `DANGERS` table as the constant `Catalogue`: 26 entries from `sporeCloud_emitter` (range 15) to `Corpulent_A` (range 25), every range positive and every cost multiplier 3; the entry commented out at line 343 is not in it |
| Dangers.FirstMatchFrom | Nav/Nav.D3/Navmesh.cs:360 | the result is the first catalogue index whose name the actor's name contains, or none when no entry is contained |
| Dangers.RegionFor | Nav/Nav.D3/Navmesh.cs:363-365 | the region spans x and y by the entry's range around the actor, z from 100 to 2·z+100, tagged with the entry's cost multiplier |
| Dangers.RegionOf | Nav/Nav.D3/Navmesh.cs:360-365 | an actor yields a region iff its name contains some catalogue name; the region is `RegionFor` of the first such entry |
| Dangers.QualifiesIffHasRegion | Nav/Nav.D3/Navmesh.cs:354-361 | an actor passes the enumeration filter iff it is of one of the four categories and has a first match |
| Dangers.Objects | Nav/Nav.D3/Navmesh.cs:354 | the enumeration yields at most the live actors; which ones is stated by `ObjectsMembership` |
| Dangers.ObjectsMembership | Nav/Nav.D3/Navmesh.cs:354 | an actor is enumerated iff it is live and qualifies |
| Dangers.RegionsOf | Nav/Nav.D3/Navmesh.cs:356-367 | the loop's set has at most one region per enumerated actor; which ones is stated by `RegionsOfMembership` |
| Dangers.RegionsOfMembership | Nav/Nav.D3/Navmesh.cs:356-367 | the loop's set holds exactly the regions of the enumerated actors |
| Dangers.ScanRegions | Nav/Nav.D3/Navmesh.cs:354-369 | a scan publishes at most one region per live actor; which ones is stated by `ScanRegionsMembership` |
| Dangers.ScanRegionsMembership | Nav/Nav.D3/Navmesh.cs:354-369 | a region is published iff some live actor of a dangerous category produces it from its first matching entry |
| Dangers.NoQualifyingActorMeansNoRegions | Nav/Nav.D3/Navmesh.cs:354-369 | with no qualifying actor the published set is empty |
| Dangers.FirstEntryWins | Nav/Nav.D3/Navmesh.cs:318-319 | a name containing two catalogue names takes the earlier entry's range |
| Dangers.EqualRegionsCollapse | Nav/Nav.D3/Navmesh.cs:356-365 | two actors producing equal regions contribute one element of the set |
| Persistence.Encoding | Nav/Nav.D3/Navmesh.cs:66-85 | the layout: the area count at the head, the grid-cell count after the areas, the uid count after the grid cells, two tokens per uid, and the base payload as the stream's tail; `RoundTrip` pairs it with `Decode` |
| Persistence.Decode | Nav/Nav.D3/Navmesh.cs:87-120 | reading never yields more list entries than the stream holds, and when it reaches the base mesh it hands over a tail of the stream after at least the three counts; `RoundTrip`, `TruncatedStreamFails`, `SuccessfulDecodeForgetsPrior` and `NegativeCountReadsNothing` state the rest |
| Persistence.DecodeEncodeUids | Nav/Nav.D3/Navmesh.cs:79-81 | the uids written in order are read back in order |
| Persistence.RoundTrip | Nav/Nav.D3/Navmesh.cs:66-120 | reading what was written restores both lists and the processed set, whatever the set was before, and hands the base mesh exactly its payload |
| Persistence.TruncatedStreamFails | Nav/Nav.D3/Navmesh.cs:95-116 | a stream cut before the base payload makes reading fail |
| Persistence.SuccessfulDecodeForgetsPrior | Nav/Nav.D3/Navmesh.cs:92-116 | a completed read does not depend on the processed set it replaced |
| Persistence.NegativeCountReadsNothing | Nav/Nav.D3/Navmesh.cs:95-97 | a negative count reads as an empty list, not an error |
| Persistence.DecodeUidsIgnoresOddToken | Nav/Nav.D3/Navmesh.cs:115-116 | a uid whose second token is missing adds nothing to the set |
| Persistence.WriteInts | Nav/Nav.D3/Navmesh.cs:71-77 | writes the count and then the list in order |
| Persistence.WriteUids | Nav/Nav.D3/Navmesh.cs:79-81 | writes the count and then every member of the set exactly once, in some order, so the uid section reads back as exactly the set |
| Persistence.ReadInts | Nav/Nav.D3/Navmesh.cs:95-109 | reads a count and that many tokens, none for a negative count; it completes iff the stream holds them all, otherwise it yields what remained |
| Persistence.ReadUids | Nav/Nav.D3/Navmesh.cs:113-116 | reads a count and that many uids; it completes iff the stream holds them all, otherwise it yields the complete uids that remained |
| NavD3.BuildGridCell | Nav/Nav.D3/Navmesh.cs:272-286 | the built cell is the scene's grid cell: its extent and ids with the translated, numbered template cells, or none without a cached template |
| NavD3.Navmesh.constructor | Nav/Nav.D3/Navmesh.cs:20-40 | a new mesh has frame 0, an unset latch, danger regions disabled, empty lists and set, and the loaded cache |
| NavD3.Navmesh.Clear | Nav/Nav.D3/Navmesh.cs:48-64 | both allow-lists and the processed set become empty and nothing else changes |
| NavD3.Navmesh.GetAllowedAreas | Nav/Nav.D3/Navmesh.cs:150-152 | returns a copy equal to the allowed-area list |
| NavD3.Navmesh.SetAllowedAreas | Nav/Nav.D3/Navmesh.cs:150-153 | the allowed-area list becomes the given list and nothing else changes |
| NavD3.Navmesh.GetAllowedGridCells | Nav/Nav.D3/Navmesh.cs:156-158 | returns a copy equal to the allowed grid-cell list |
| NavD3.Navmesh.SetAllowedGridCells | Nav/Nav.D3/Navmesh.cs:156-159 | the allowed grid-cell list becomes the given list and nothing else changes |
| NavD3.Navmesh.SetDangerRegionsEnabled | Nav/Nav.D3/Navmesh.cs:127 | the enable flag becomes the given value |
| NavD3.Navmesh.IsLocalActorValid | Nav/Nav.D3/Navmesh.cs:380-410 | no engine: false with the latch unchanged; otherwise the answer and the latch are those of `LocalActorStep` |
| NavD3.Navmesh.IsObjectManagerOnNewFrame | Nav/Nav.D3/Navmesh.cs:412-434 | no engine or a throwing read leaves the counter; otherwise the answer and the stored counter are those of `FrameStep` |
| NavD3.Navmesh.IsUpdating | Nav/Nav.D3/Navmesh.cs:134-148 | the answer, the latch and the stored frame are those of `UpdatingStep` |
| NavD3.Navmesh.SnapshotScenes | Nav/Nav.D3/Navmesh.cs:245-263 | the snapshot is exactly the admitted scenes of the live list, in order |
| NavD3.Navmesh.FetchSceneSnoData | Nav/Nav.D3/Navmesh.cs:209-241 | a throwing enumeration changes nothing; otherwise the cache and the success flag are those of `Refresh` on the cache before the pass |
| NavD3.Navmesh.ApplyBatch | Nav/Nav.D3/Navmesh.cs:266-292 | hands the batch's grid cells in order, counts the accepted ones, and adds every batch uid to the processed set |
| NavD3.Navmesh.FetchSceneData | Nav/Nav.D3/Navmesh.cs:243-302 | a throwing list changes nothing; otherwise the batch's grid cells are handed, the notification fires iff some cell was accepted and an explorator is present, and the processed set grows by exactly the batch's uids |
| NavD3.Navmesh.FetchData | Nav/Nav.D3/Navmesh.cs:186-207 | when not updating, nothing but the latch and frame changes; when updating, the cache refreshes, and grid assembly runs only if the refresh completed |
| NavD3.CollectRegions | Nav/Nav.D3/Navmesh.cs:356-367 | the scan loop builds exactly `RegionsOf` the enumerated actors |
| NavD3.Navmesh.FetchDangerRegions | Nav/Nav.D3/Navmesh.cs:346-378 | when updating and enabled and the scan does not throw, the published set becomes `ScanRegions` of the live actors; otherwise it is unchanged |
| NavD3.Navmesh.Serialize | Nav/Nav.D3/Navmesh.cs:66-85 | the stream is `Encoding` of both lists, an enumeration of the processed set listing each uid once, and the base payload; reading it back, over any prior processed set, restores both lists and the set and yields the payload |
| NavD3.Navmesh.Deserialize | Nav/Nav.D3/Navmesh.cs:87-120 | the lists, the processed set and the base payload are those of `Decode`, including the partial state a short stream leaves |

## Left out

- The timers, the two fetch locks, the reader/writer locks, `Start`, `Stop`, `Dispose` and the rescheduling after each tick (lines 27-37, 169-184, 205, 376). These exist only for concurrency between the two timer threads and foreground callers. One call of `FetchData` or `FetchDangerRegions` is one tick, run sequentially.
- The two ticks share the frame gate, so in the source each tick sees the other tick's frame updates. The model makes this explicit only in that both methods update the same `lastFrame` field; no interleaving is modelled.
- Reads of game memory through the Enigma library (lines 215, 249, 354, 385-387, 409, 417-420) are inputs of type `Read<T>`. A torn read that returns wrong values without throwing is just another input.
- Each actor and each template is read as one consistent value. The source re-reads live memory: an actor's name at lines 354 and 360, a template's id at lines 220 and 226. If the memory changes in between, an enumerated actor can find no entry at line 360 and be skipped by the null check at line 361, and a template can be collected under an id other than the one checked. The model does not capture these races.
- `LoadSnoCache` (lines 436-454) reads a directory and parses file names. It is replaced by the `loadedCache` constructor argument. `SceneSnoNavData.Save()` (line 236) writes files and is left out, including an exception it might raise.
- `AABB` and `region_data` are not part of this model. `new AABB(min, max)` at line 364 is taken to keep both corners exactly as given, with no reordering or validation. So for an actor with z below 0 the region's upper z, `2 * z + 100`, lies below its lower z of 100; with z = -100, for example, the upper z is -100. `HashSet<region_data>` at line 356 is taken to compare regions by value, meaning equal boxes and an equal cost multiplier. `EqualRegionsCollapse` relies on this.
- `SceneData`, `SceneData.uid`, `SceneSnoNavData`, `GridCell`, `Cell` and the base class `Nav.Navmesh` are not part of this model. Their fields are modelled as datatypes. A uid serializes as two tokens. The base `Add` is an oracle that never throws. The base `Clear`, `OnSerialize` and `OnDeserialize` are left out: the base payload is the tail of the token stream, and the base reader is assumed to consume all of it. The published `Regions` set starts empty.
- Logging, the profiler and the static `Current` singleton (lines 23, 39, 63, 162-167, 238, 296) are plumbing and are left out.
- `Vec3` is a triple of reals with exact componentwise `+` and `-`. Single-precision rounding is not modelled, so the lower z of a danger region is exactly 100.
- Persistence.Encoding: tokens are unbounded integers. The int32 width of the writer, and an overflow of a count above 2^31 - 1, are not modelled.
- NavD3.Navmesh.Serialize: the order in which the `HashSet` enumerates the processed set is an unspecified ghost output, not the runtime's actual order.
- NavD3.Navmesh.Deserialize: a truncated stream leaves the lists filled token by token. The model assigns each list once from the values its reader collected. The resulting state is the same, but intermediate states are not modelled.
- NavD3.Navmesh.FetchSceneData: `Add` never throws in the model. In the source, a throwing `Add` would end the batch with only part of the processed set grown and no notification.
