/** The two checks every tick runs before it touches the game's live data: the
    local-actor readiness latch and the object manager's frame-counter gate,
    each as a pure step from the old field values and what was read to the
    verdict and the new field values. */
module Liveness {
  import opened Wrappers

  /** The byte the game writes over its local-data structure while rewriting it. */
  const Rewriting: int := 0xCD

  /** A C# `(byte)` cast: the low eight bits of a two's-complement integer. */
  function LowByte(word: int): (b: int)
    ensures 0 <= b < 256
    ensures (word - b) % 256 == 0
  {
    word % 256
  }

  /** What one liveness check reads from the game: the local data's "not in game"
      status word and "actor created" flag, and the object manager's frame counter. */
  datatype Probe = Probe(notInGame: Read<int>, actorCreated: Read<int>, currentFrame: Read<int>)

  /** A status byte other than the rewriting sentinel decides the latch. */
  predicate Decisive(word: int)
  {
    LowByte(word) != Rewriting
  }

  /** The status bytes after which the actor-created flag is consulted at all. */
  predicate LetsActorThrough(ready: bool, word: int)
  {
    LowByte(word) == 0 || (LowByte(word) == Rewriting && ready)
  }

  datatype LatchVerdict = LatchVerdict(valid: Read<bool>, ready: bool)

  /** One evaluation of the local-actor check with an attached engine. */
  function LocalActorStep(ready: bool, notInGame: Read<int>, actorCreated: Read<int>): (v: LatchVerdict)
    ensures notInGame.Threw? ==> v == LatchVerdict(Threw, ready)
    ensures notInGame.Got? ==>
      v.ready == (if Decisive(notInGame.value) then LowByte(notInGame.value) == 0 else ready)
    ensures v.valid == Got(true) <==>
      notInGame.Got? && LetsActorThrough(ready, notInGame.value) && actorCreated == Got(1)
    ensures v.valid == Threw <==>
      notInGame.Threw? || (LetsActorThrough(ready, notInGame.value) && actorCreated.Threw?)
  {
    match notInGame
    case Threw => LatchVerdict(Threw, ready)
    case Got(word) =>
      var status := LowByte(word);
      if status == Rewriting && !ready then
        LatchVerdict(Got(false), ready)
      else if status != Rewriting && status != 0 then
        LatchVerdict(Got(false), false)
      else
        var ready' := if status == 0 then true else ready;
        match actorCreated
        case Threw => LatchVerdict(Threw, ready')
        case Got(flag) => LatchVerdict(Got(flag == 1), ready')
  }

  datatype FrameVerdict = FrameVerdict(isNew: bool, lastFrame: int)

  /** One evaluation of the frame gate on a frame counter that was read. */
  function FrameStep(lastFrame: int, currentFrame: int): (v: FrameVerdict)
    ensures v.isNew <==> currentFrame > lastFrame
    ensures v.lastFrame == currentFrame
  {
    if currentFrame == lastFrame then FrameVerdict(false, lastFrame)
    else if currentFrame < lastFrame then FrameVerdict(false, currentFrame)
    else FrameVerdict(true, currentFrame)
  }

  datatype UpdateVerdict = UpdateVerdict(updating: bool, ready: bool, lastFrame: int)

  /** The `IsUpdating` property: the latch, then (short-circuit) the frame gate,
      with any exception turned into "not updating". */
  function UpdatingStep(attached: bool, ready: bool, lastFrame: int, p: Probe): (v: UpdateVerdict)
    ensures !attached ==> v == UpdateVerdict(false, ready, lastFrame)
    ensures attached ==> v.ready == LocalActorStep(ready, p.notInGame, p.actorCreated).ready
    ensures v.updating <==>
      && attached
      && LocalActorStep(ready, p.notInGame, p.actorCreated).valid == Got(true)
      && p.currentFrame.Got?
      && p.currentFrame.value > lastFrame
    ensures v.lastFrame ==
      if attached && LocalActorStep(ready, p.notInGame, p.actorCreated).valid == Got(true) && p.currentFrame.Got?
      then p.currentFrame.value
      else lastFrame
  {
    if !attached then UpdateVerdict(false, ready, lastFrame)
    else
      var latch := LocalActorStep(ready, p.notInGame, p.actorCreated);
      if latch.valid != Got(true) then UpdateVerdict(false, latch.ready, lastFrame)
      else
        match p.currentFrame
        case Threw => UpdateVerdict(false, latch.ready, lastFrame)
        case Got(frame) =>
          var gate := FrameStep(lastFrame, frame);
          UpdateVerdict(gate.isNew, latch.ready, gate.lastFrame)
  }

  /** The gate's answers to a run of successive checks that each read a frame counter. */
  function FrameRun(lastFrame: int, frames: seq<int>): (answers: seq<bool>)
    ensures |answers| == |frames|
    decreases frames
  {
    if frames == [] then []
    else [FrameStep(lastFrame, frames[0]).isNew] + FrameRun(FrameStep(lastFrame, frames[0]).lastFrame, frames[1..])
  }

  /** Over any run, the gate opens exactly when the counter rose strictly above the
      one read just before (or above the stored counter, for the first check):
      regressions and repeats both close it, and a regression lowers the reference. */
  lemma {:induction false} FrameRunOpensOnStrictRise(lastFrame: int, frames: seq<int>, k: int)
    requires 0 <= k < |frames|
    decreases frames
    ensures FrameRun(lastFrame, frames)[k] <==> frames[k] > (if k == 0 then lastFrame else frames[k - 1])
  {
    if k > 0 {
      FrameRunOpensOnStrictRise(frames[0], frames[1..], k - 1);
      if k > 1 {
        assert frames[1..][k - 2] == frames[k - 1];
      }
    }
  }

  /** The stored counter after a run is the last counter read. */
  lemma {:induction false} FrameRunStoresLastFrame(lastFrame: int, frames: seq<int>)
    requires frames != []
    decreases frames
    ensures FrameRunLast(lastFrame, frames) == frames[|frames| - 1]
  {
    if |frames| > 1 {
      FrameRunStoresLastFrame(frames[0], frames[1..]);
    }
  }

  /** The stored counter after a run of checks. */
  function FrameRunLast(lastFrame: int, frames: seq<int>): int
    decreases frames
  {
    if frames == [] then lastFrame
    else FrameRunLast(FrameStep(lastFrame, frames[0]).lastFrame, frames[1..])
  }

  /** A drop from 100 to 40 (leaving and rejoining the world) keeps the gate shut on
      that check and on a repeat of 40; the next higher counter opens it again. */
  lemma RegressionIsNotUpdating()
    ensures FrameRun(100, [40, 40, 41]) == [false, false, true]
    ensures FrameRunLast(100, [40, 40]) == 40
  {
  }

  /** The latch after a run of status words (the actor-created flag does not move it). */
  function LatchRun(ready: bool, words: seq<int>): bool
    decreases words
  {
    if words == [] then ready
    else LatchRun(LocalActorStep(ready, Got(words[0]), Got(1)).ready, words[1..])
  }

  /** The last status byte in a run that was not the rewriting sentinel, if any. */
  function LastDecisive(words: seq<int>): (r: Option<int>)
    ensures r.Some? ==> r.value != Rewriting && 0 <= r.value < 256
  {
    if words == [] then None
    else
      match LastDecisive(words[1..])
      case Some(b) => Some(b)
      case None => if Decisive(words[0]) then Some(LowByte(words[0])) else None
  }

  /** The latch remembers the last decisive status byte: it is set iff that byte
      was 0, and a run of sentinels only leaves it where it was. */
  lemma {:induction false} LatchFollowsLastDecisiveStatus(ready: bool, words: seq<int>)
    decreases words
    ensures LatchRun(ready, words) == match LastDecisive(words) { case None => ready case Some(b) => b == 0 }
  {
    if words != [] {
      LatchFollowsLastDecisiveStatus(LocalActorStep(ready, Got(words[0]), Got(1)).ready, words[1..]);
    }
  }

  /** Whenever `IsUpdating` answers yes, the actor was created, the status byte let
      it through, and the frame counter rose; the latch and the gate moved as stated. */
  lemma UpdatingMeansLiveAndNewFrame(attached: bool, ready: bool, lastFrame: int, p: Probe)
    requires UpdatingStep(attached, ready, lastFrame, p).updating
    ensures attached && p.notInGame.Got? && p.actorCreated == Got(1) && p.currentFrame.Got?
    ensures LowByte(p.notInGame.value) == 0 || (LowByte(p.notInGame.value) == Rewriting && ready)
    ensures p.currentFrame.value > lastFrame
    ensures UpdatingStep(attached, ready, lastFrame, p).lastFrame == p.currentFrame.value
    ensures UpdatingStep(attached, ready, lastFrame, p).ready
  {
  }
}
