/** The template (SNO) cache's growth in one refresh pass: a collection phase that
    keeps the enumerated templates with a positive id not yet cached, then an insert
    phase that adds them one by one, where inserting an id that is already a key
    fails (as `Dictionary.Add` throws) and leaves the entries added so far. */
module SnoCache {
  import opened Wrappers
  import opened Scenes

  /** Whether the collection phase keeps one enumerated template. */
  predicate IsNewTemplate(cache: map<int, SceneTemplate>, slot: Option<SceneTemplate>)
  {
    slot.Some? && slot.value.sceneSnoId > 0 && slot.value.sceneSnoId !in cache
  }

  /** The templates the collection phase keeps, in enumeration order, judged against
      the cache as it stood before the pass. */
  function Pending(cache: map<int, SceneTemplate>, enumerated: seq<Option<SceneTemplate>>): (pending: seq<SceneTemplate>)
    ensures |pending| <= |enumerated|
  {
    if enumerated == [] then []
    else
      var pending := Pending(cache, enumerated[..|enumerated| - 1]);
      if IsNewTemplate(cache, enumerated[|enumerated| - 1]) then pending + [enumerated[|enumerated| - 1].value] else pending
  }

  lemma {:induction false} PendingMembership(cache: map<int, SceneTemplate>, enumerated: seq<Option<SceneTemplate>>, t: SceneTemplate)
    ensures t in Pending(cache, enumerated) <==> Some(t) in enumerated && t.sceneSnoId > 0 && t.sceneSnoId !in cache
  {
    if enumerated != [] {
      var init := enumerated[..|enumerated| - 1];
      PendingMembership(cache, init, t);
      assert enumerated == init + [enumerated[|enumerated| - 1]];
    }
  }

  datatype CacheUpdate = CacheUpdate(cache: map<int, SceneTemplate>, ok: bool)

  /** The insert phase: add each pending template under its id, stopping with a
      failure at the first id that is already a key. */
  function InsertAll(cache: map<int, SceneTemplate>, pending: seq<SceneTemplate>): (r: CacheUpdate)
    ensures cache.Keys <= r.cache.Keys
    ensures |r.cache| <= |cache| + |pending|
    decreases |pending|
  {
    if pending == [] then CacheUpdate(cache, true)
    else if pending[0].sceneSnoId in cache then CacheUpdate(cache, false)
    else InsertAll(cache[pending[0].sceneSnoId := pending[0]], pending[1..])
  }

  /** One whole refresh pass over an enumeration that did not throw. */
  function Refresh(cache: map<int, SceneTemplate>, enumerated: seq<Option<SceneTemplate>>): (r: CacheUpdate)
    ensures cache.Keys <= r.cache.Keys
    ensures |r.cache| <= |cache| + |enumerated|
  {
    InsertAll(cache, Pending(cache, enumerated))
  }

  predicate DistinctIds(pending: seq<SceneTemplate>)
  {
    forall i, j :: 0 <= i < j < |pending| ==> pending[i].sceneSnoId != pending[j].sceneSnoId
  }

  function Ids(pending: seq<SceneTemplate>): set<int>
  {
    set t | t in pending :: t.sceneSnoId
  }

  /** Inserting never changes or drops an entry, and adds only keys of pending
      templates, each mapped to a pending template with that id. */
  lemma {:induction false} InsertAllGrows(cache: map<int, SceneTemplate>, pending: seq<SceneTemplate>)
    ensures forall k :: k in cache ==> k in InsertAll(cache, pending).cache && InsertAll(cache, pending).cache[k] == cache[k]
    ensures forall k :: k in InsertAll(cache, pending).cache && k !in cache ==>
      k in Ids(pending) && InsertAll(cache, pending).cache[k] in pending && InsertAll(cache, pending).cache[k].sceneSnoId == k
    decreases |pending|
  {
    if pending != [] && pending[0].sceneSnoId !in cache {
      var t := pending[0];
      InsertAllGrows(cache[t.sceneSnoId := t], pending[1..]);
      assert pending == [t] + pending[1..];
    }
  }

  /** The insert phase succeeds iff no pending id is already a key and no id is
      pending twice. */
  lemma {:induction false} InsertAllOkIff(cache: map<int, SceneTemplate>, pending: seq<SceneTemplate>)
    ensures InsertAll(cache, pending).ok <==>
      (forall i :: 0 <= i < |pending| ==> pending[i].sceneSnoId !in cache) && DistinctIds(pending)
    decreases |pending|
  {
    if pending != [] {
      var t := pending[0];
      var rest := pending[1..];
      if t.sceneSnoId !in cache {
        var cache' := cache[t.sceneSnoId := t];
        InsertAllOkIff(cache', rest);
        if InsertAll(cache, pending).ok {
          forall i | 0 <= i < |pending| ensures pending[i].sceneSnoId !in cache {
            if i > 0 { assert pending[i] == rest[i - 1]; }
          }
          forall i, j | 0 <= i < j < |pending| ensures pending[i].sceneSnoId != pending[j].sceneSnoId {
            assert pending[j] == rest[j - 1];
            if i > 0 { assert pending[i] == rest[i - 1]; }
          }
        }
        if (forall i :: 0 <= i < |pending| ==> pending[i].sceneSnoId !in cache) && DistinctIds(pending) {
          forall i | 0 <= i < |rest| ensures rest[i].sceneSnoId !in cache' {
            assert rest[i] == pending[i + 1];
          }
          forall i, j | 0 <= i < j < |rest| ensures rest[i].sceneSnoId != rest[j].sceneSnoId {
            assert rest[i] == pending[i + 1] && rest[j] == pending[j + 1];
          }
        }
      }
    }
  }

  /** After a successful insert phase every pending template is cached under its id. */
  lemma {:induction false} InsertAllCovers(cache: map<int, SceneTemplate>, pending: seq<SceneTemplate>)
    requires InsertAll(cache, pending).ok
    ensures forall t :: t in pending ==> t.sceneSnoId in InsertAll(cache, pending).cache
    decreases |pending|
  {
    if pending != [] {
      var t := pending[0];
      InsertAllCovers(cache[t.sceneSnoId := t], pending[1..]);
      InsertAllGrows(cache[t.sceneSnoId := t], pending[1..]);
      assert pending == [t] + pending[1..];
    }
  }

  /** A pass only grows the cache: existing entries keep their templates, and each
      new key is a positive id of an enumerated template stored under it. */
  lemma RefreshOnlyGrows(cache: map<int, SceneTemplate>, enumerated: seq<Option<SceneTemplate>>)
    ensures forall k :: k in cache ==> k in Refresh(cache, enumerated).cache && Refresh(cache, enumerated).cache[k] == cache[k]
    ensures forall k :: k in Refresh(cache, enumerated).cache && k !in cache ==>
      k > 0 && Some(Refresh(cache, enumerated).cache[k]) in enumerated && Refresh(cache, enumerated).cache[k].sceneSnoId == k
  {
    var pending := Pending(cache, enumerated);
    InsertAllGrows(cache, pending);
    forall k | k in Refresh(cache, enumerated).cache && k !in cache
      ensures k > 0 && Some(Refresh(cache, enumerated).cache[k]) in enumerated
    {
      PendingMembership(cache, enumerated, Refresh(cache, enumerated).cache[k]);
    }
  }

  /** After a successful pass every enumerated template with a positive id is a key. */
  lemma RefreshCovers(cache: map<int, SceneTemplate>, enumerated: seq<Option<SceneTemplate>>)
    requires Refresh(cache, enumerated).ok
    ensures forall t :: Some(t) in enumerated && t.sceneSnoId > 0 ==> t.sceneSnoId in Refresh(cache, enumerated).cache
  {
    var pending := Pending(cache, enumerated);
    InsertAllCovers(cache, pending);
    InsertAllGrows(cache, pending);
    forall t | Some(t) in enumerated && t.sceneSnoId > 0 ensures t.sceneSnoId in Refresh(cache, enumerated).cache {
      PendingMembership(cache, enumerated, t);
    }
  }

  /** A pass fails exactly when two collected templates share an id: the collection
      phase judges every entry against the cache as it stood before the pass. */
  lemma RefreshFailsIffRepeatedNewId(cache: map<int, SceneTemplate>, enumerated: seq<Option<SceneTemplate>>)
    ensures !Refresh(cache, enumerated).ok <==> !DistinctIds(Pending(cache, enumerated))
  {
    var pending := Pending(cache, enumerated);
    InsertAllOkIff(cache, pending);
    forall i | 0 <= i < |pending| ensures pending[i].sceneSnoId !in cache {
      PendingMembership(cache, enumerated, pending[i]);
    }
  }

  /** A new template enumerated twice in one pass is inserted once and then makes
      the second insert fail; the first insert stays. */
  lemma RepeatedNewTemplateFailsAfterInserting(t: SceneTemplate)
    requires t.sceneSnoId > 0
    ensures Refresh(map[], [Some(t), Some(t)]) == CacheUpdate(map[t.sceneSnoId := t], false)
  {
    assert [Some(t), Some(t)][..1] == [Some(t)];
    assert [Some(t)][..0] == [];
    assert Pending(map[], [Some(t), Some(t)]) == [t, t];
    assert [t, t][1..] == [t];
    assert InsertAll(map[t.sceneSnoId := t], [t]) == CacheUpdate(map[t.sceneSnoId := t], false);
  }
}
