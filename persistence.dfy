/** The navmesh's persisted state as a stream of int32 tokens: the allowed-area list,
    the allowed grid-cell list and the processed-scene set, each behind its count,
    followed by the base mesh's own payload. Decoding mirrors the reader exactly,
    including the state it leaves when the stream ends early. */
module Persistence {
  import opened Wrappers
  import opened Scenes

  /** How a uid writes itself: its two tokens. */
  function UidTokens(u: SceneUid): seq<int>
  {
    [u.part0, u.part1]
  }

  function EncodeUids(us: seq<SceneUid>): (ts: seq<int>)
    ensures |ts| == 2 * |us|
  {
    if us == [] then [] else UidTokens(us[0]) + EncodeUids(us[1..])
  }

  /** Every complete uid at the head of `ts`, in order. */
  function DecodeUids(ts: seq<int>): (us: seq<SceneUid>)
    ensures |us| == |ts| / 2
  {
    if |ts| < 2 then [] else [SceneUid(ts[0], ts[1])] + DecodeUids(ts[2..])
  }

  function AsSet(us: seq<SceneUid>): set<SceneUid>
  {
    set u | u in us
  }

  /** A count token as a `for (i = 0; i < count; ++i)` loop uses it: a negative
      count runs no iteration. */
  function Count(token: int): nat
  {
    if token < 0 then 0 else token
  }

  /** The serialized layout. */
  function Encoding(areas: seq<int>, gridCells: seq<int>, order: seq<SceneUid>, payload: seq<int>): (ts: seq<int>)
    ensures |ts| == 3 + |areas| + |gridCells| + 2 * |order| + |payload|
    ensures ts[0] == |areas| && ts[1 + |areas|] == |gridCells| && ts[2 + |areas| + |gridCells|] == |order|
    ensures ts[|ts| - |payload|..] == payload
  {
    [|areas|] + areas + [|gridCells|] + gridCells + [|order|] + EncodeUids(order) + payload
  }

  /** The fields a deserialization leaves, and the tokens it hands to the base mesh
      (None when the stream ended early and the read threw). */
  datatype Decoded = Decoded(areas: seq<int>, gridCells: seq<int>, processed: set<SceneUid>, payload: Option<seq<int>>)

  /** Deserialization from `ts` with `prior` as the processed set beforehand. Both
      lists are cleared first and filled token by token; the processed set is cleared
      only once both lists are read. */
  function Decode(ts: seq<int>, prior: set<SceneUid>): (r: Decoded)
    ensures |r.areas| + |r.gridCells| <= |ts|
    ensures r.payload.Some? ==> |r.payload.value| < |ts| && ts[|ts| - |r.payload.value|..] == r.payload.value
    ensures r.payload.Some? ==> |r.areas| + |r.gridCells| + |r.payload.value| + 3 <= |ts|
  {
    if |ts| == 0 then Decoded([], [], prior, None)
    else
      var n1 := Count(ts[0]);
      if |ts| < 1 + n1 then Decoded(ts[1..], [], prior, None)
      else
        var areas := ts[1..1 + n1];
        var p2 := 1 + n1;
        if |ts| == p2 then Decoded(areas, [], prior, None)
        else
          var n2 := Count(ts[p2]);
          if |ts| < p2 + 1 + n2 then Decoded(areas, ts[p2 + 1..], prior, None)
          else
            var gridCells := ts[p2 + 1..p2 + 1 + n2];
            var p3 := p2 + 1 + n2;
            if |ts| == p3 then Decoded(areas, gridCells, {}, None)
            else
              var n3 := Count(ts[p3]);
              var body := ts[p3 + 1..];
              if |body| < 2 * n3 then Decoded(areas, gridCells, AsSet(DecodeUids(body)), None)
              else Decoded(areas, gridCells, AsSet(DecodeUids(body[..2 * n3])), Some(body[2 * n3..]))
  }

  /** Reading back the tokens of a sequence of uids yields that sequence. */
  lemma {:induction false} DecodeEncodeUids(us: seq<SceneUid>)
    ensures DecodeUids(EncodeUids(us)) == us
  {
    if us != [] {
      var ts := EncodeUids(us);
      DecodeEncodeUids(us[1..]);
      assert ts == UidTokens(us[0]) + EncodeUids(us[1..]);
      assert ts[2..] == EncodeUids(us[1..]);
    }
  }

  lemma {:induction false} EncodeUidsAppend(us: seq<SceneUid>, u: SceneUid)
    ensures EncodeUids(us + [u]) == EncodeUids(us) + UidTokens(u)
  {
    if us != [] {
      EncodeUidsAppend(us[1..], u);
      assert (us + [u])[1..] == us[1..] + [u];
    } else {
      assert us + [u] == [u];
    }
  }

  /** Round trip: reading what was written restores both lists, the processed set
      (whatever it was before) and hands the base mesh exactly its own payload. */
  lemma RoundTrip(areas: seq<int>, gridCells: seq<int>, order: seq<SceneUid>, payload: seq<int>, prior: set<SceneUid>)
    ensures Decode(Encoding(areas, gridCells, order, payload), prior) == Decoded(areas, gridCells, AsSet(order), Some(payload))
  {
    var ts := Encoding(areas, gridCells, order, payload);
    var p2 := 1 + |areas|;
    var p3 := p2 + 1 + |gridCells|;
    var body := EncodeUids(order) + payload;
    assert ts[0] == |areas|;
    assert ts[1..1 + |areas|] == areas;
    var head := [|areas|] + areas + [|gridCells|] + gridCells;
    assert ts == head + ([|order|] + body);
    assert ts[..p3] == head;
    assert ts[p2] == |gridCells|;
    assert ts[p2 + 1..p3] == head[p2 + 1..];
    assert ts[p3] == |order|;
    assert ts[p3 + 1..] == body;
    DecodeEncodeUids(order);
    assert body[..2 * |order|] == EncodeUids(order);
    assert body[2 * |order|..] == payload;
  }

  /** A stream cut anywhere before the base payload starts makes deserialization fail. */
  lemma TruncatedStreamFails(areas: seq<int>, gridCells: seq<int>, order: seq<SceneUid>, payload: seq<int>, k: nat, prior: set<SceneUid>)
    requires k < |Encoding(areas, gridCells, order, [])|
    ensures Decode(Encoding(areas, gridCells, order, payload)[..k], prior).payload == None
  {
    var ts := Encoding(areas, gridCells, order, payload)[..k];
    var p2 := 1 + |areas|;
    var p3 := p2 + 1 + |gridCells|;
    if k > 0 {
      assert ts[0] == |areas|;
      if k > p2 {
        assert ts[p2] == |gridCells|;
        if k > p3 {
          assert ts[p3] == |order|;
        }
      }
    }
  }

  /** A successful read does not depend on the processed set it replaced, so reading
      the same stream again leaves the same state. */
  lemma SuccessfulDecodeForgetsPrior(ts: seq<int>, prior: set<SceneUid>, prior': set<SceneUid>)
    requires Decode(ts, prior).payload.Some?
    ensures Decode(ts, prior') == Decode(ts, prior)
  {
  }

  /** A negative count reads as an empty list rather than an error. */
  lemma NegativeCountReadsNothing(rest: seq<int>)
    ensures Decode([-5, 0, 0] + rest, {}) == Decoded([], [], {}, Some(rest))
  {
    var ts := [-5, 0, 0] + rest;
    assert ts[3..] == rest;
    assert rest[..0] == [];
  }

  lemma {:induction false} DecodeUidsAppend(ts: seq<int>, a: int, b: int)
    requires |ts| % 2 == 0
    ensures DecodeUids(ts + [a, b]) == DecodeUids(ts) + [SceneUid(a, b)]
    decreases |ts|
  {
    if |ts| >= 2 {
      DecodeUidsAppend(ts[2..], a, b);
      assert (ts + [a, b])[2..] == ts[2..] + [a, b];
    } else {
      assert ts + [a, b] == [a, b];
    }
  }

  lemma {:induction false} DecodeUidsIgnoresOddToken(ts: seq<int>, a: int)
    requires |ts| % 2 == 0
    ensures DecodeUids(ts + [a]) == DecodeUids(ts)
    decreases |ts|
  {
    if |ts| >= 2 {
      DecodeUidsIgnoresOddToken(ts[2..], a);
      assert (ts + [a])[2..] == ts[2..] + [a];
    }
  }

  /** Reading one more whole uid from `ts[at..at + 2]` adds it to the set read so far. */
  lemma ReadStep(ts: seq<int>, first: nat, at: nat)
    requires first <= at && at + 2 <= |ts| && (at - first) % 2 == 0
    ensures AsSet(DecodeUids(ts[first..at + 2])) == AsSet(DecodeUids(ts[first..at])) + {SceneUid(ts[at], ts[at + 1])}
  {
    DecodeUidsAppend(ts[first..at], ts[at], ts[at + 1]);
    assert ts[first..at + 2] == ts[first..at] + [ts[at], ts[at + 1]];
    AsSetAppend(DecodeUids(ts[first..at]), SceneUid(ts[at], ts[at + 1]));
  }

  /** A lone last token, half of a uid, adds nothing to the set read so far. */
  lemma ReadOddTail(ts: seq<int>, first: nat, at: nat)
    requires first <= at && at + 1 == |ts| && (at - first) % 2 == 0
    ensures AsSet(DecodeUids(ts[first..])) == AsSet(DecodeUids(ts[first..at]))
  {
    DecodeUidsIgnoresOddToken(ts[first..at], ts[at]);
    assert ts[first..] == ts[first..at] + [ts[at]];
  }

  lemma AsSetAppend(us: seq<SceneUid>, u: SceneUid)
    ensures AsSet(us + [u]) == AsSet(us) + {u}
  {
  }

  /** A stream that ends inside the allowed-area list leaves the tokens read so far
      as that list, no grid cells and the processed set untouched. */
  lemma DecodeStopsInAreas(ts: seq<int>, prior: set<SceneUid>)
    requires |ts| < 1 || |ts| < 1 + Count(ts[0])
    ensures Decode(ts, prior) == Decoded(if |ts| == 0 then [] else ts[1..], [], prior, None)
  {
  }

  /** A stream that ends inside the grid-cell list keeps the complete area list. */
  lemma DecodeStopsInGridCells(ts: seq<int>, prior: set<SceneUid>, p2: nat)
    requires 0 < |ts| && p2 == 1 + Count(ts[0]) <= |ts|
    requires p2 == |ts| || |ts| < p2 + 1 + Count(ts[p2])
    ensures Decode(ts, prior) == Decoded(ts[1..p2], if p2 == |ts| then [] else ts[p2 + 1..], prior, None)
  {
  }

  /** Once both lists are complete the processed set is whatever the uid section holds. */
  lemma DecodeReachesUids(ts: seq<int>, prior: set<SceneUid>, p2: nat, p3: nat)
    requires 0 < |ts| && p2 == 1 + Count(ts[0]) < |ts|
    requires p3 == p2 + 1 + Count(ts[p2]) <= |ts|
    ensures p3 == |ts| ==> Decode(ts, prior) == Decoded(ts[1..p2], ts[p2 + 1..p3], {}, None)
    ensures p3 < |ts| ==>
      var body := ts[p3 + 1..];
      var n := Count(ts[p3]);
      Decode(ts, prior) ==
        if |body| < 2 * n then Decoded(ts[1..p2], ts[p2 + 1..p3], AsSet(DecodeUids(body)), None)
        else Decoded(ts[1..p2], ts[p2 + 1..p3], AsSet(DecodeUids(body[..2 * n])), Some(body[2 * n..]))
  {
  }

  /** Writes a list behind its count. */
  method WriteInts(xs: seq<int>) returns (tokens: seq<int>)
    ensures tokens == [|xs|] + xs
  {
    tokens := [|xs|];
    var i := 0;
    while i < |xs|
      invariant 0 <= i <= |xs|
      invariant tokens == [|xs|] + xs[..i]
    {
      tokens := tokens + [xs[i]];
      assert xs[..i + 1] == xs[..i] + [xs[i]];
      i := i + 1;
    }
    assert xs[..|xs|] == xs;
  }

  /** Part way through enumerating `uids`: `order` lists the members written so far,
      each once, and `rest` holds the others. */
  predicate Enumerating(uids: set<SceneUid>, order: seq<SceneUid>, rest: set<SceneUid>)
  {
    && AsSet(order) + rest == uids
    && AsSet(order) !! rest
    && Distinct(order)
    && |order| + |rest| == |uids|
  }

  lemma EnumerateStep(uids: set<SceneUid>, order: seq<SceneUid>, rest: set<SceneUid>, u: SceneUid)
    requires Enumerating(uids, order, rest) && u in rest
    ensures Enumerating(uids, order + [u], rest - {u})
  {
    assert AsSet(order + [u]) == AsSet(order) + {u};
    assert u !in order;
    forall i, j | 0 <= i < j < |order + [u]| ensures (order + [u])[i] != (order + [u])[j] {
      if j == |order| {
        assert (order + [u])[i] == order[i];
      }
    }
  }

  /** Writing one more member `u` keeps the enumeration invariant and extends the
      written tokens by `u`'s two. */
  lemma WriteStep(uids: set<SceneUid>, order: seq<SceneUid>, rest: set<SceneUid>, u: SceneUid, tokens: seq<int>)
    requires Enumerating(uids, order, rest) && u in rest
    requires tokens == [|uids|] + EncodeUids(order)
    ensures Enumerating(uids, order + [u], rest - {u})
    ensures tokens + UidTokens(u) == [|uids|] + EncodeUids(order + [u])
  {
    EnumerateStep(uids, order, rest, u);
    EncodeUidsAppend(order, u);
  }

  /** Writes a set of uids behind its count, enumerating it in some order `order`
      that lists each member exactly once. */
  method WriteUids(uids: set<SceneUid>) returns (tokens: seq<int>, ghost order: seq<SceneUid>)
    ensures tokens == [|order|] + EncodeUids(order)
    ensures Distinct(order) && AsSet(order) == uids && |order| == |uids|
    ensures tokens[0] == |uids| && AsSet(DecodeUids(tokens[1..])) == uids
  {
    tokens := [|uids|];
    var rest := uids;
    order := [];
    while rest != {}
      invariant Enumerating(uids, order, rest)
      invariant tokens == [|uids|] + EncodeUids(order)
      decreases |rest|
    {
      var u :| u in rest;
      WriteStep(uids, order, rest, u, tokens);
      tokens := tokens + UidTokens(u);
      order := order + [u];
      rest := rest - {u};
    }
    WrittenUidsReadBack(tokens, order, uids);
  }

  /** A count-prefixed encoding of an enumeration of `uids` reads back as `uids`. */
  lemma WrittenUidsReadBack(tokens: seq<int>, order: seq<SceneUid>, uids: set<SceneUid>)
    requires tokens == [|order|] + EncodeUids(order)
    requires AsSet(order) == uids && |order| == |uids|
    ensures tokens[0] == |uids| && AsSet(DecodeUids(tokens[1..])) == uids
  {
    DecodeEncodeUids(order);
    assert tokens[1..] == EncodeUids(order);
  }

  /** Reads a count at `start` and then that many tokens, as far as the stream goes;
      `complete` says whether every read succeeded. */
  method ReadInts(ts: seq<int>, start: nat) returns (xs: seq<int>, next: nat, complete: bool)
    requires start <= |ts|
    ensures start == |ts| ==> !complete && xs == []
    ensures start < |ts| ==> next == start + 1 + |xs| <= |ts|
    ensures start < |ts| ==> (complete <==> start + 1 + Count(ts[start]) <= |ts|)
    ensures start < |ts| && complete ==> xs == ts[start + 1..start + 1 + Count(ts[start])]
    ensures start < |ts| && !complete ==> xs == ts[start + 1..]
  {
    xs := [];
    next := start;
    if next >= |ts| {
      return xs, next, false;
    }
    var count := ts[next];
    next := next + 1;
    var i := 0;
    while i < count
      invariant 0 <= i <= Count(count)
      invariant next == start + 1 + i <= |ts|
      invariant xs == ts[start + 1..next]
    {
      if next >= |ts| {
        return xs, next, false;
      }
      xs := xs + [ts[next]];
      next := next + 1;
      i := i + 1;
    }
    complete := true;
  }

  /** Reads a count at `start` and then that many uids of two tokens each, as far as
      the stream goes; `complete` says whether every read succeeded. */
  method ReadUids(ts: seq<int>, start: nat) returns (uids: set<SceneUid>, next: nat, complete: bool)
    requires start <= |ts|
    ensures start == |ts| ==> !complete && uids == {}
    ensures start < |ts| ==>
      var body := ts[start + 1..];
      var n := Count(ts[start]);
      && (complete <==> 2 * n <= |body|)
      && (complete ==> next == start + 1 + 2 * n && uids == AsSet(DecodeUids(body[..2 * n])))
      && (!complete ==> uids == AsSet(DecodeUids(body)))
  {
    uids := {};
    next := start;
    if next >= |ts| {
      return uids, next, false;
    }
    var count := ts[next];
    next := next + 1;
    ghost var first := next;
    var i := 0;
    while i < count
      invariant 0 <= i <= Count(count)
      invariant next == first + 2 * i <= |ts|
      invariant uids == AsSet(DecodeUids(ts[first..next]))
    {
      if next >= |ts| {
        assert ts[first..] == ts[first..next];
        return uids, next, false;
      }
      var part0 := ts[next];
      next := next + 1;
      if next >= |ts| {
        ReadOddTail(ts, first, next - 1);
        return uids, next, false;
      }
      var part1 := ts[next];
      next := next + 1;
      ReadStep(ts, first, next - 2);
      uids := uids + {SceneUid(part0, part1)};
      i := i + 1;
    }
    assert ts[first..][..2 * Count(count)] == ts[first..next];
    complete := true;
  }
}
