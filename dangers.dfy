/** The danger scan's pure half: the hazard catalogue, which actors qualify, the
    first catalogue entry an actor's name matches, and the region set a scan builds. */
module Dangers {
  import opened Wrappers
  import opened Geometry

  /** The actor categories the scan looks at, with every other category as `OtherType`. */
  datatype ActorType = ServerProp | Monster | Projectile | CustomBrain | OtherType

  /** A live actor as enumerated: category, name and world position. */
  datatype Actor = Actor(actorType: ActorType, name: string, pos: Vec3)

  /** A hazard: a name fragment, a detection range and a movement-cost multiplier. */
  datatype DangerEntry = DangerEntry(name: string, range: real, moveCostMult: real)

  /** A published danger region: a box and the multiplier paths pay inside it. */
  datatype Region = Region(area: AABB, moveCostMult: real)

  /** The hazard catalogue, in lookup order (the commented-out
      "westmarchRanged_projectile" entry is not part of it). */
  const Catalogue: seq<DangerEntry> := [
    DangerEntry("sporeCloud_emitter", 15.0, 3.0),
    DangerEntry("ChargedBolt_Projectile", 7.0, 3.0),
    DangerEntry("monsterAffix_Desecrator_damage_AOE", 10.0, 3.0),
    DangerEntry("monsterAffix_Plagued", 15.0, 3.0),
    DangerEntry("monsterAffix_Molten_trail", 7.0, 3.0),
    DangerEntry("monsterAffix_Molten_death", 20.0, 3.0),
    DangerEntry("arcaneEnchantedDummy_spawn", 35.0, 3.0),
    DangerEntry("MonsterAffix_ArcaneEnchanted_PetSweep", 35.0, 3.0),
    DangerEntry("monsterAffix_frozen_iceClusters", 20.0, 3.0),
    DangerEntry("MonsterAffix_Orbiter", 7.0, 3.0),
    DangerEntry("MonsterAffix_frozenPulse", 15.0, 3.0),
    DangerEntry("MonsterAffix_CorpseBomber", 15.0, 3.0),
    DangerEntry("MorluSpellcaster_Meteor_Pending", 25.0, 3.0),
    DangerEntry("_Generic_AOE_", 25.0, 3.0),
    DangerEntry("ZoltunKulle_EnergyTwister", 20.0, 3.0),
    DangerEntry("Gluttony_gasCloud", 25.0, 3.0),
    DangerEntry("UberMaghda_Punish_", 20.0, 3.0),
    DangerEntry("Random_FallingRocks", 40.0, 3.0),
    DangerEntry("ringofFire_damageArea", 35.0, 3.0),
    DangerEntry("BoneCage_Proxy", 20.0, 3.0),
    DangerEntry("Brute_leap_telegraph", 20.0, 3.0),
    DangerEntry("creepMobArm", 20.0, 3.0),
    DangerEntry("Morlu_GroundBomb", 40.0, 3.0),
    DangerEntry("grenadier_proj_trail", 40.0, 3.0),
    DangerEntry("orbOfAnnihilation", 40.0, 3.0),
    DangerEntry("Corpulent_A", 25.0, 3.0)
  ]

  /** The catalogue holds 26 hazards, from the spore cloud to the corpulent monster,
      each with a positive range and the same tripled movement cost. */
  lemma CatalogueShape()
    ensures |Catalogue| == 26
    ensures Catalogue[0] == DangerEntry("sporeCloud_emitter", 15.0, 3.0)
    ensures Catalogue[25] == DangerEntry("Corpulent_A", 25.0, 3.0)
    ensures forall i :: 0 <= i < |Catalogue| ==> Catalogue[i].range > 0.0 && Catalogue[i].moveCostMult == 3.0
  {
  }

  /** `sub` occurs in `s` starting at index `i`. */
  predicate OccursAt(s: string, sub: string, i: int)
  {
    0 <= i && i + |sub| <= |s| && s[i..i + |sub|] == sub
  }

  /** Ordinal substring containment (`string.Contains`); the empty string is in every string. */
  predicate Contains(s: string, sub: string)
  {
    exists i | 0 <= i <= |s| :: OccursAt(s, sub, i)
  }

  /** The first catalogue entry at or after `k` whose name the actor's name contains. */
  function FirstMatchFrom(name: string, catalogue: seq<DangerEntry>, k: nat): (r: Option<nat>)
    requires k <= |catalogue|
    ensures r.Some? ==>
      && k <= r.value < |catalogue|
      && Contains(name, catalogue[r.value].name)
      && forall j :: k <= j < r.value ==> !Contains(name, catalogue[j].name)
    ensures r.None? ==> forall j :: k <= j < |catalogue| ==> !Contains(name, catalogue[j].name)
    decreases |catalogue| - k
  {
    if k == |catalogue| then None
    else if Contains(name, catalogue[k].name) then Some(k)
    else FirstMatchFrom(name, catalogue, k + 1)
  }

  /** The index `List.Find` picks: the first entry whose name occurs in `name`. */
  function FirstMatch(name: string, catalogue: seq<DangerEntry>): Option<nat>
  {
    FirstMatchFrom(name, catalogue, 0)
  }

  predicate IsDangerousType(t: ActorType)
  {
    t == ServerProp || t == Monster || t == Projectile || t == CustomBrain
  }

  /** The enumeration filter: a dangerous category and a name containing some
      catalogue name. */
  predicate Qualifies(a: Actor, catalogue: seq<DangerEntry>)
  {
    IsDangerousType(a.actorType) && exists j | 0 <= j < |catalogue| :: Contains(a.name, catalogue[j].name)
  }

  /** The region for an actor at `pos` and a hazard entry, with the vertical extent as
      computed: the lower corner subtracts `pos.z - 100` from `pos.z` and the upper
      corner adds `pos.z + 100` to it. */
  function RegionFor(pos: Vec3, e: DangerEntry): (r: Region)
    ensures r.moveCostMult == e.moveCostMult
    ensures r.area.min == Vec3(pos.x - e.range, pos.y - e.range, 100.0)
    ensures r.area.max == Vec3(pos.x + e.range, pos.y + e.range, 2.0 * pos.z + 100.0)
  {
    Region(AABB(pos.Minus(Vec3(e.range, e.range, pos.z - 100.0)), pos.Plus(Vec3(e.range, e.range, pos.z + 100.0))), e.moveCostMult)
  }

  /** The region one enumerated actor contributes, from its first matching entry. */
  function RegionOf(a: Actor, catalogue: seq<DangerEntry>): (r: Option<Region>)
    ensures r.Some? <==> exists j | 0 <= j < |catalogue| :: Contains(a.name, catalogue[j].name)
  {
    match FirstMatch(a.name, catalogue)
    case None => None
    case Some(k) => Some(RegionFor(a.pos, catalogue[k]))
  }

  /** The actors the enumeration yields, in enumeration order. */
  function Objects(actors: seq<Actor>, catalogue: seq<DangerEntry>): (objects: seq<Actor>)
    ensures |objects| <= |actors|
  {
    if actors == [] then []
    else
      var objects := Objects(actors[..|actors| - 1], catalogue);
      if Qualifies(actors[|actors| - 1], catalogue) then objects + [actors[|actors| - 1]] else objects
  }

  /** The set the scan loop builds from the enumerated actors. */
  function RegionsOf(objects: seq<Actor>, catalogue: seq<DangerEntry>): (regions: set<Region>)
    ensures |regions| <= |objects|
  {
    if objects == [] then {}
    else
      RegionsOf(objects[..|objects| - 1], catalogue) +
      match RegionOf(objects[|objects| - 1], catalogue) { case None => {} case Some(r) => {r} }
  }

  /** One more enumerated actor adds its region, if it has one, to the set built so far. */
  lemma RegionsOfExtend(objects: seq<Actor>, i: nat, catalogue: seq<DangerEntry>)
    requires i < |objects|
    ensures FirstMatch(objects[i].name, catalogue).None? ==>
      RegionsOf(objects[..i + 1], catalogue) == RegionsOf(objects[..i], catalogue)
    ensures FirstMatch(objects[i].name, catalogue).Some? ==>
      RegionsOf(objects[..i + 1], catalogue) ==
      RegionsOf(objects[..i], catalogue) + {RegionFor(objects[i].pos, catalogue[FirstMatch(objects[i].name, catalogue).value])}
  {
    assert objects[..i + 1][..i] == objects[..i];
  }

  /** The regions a whole scan publishes. */
  function ScanRegions(actors: seq<Actor>, catalogue: seq<DangerEntry>): (regions: set<Region>)
    ensures |regions| <= |actors|
  {
    RegionsOf(Objects(actors, catalogue), catalogue)
  }

  /** An actor passes the enumeration filter iff it is of a dangerous category and
      has a first match: with each actor's name read once, every enumerated actor
      contributes a region. */
  lemma QualifiesIffHasRegion(a: Actor, catalogue: seq<DangerEntry>)
    ensures Qualifies(a, catalogue) <==> IsDangerousType(a.actorType) && RegionOf(a, catalogue).Some?
  {
    if IsDangerousType(a.actorType) && RegionOf(a, catalogue).Some? {
      var k := FirstMatch(a.name, catalogue).value;
      assert Contains(a.name, catalogue[k].name);
    }
  }

  lemma {:induction false} ObjectsMembership(actors: seq<Actor>, catalogue: seq<DangerEntry>, a: Actor)
    ensures a in Objects(actors, catalogue) <==> a in actors && Qualifies(a, catalogue)
  {
    if actors != [] {
      var init := actors[..|actors| - 1];
      ObjectsMembership(init, catalogue, a);
      assert actors == init + [actors[|actors| - 1]];
    }
  }

  lemma {:induction false} RegionsOfMembership(objects: seq<Actor>, catalogue: seq<DangerEntry>, r: Region)
    ensures r in RegionsOf(objects, catalogue) <==> exists a :: a in objects && RegionOf(a, catalogue) == Some(r)
  {
    if objects != [] {
      var init := objects[..|objects| - 1];
      var last := objects[|objects| - 1];
      RegionsOfMembership(init, catalogue, r);
      assert objects == init + [last];
      if exists a :: a in objects && RegionOf(a, catalogue) == Some(r) {
        var a :| a in objects && RegionOf(a, catalogue) == Some(r);
        if a != last {
          assert a in init;
        }
      }
    }
  }

  /** A region is published iff some actor of a dangerous category produces it from
      the first catalogue entry its name contains; actors producing equal regions
      contribute one element. */
  lemma ScanRegionsMembership(actors: seq<Actor>, catalogue: seq<DangerEntry>, r: Region)
    ensures r in ScanRegions(actors, catalogue) <==>
      exists a :: a in actors && IsDangerousType(a.actorType) && RegionOf(a, catalogue) == Some(r)
  {
    var objects := Objects(actors, catalogue);
    RegionsOfMembership(objects, catalogue, r);
    if r in ScanRegions(actors, catalogue) {
      var a :| a in objects && RegionOf(a, catalogue) == Some(r);
      ObjectsMembership(actors, catalogue, a);
    }
    if exists a :: a in actors && IsDangerousType(a.actorType) && RegionOf(a, catalogue) == Some(r) {
      var a :| a in actors && IsDangerousType(a.actorType) && RegionOf(a, catalogue) == Some(r);
      QualifiesIffHasRegion(a, catalogue);
      ObjectsMembership(actors, catalogue, a);
    }
  }

  /** A scan that finds nothing publishes the empty set. */
  lemma {:induction false} NoQualifyingActorMeansNoRegions(actors: seq<Actor>, catalogue: seq<DangerEntry>)
    requires forall i :: 0 <= i < |actors| ==> !Qualifies(actors[i], catalogue)
    ensures ScanRegions(actors, catalogue) == {}
  {
    if actors != [] {
      var init := actors[..|actors| - 1];
      NoQualifyingActorMeansNoRegions(init, catalogue);
    }
  }

  /** An actor whose name contains two catalogue names takes the earlier entry: a name
      holding both "ChargedBolt_Projectile" (range 7) and "sporeCloud_emitter"
      (range 15) gets the range-15 region. */
  lemma FirstEntryWins(pos: Vec3)
    ensures FirstMatch("ChargedBolt_Projectile_sporeCloud_emitter", Catalogue) == Some(0)
    ensures RegionOf(Actor(Projectile, "ChargedBolt_Projectile_sporeCloud_emitter", pos), Catalogue)
      == Some(Region(AABB(Vec3(pos.x - 15.0, pos.y - 15.0, 100.0), Vec3(pos.x + 15.0, pos.y + 15.0, 2.0 * pos.z + 100.0)), 3.0))
  {
    var name := "ChargedBolt_Projectile_sporeCloud_emitter";
    var spores := Catalogue[0];
    assert spores == DangerEntry("sporeCloud_emitter", 15.0, 3.0);
    assert OccursAt(name, spores.name, 23);
    assert FirstMatchFrom(name, Catalogue, 0) == Some(0);
  }

  /** Two different actors at one position whose names first match the same entry
      yield equal regions, which the published set holds once. */
  lemma EqualRegionsCollapse(pos: Vec3)
    ensures |ScanRegions([Actor(Monster, "sporeCloud_emitter", pos), Actor(ServerProp, "sporeCloud_emitter_b", pos)], Catalogue)| == 1
  {
    var a := Actor(Monster, "sporeCloud_emitter", pos);
    var b := Actor(ServerProp, "sporeCloud_emitter_b", pos);
    assert OccursAt(a.name, Catalogue[0].name, 0);
    assert OccursAt(b.name, Catalogue[0].name, 0);
    assert FirstMatch(a.name, Catalogue) == Some(0);
    assert FirstMatch(b.name, Catalogue) == Some(0);
    assert Qualifies(a, Catalogue) && Qualifies(b, Catalogue);
    assert [a, b][..1] == [a];
    assert [a][..0] == [];
    assert Objects([a, b], Catalogue) == [a, b];
    assert RegionOf(a, Catalogue) == Some(RegionFor(pos, Catalogue[0]));
    assert RegionOf(b, Catalogue) == Some(RegionFor(pos, Catalogue[0]));
    assert RegionsOf([a], Catalogue) == {RegionFor(pos, Catalogue[0])};
    assert ScanRegions([a, b], Catalogue) == {RegionFor(pos, Catalogue[0])};
  }
}
