/**
 * The unit catalog (`UNIT_DEFS` in script.js): the five unit kinds and their
 * combat parameters. Descriptive fields (letter, colour, role, unlock text,
 * description) are not part of the model.
 */
module Catalog {
  import opened Options

  datatype UnitType = Walker | MiniWalker | Ranger | Marker | TeleZoom

  /**
   * Combat parameters of one kind. A field the catalog leaves absent for a
   * kind (a ranger's speed, a marker's damage, ...) is 0 here; the simulation
   * never reads such a field for that kind.
   */
  datatype UnitDef = UnitDef(
    cost: int,
    hp: real,
    speed: real,
    damage: real,
    attackRate: real,
    laserDps: real,
    deathExplosion: real,
    teleportDelay: real,
    teleportBlast: real)

  /** The catalog entry of a kind. */
  function Def(t: UnitType): (d: UnitDef)
    ensures d.cost > 0 && d.hp > 0.0 && d.speed >= 0.0 && d.damage >= 0.0
    ensures d.laserDps >= 0.0 && d.deathExplosion >= 0.0 && d.teleportBlast >= 0.0
    // exactly the three striking kinds have an attack rate, so 1 / attackRate is defined for them
    ensures d.attackRate > 0.0 <==> t == Walker || t == MiniWalker || t == Ranger
    ensures d.attackRate >= 0.0
  {
    match t
    case Walker =>
      UnitDef(100, 750.0, 0.5, 150.0, 1.0, 0.0, 0.0, 0.0, 0.0)
    case MiniWalker =>
      UnitDef(50, 150.0, 1.0, 75.0, 4.0, 0.0, 0.0, 0.0, 0.0)
    case Ranger =>
      UnitDef(125, 1500.0, 0.0, 75.0, 0.5, 0.0, 0.0, 0.0, 0.0)
    case Marker =>
      UnitDef(125, 300.0, 0.0, 0.0, 0.0, 250.0, 300.0, 0.0, 0.0)
    case TeleZoom =>
      UnitDef(100, 200.0, 2.0 / 3.0, 0.0, 0.0, 0.0, 0.0, 1.0, 400.0)
  }

  /** The key of a kind in the catalog. */
  function Name(t: UnitType): string {
    match t
    case Walker => "walker"
    case MiniWalker => "miniWalker"
    case Ranger => "ranger"
    case Marker => "marker"
    case TeleZoom => "teleZoom"
  }

  /** Catalog lookup by key: `None` for a key the catalog does not hold. */
  function TypeNamed(name: string): (r: Option<UnitType>)
    ensures r.Some? ==> Name(r.value) == name
    ensures r.None? ==> forall t: UnitType :: Name(t) != name
  {
    if name == "walker" then Some(Walker)
    else if name == "miniWalker" then Some(MiniWalker)
    else if name == "ranger" then Some(Ranger)
    else if name == "marker" then Some(Marker)
    else if name == "teleZoom" then Some(TeleZoom)
    else None
  }

  /** Looking up the key of a kind yields that kind. */
  lemma NameRoundTrip(t: UnitType)
    ensures TypeNamed(Name(t)) == Some(t)
  {
  }
}
