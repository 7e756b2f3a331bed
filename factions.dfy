/** Small failure-compatible wrapper shared by the modules below. */
module Wrappers {
  datatype Option<+T> = None | Some(value: T)
}

/**
 * The fixed six-faction enumeration shared by the log watcher and the
 * calculator page, with the string keys that travel between them and a
 * record holding one value per faction.
 */
module Factions {
  import opened Wrappers

  datatype Faction = Steel | Arbiters | Suda | Perrin | Veil | Loka

  /** The calculator's `factions` array, in its order. */
  const AllFactions: seq<Faction> := [Steel, Arbiters, Suda, Perrin, Veil, Loka]

  lemma AllFactionsListsEachOnce(f: Faction)
    ensures f in AllFactions
    ensures multiset(AllFactions)[f] == 1
  {
  }

  /** The key string used by both processes (`'steel'`, `'arbiters'`, ...). */
  function Key(f: Faction): string
  {
    match f
    case Steel => "steel"
    case Arbiters => "arbiters"
    case Suda => "suda"
    case Perrin => "perrin"
    case Veil => "veil"
    case Loka => "loka"
  }

  /**
   * The `factions.includes(faction)` test of the standing-change handler:
   * a key names a faction exactly when it is one of the six key strings.
   */
  function FactionOfKey(key: string): (r: Option<Faction>)
    ensures r.Some? ==> Key(r.value) == key
    ensures forall f :: Key(f) == key ==> r == Some(f)
  {
    if key == "steel" then Some(Steel)
    else if key == "arbiters" then Some(Arbiters)
    else if key == "suda" then Some(Suda)
    else if key == "perrin" then Some(Perrin)
    else if key == "veil" then Some(Veil)
    else if key == "loka" then Some(Loka)
    else None
  }

  /**
   * One value per faction, like the `{ steel: 0, arbiters: 0, ... }` object
   * literals of the calculator: every faction is always present.
   */
  datatype PerFaction<T> = PerFaction(steel: T, arbiters: T, suda: T, perrin: T, veil: T, loka: T)
  {
    function Get(f: Faction): T
    {
      match f
      case Steel => steel
      case Arbiters => arbiters
      case Suda => suda
      case Perrin => perrin
      case Veil => veil
      case Loka => loka
    }

    /** Overwrites the value of one faction; the other five are kept. */
    function Set(f: Faction, v: T): (r: PerFaction<T>)
      ensures r.Get(f) == v
      ensures forall g :: g != f ==> r.Get(g) == Get(g)
    {
      match f
      case Steel => this.(steel := v)
      case Arbiters => this.(arbiters := v)
      case Suda => this.(suda := v)
      case Perrin => this.(perrin := v)
      case Veil => this.(veil := v)
      case Loka => this.(loka := v)
    }
  }

  function Uniform<T>(v: T): (r: PerFaction<T>)
    ensures forall f :: r.Get(f) == v
  {
    PerFaction(v, v, v, v, v, v)
  }

  function Tabulate<T>(g: Faction -> T): (r: PerFaction<T>)
    ensures forall f :: r.Get(f) == g(f)
  {
    PerFaction(g(Steel), g(Arbiters), g(Suda), g(Perrin), g(Veil), g(Loka))
  }

  /** Two records are equal when they agree on every faction. */
  lemma PerFactionExtensional<T>(a: PerFaction<T>, b: PerFaction<T>)
    requires forall f :: a.Get(f) == b.Get(f)
    ensures a == b
  {
    assert a.Get(Steel) == b.Get(Steel) && a.Get(Arbiters) == b.Get(Arbiters);
    assert a.Get(Suda) == b.Get(Suda) && a.Get(Perrin) == b.Get(Perrin);
    assert a.Get(Veil) == b.Get(Veil) && a.Get(Loka) == b.Get(Loka);
  }
}
