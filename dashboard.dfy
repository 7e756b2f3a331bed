/**
 * The calculator page's state (renderer.js): the current-balance and
 * farm-plan inputs, the projected table cells, the `standing-change`
 * handler that credits a parsed log event, and the bounded events log.
 *
 * The inputs and cells of the page become fields of a `Dashboard` object;
 * markup, colours, time stamps and the row highlight are not modelled.
 */
module Dashboard {
  import opened Wrappers
  import opened Factions
  import opened Projection
  import LogParser

  // ------------------------------------------------------ balance ledger

  /**
   * The ledger update of the `standing-change` handler: a known faction key
   * has `change` added to its current balance; an unknown key changes nothing.
   */
  function ApplyStandingChange(balances: PerFaction<real>, key: string, change: int): (r: PerFaction<real>)
    ensures FactionOfKey(key).None? ==> r == balances
    ensures forall f :: Key(f) == key ==> r.Get(f) == balances.Get(f) + change as real
    ensures forall f :: Key(f) != key ==> r.Get(f) == balances.Get(f)
  {
    match FactionOfKey(key)
    case None => balances
    case Some(f) => balances.Set(f, balances.Get(f) + change as real)
  }

  /** The balances after a run of parsed events, each sent with its faction's key. */
  function ApplyEvents(balances: PerFaction<real>, events: seq<LogParser.StandingEvent>): PerFaction<real>
  {
    if events == [] then balances
    else
      var e := events[|events| - 1];
      ApplyStandingChange(ApplyEvents(balances, events[..|events| - 1]), Key(e.faction), e.change)
  }

  /** The sum of the changes a run of events carries for faction `f`. */
  function ChangesFor(events: seq<LogParser.StandingEvent>, f: Faction): int
  {
    if events == [] then 0
    else
      var e := events[|events| - 1];
      ChangesFor(events[..|events| - 1], f) + (if e.faction == f then e.change else 0)
  }

  /** After a run of events every faction's balance has grown by exactly the sum of its own changes. */
  lemma {:induction false} EventsCreditTheirFaction(balances: PerFaction<real>, events: seq<LogParser.StandingEvent>, f: Faction)
    ensures ApplyEvents(balances, events).Get(f) == balances.Get(f) + ChangesFor(events, f) as real
  {
    if events != [] {
      EventsCreditTheirFaction(balances, events[..|events| - 1], f);
      var e := events[|events| - 1];
      if e.faction != f {
        assert Key(e.faction) != Key(f);
      }
    }
  }

  // ----------------------------------------------------------- projection

  /** What the table shows for given inputs: every faction's net change, final total and class. */
  function Projections(current: PerFaction<real>, plan: PerFaction<real>): (r: PerFaction<Projected>)
    ensures forall t :: r.Get(t).net == NetChange(plan, t) && r.Get(t).total == current.Get(t) + NetChange(plan, t)
    ensures forall t :: r.Get(t).status == Classify(r.Get(t).total)
  {
    Tabulate(t => Project(current.Get(t), NetChange(plan, t)))
  }

  /** Cells filled faction by faction from the net changes are the projection of the inputs. */
  lemma FilledCellsProject(cells: PerFaction<Projected>, current: PerFaction<real>, plan: PerFaction<real>, net: PerFaction<real>)
    requires forall t :: net.Get(t) == NetChange(plan, t)
    requires forall k :: 0 <= k < |AllFactions| ==>
               cells.Get(AllFactions[k]) == Project(current.Get(AllFactions[k]), net.Get(AllFactions[k]))
    ensures cells == Projections(current, plan)
  {
    forall t
      ensures cells.Get(t) == Projections(current, plan).Get(t)
    {
      AllFactionsListsEachOnce(t);
    }
    PerFactionExtensional(cells, Projections(current, plan));
  }

  // ----------------------------------------------------------- events log

  /** One line of the events log: the faction and the signed change. */
  datatype LogEntry = LogEntry(faction: Faction, change: int)

  /** The events log keeps at most this many entries. */
  const MaxLogEntries: nat := 50

  function Min(a: int, b: int): int
  {
    if a < b then a else b
  }

  /**
   * `addEventToLog` on the list of entries, newest first: the new entry goes
   * on top and entries beyond the fiftieth are dropped from the bottom.
   */
  function PushCapped(log: seq<LogEntry>, e: LogEntry): (r: seq<LogEntry>)
    ensures |r| == Min(|log| + 1, MaxLogEntries)
    ensures r[0] == e
    ensures forall i :: 0 < i < |r| ==> r[i] == log[i - 1]
  {
    ([e] + log)[..Min(|log| + 1, MaxLogEntries)]
  }

  /** The entries in the opposite order: the last one first. */
  function Reversed(s: seq<LogEntry>): (r: seq<LogEntry>)
    ensures |r| == |s|
    ensures forall i :: 0 <= i < |s| ==> r[i] == s[|s| - 1 - i]
  {
    if s == [] then [] else [s[|s| - 1]] + Reversed(s[..|s| - 1])
  }

  /** The log after entries are added one by one, oldest first. */
  function PushAll(log: seq<LogEntry>, entries: seq<LogEntry>): seq<LogEntry>
  {
    if entries == [] then log
    else PushCapped(PushAll(log, entries[..|entries| - 1]), entries[|entries| - 1])
  }

  /**
   * However many entries arrive, the log shows the newest first, followed by
   * the older ones, and keeps only the first fifty of that order.
   */
  lemma {:induction false} LogKeepsNewestFifty(log: seq<LogEntry>, entries: seq<LogEntry>)
    requires |log| <= MaxLogEntries
    ensures PushAll(log, entries) == (Reversed(entries) + log)[..Min(|entries| + |log|, MaxLogEntries)]
  {
    if entries != [] {
      var init := entries[..|entries| - 1];
      var e := entries[|entries| - 1];
      LogKeepsNewestFifty(log, init);
      var all := Reversed(init) + log;
      var m := Min(|init| + |log|, MaxLogEntries);
      assert Reversed(entries) + log == [e] + all;
      assert [e] + all[..m] == ([e] + all)[..m + 1];
    }
  }

  // ------------------------------------------------------------ the page

  class Dashboard {
    /** The `curr-*` inputs. */
    var current: PerFaction<real>
    /** The `farm-*` inputs. */
    var farm: PerFaction<real>
    /** The `net-*` and `total-*` cells; `None` until the first calculation. */
    var shown: Option<PerFaction<Projected>>
    /** The entries of the events log, newest first. */
    var events: seq<LogEntry>

    /** The log is bounded and the table, once filled, reflects the inputs. */
    ghost predicate Valid()
      reads this
    {
      |events| <= MaxLogEntries
      && (shown.Some? ==> shown.value == Projections(current, farm))
    }

    /** The page as loaded, with the inputs' initial values. */
    constructor (current0: PerFaction<real>, farm0: PerFaction<real>)
      ensures Valid()
      ensures current == current0 && farm == farm0 && shown.None? && events == []
    {
      current := current0;
      farm := farm0;
      shown := None;
      events := [];
    }

    /**
     * `calculate`: accumulate the net changes of the farm plan, then write
     * each faction's net change, final total and class into its cells.
     */
    method Calculate()
      requires |events| <= MaxLogEntries
      modifies this
      ensures Valid()
      ensures shown == Some(Projections(current, farm))
      ensures current == old(current) && farm == old(farm) && events == old(events)
    {
      var net := AccumulateNetChanges(farm);
      var cells := Uniform(Projected(0.0, 0.0, Safe));
      for i := 0 to |AllFactions|
        invariant forall k :: 0 <= k < i ==>
                    cells.Get(AllFactions[k]) == Project(current.Get(AllFactions[k]), net.Get(AllFactions[k]))
      {
        var f := AllFactions[i];
        cells := cells.Set(f, Project(current.Get(f), net.Get(f)));
      }
      FilledCellsProject(cells, current, farm, net);
      shown := Some(cells);
    }

    /** `addEventToLog`: put the entry on top, then drop entries from the bottom while there are more than fifty. */
    method AddEventToLog(f: Faction, change: int)
      requires Valid()
      modifies this
      ensures Valid()
      ensures events == PushCapped(old(events), LogEntry(f, change))
      ensures current == old(current) && farm == old(farm) && shown == old(shown)
    {
      var all := [LogEntry(f, change)] + events;
      var log := all;
      while |log| > MaxLogEntries
        invariant Min(|all|, MaxLogEntries) <= |log| <= |all|
        invariant log == all[..|log|]
        decreases |log|
      {
        log := log[..|log| - 1];
      }
      events := log;
    }

    /** The clear button empties the events log. */
    method ClearEvents()
      requires Valid()
      modifies this
      ensures Valid()
      ensures events == [] && current == old(current) && farm == old(farm) && shown == old(shown)
    {
      events := [];
    }

    /**
     * The `standing-change` handler: for a known faction key, credit the
     * change, recalculate the table and log the event; an unknown key is
     * ignored.
     */
    method OnStandingChange(key: string, change: int)
      requires Valid()
      modifies this
      ensures Valid()
      ensures current == ApplyStandingChange(old(current), key, change) && farm == old(farm)
      ensures FactionOfKey(key).None? ==> events == old(events) && shown == old(shown)
      ensures FactionOfKey(key).Some? ==>
                events == PushCapped(old(events), LogEntry(FactionOfKey(key).value, change))
                && shown == Some(Projections(current, farm))
    {
      match FactionOfKey(key)
      case None =>
      case Some(f) =>
        current := current.Set(f, current.Get(f) + change as real);
        Calculate();
        AddEventToLog(f, change);
    }

    /** Typing into a `curr-*` input recalculates the table. */
    method EditCurrent(f: Faction, value: real)
      requires Valid()
      modifies this
      ensures Valid()
      ensures current == old(current).Set(f, value) && farm == old(farm) && events == old(events)
      ensures shown == Some(Projections(current, farm))
    {
      current := current.Set(f, value);
      Calculate();
    }

    /** Typing into a `farm-*` input recalculates the table. */
    method EditFarm(f: Faction, value: real)
      requires Valid()
      modifies this
      ensures Valid()
      ensures farm == old(farm).Set(f, value) && current == old(current) && events == old(events)
      ensures shown == Some(Projections(current, farm))
    {
      farm := farm.Set(f, value);
      Calculate();
    }
  }
}
