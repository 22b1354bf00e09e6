/** The reactive congestion control (TS 102 687 V1.2.1, clause 5.3 and annex A): five states,
    one step per evaluation towards the state of the measured channel load. */
module ReactiveDcc {
  import opened Outcomes

  /** RELAXED, ACTIVE_1, ACTIVE_2, ACTIVE_3, RESTRICTIVE. */
  type StateIndex = n: int | 0 <= n < 5

  datatype Config = Config(cbrMin: real, cbrMax: real, packetRateHz: real, tOffMs: real)

  const TABLE_A1 := [
    Config(0.0, 0.3, 10.0, 100.0), Config(0.3, 0.4, 5.0, 200.0), Config(0.4, 0.5, 2.5, 400.0),
    Config(0.5, 0.6, 2.0, 500.0), Config(0.6, 1.01, 1.0, 1000.0)]

  const TABLE_A2 := [
    Config(0.0, 0.3, 20.0, 50.0), Config(0.3, 0.4, 10.0, 100.0), Config(0.4, 0.5, 5.0, 200.0),
    Config(0.5, 0.65, 4.0, 250.0), Config(0.65, 1.01, 1.0, 1000.0)]

  predicate IsTable(table: seq<Config>) {
    table == TABLE_A1 || table == TABLE_A2
  }

  predicate InBand(table: seq<Config>, cbr: real, i: StateIndex)
    requires |table| == 5
  {
    table[i].cbrMin <= cbr < table[i].cbrMax
  }

  /** Every ratio lies in exactly one band. */
  lemma OneBand(table: seq<Config>, cbr: real)
    requires IsTable(table) && 0.0 <= cbr <= 1.0
    ensures exists i: StateIndex :: InBand(table, cbr, i)
    ensures forall i: StateIndex, j: StateIndex :: InBand(table, cbr, i) && InBand(table, cbr, j) ==> i == j
  {
    if cbr < table[0].cbrMax {
      assert InBand(table, cbr, 0);
    } else if cbr < table[1].cbrMax {
      assert InBand(table, cbr, 1);
    } else if cbr < table[2].cbrMax {
      assert InBand(table, cbr, 2);
    } else if cbr < table[3].cbrMax {
      assert InBand(table, cbr, 3);
    } else {
      assert InBand(table, cbr, 4);
    }
  }

  function Toward(state: StateIndex, target: StateIndex): StateIndex {
    if target > state then state + 1 else if target < state then state - 1 else state
  }

  class DccReactive {
    const table: seq<Config>
    var state: StateIndex

    constructor (tOnMaxUs: int)
      ensures IsTable(table) && table == (if tOnMaxUs <= 500 then TABLE_A2 else TABLE_A1) && state == 0
    {
      table := if tOnMaxUs <= 500 then TABLE_A2 else TABLE_A1;
      state := 0;
    }

    method TargetState(cbr: real) returns (target: StateIndex)
      requires IsTable(table) && 0.0 <= cbr <= 1.0
      ensures InBand(table, cbr, target)
    {
      target := 4;
      var i := 0;
      while i < |table|
        invariant 0 <= i <= |table|
        invariant forall j: StateIndex | j < i :: !InBand(table, cbr, j)
      {
        if table[i].cbrMin <= cbr < table[i].cbrMax {
          return i;
        }
        i := i + 1;
      }
      OneBand(table, cbr);
    }

    method Update(cbr: real) returns (r: Result<(StateIndex, real, real)>)
      requires IsTable(table)
      modifies this
      ensures r.Ok? <==> 0.0 <= cbr <= 1.0
      ensures r.Err? ==> r == Err(ValueError) && state == old(state)
      ensures r.Ok? ==> (exists target :: InBand(table, cbr, target) && state == Toward(old(state), target))
                        && r.value == (state, table[state].packetRateHz, table[state].tOffMs)
    {
      if !(0.0 <= cbr <= 1.0) {
        return Err(ValueError);
      }
      var target := TargetState(cbr);
      var current: int := state;
      if target > current {
        current := current + 1;
      } else if target < current {
        current := current - 1;
      }
      state := current;
      r := Ok((state, table[state].packetRateHz, table[state].tOffMs));
    }
  }

  // ---------------------------------------------------------------- runs

  function Target(table: seq<Config>, cbr: real): (i: StateIndex)
    requires IsTable(table) && 0.0 <= cbr <= 1.0
    ensures InBand(table, cbr, i)
  {
    OneBand(table, cbr);
    if cbr < table[0].cbrMax then 0
    else if cbr < table[1].cbrMax then 1
    else if cbr < table[2].cbrMax then 2
    else if cbr < table[3].cbrMax then 3
    else 4
  }

  predicate Ratios(cbrs: seq<real>) {
    forall i | 0 <= i < |cbrs| :: 0.0 <= cbrs[i] <= 1.0
  }

  function Run(table: seq<Config>, state: StateIndex, cbrs: seq<real>): StateIndex
    requires IsTable(table) && Ratios(cbrs)
  {
    if cbrs == [] then state
    else Toward(Run(table, state, cbrs[..|cbrs| - 1]), Target(table, cbrs[|cbrs| - 1]))
  }

  /** How far the state is from one it moves towards. */
  function Gap(state: StateIndex, target: StateIndex): nat {
    if state < target then target - state else state - target
  }

  lemma {:induction false} GapShrinks(table: seq<Config>, state: StateIndex, cbrs: seq<real>, band: StateIndex)
    requires IsTable(table) && Ratios(cbrs)
    requires forall i | 0 <= i < |cbrs| :: Target(table, cbrs[i]) == band
    ensures Gap(Run(table, state, cbrs), band) == if |cbrs| < Gap(state, band) then Gap(state, band) - |cbrs| else 0
  {
    hide Target, IsTable;
    if cbrs != [] {
      GapShrinks(table, state, cbrs[..|cbrs| - 1], band);
    }
  }

  /** A load that stays in one band brings the state to that band's state exactly when there were
      as many evaluations as states between: never more than four. */
  lemma SettlesExactly(table: seq<Config>, state: StateIndex, cbrs: seq<real>, band: StateIndex)
    requires IsTable(table) && Ratios(cbrs)
    requires forall i | 0 <= i < |cbrs| :: Target(table, cbrs[i]) == band
    ensures Run(table, state, cbrs) == band <==> |cbrs| >= Gap(state, band)
    ensures Gap(state, band) <= 4
  {
    hide Target, IsTable, Run;
    GapShrinks(table, state, cbrs, band);
  }

  lemma TargetMonotone(table: seq<Config>, x: real, y: real)
    requires IsTable(table) && 0.0 <= x <= y <= 1.0
    ensures Target(table, x) <= Target(table, y)
  {
  }

  lemma RatesOrdered(table: seq<Config>, i: StateIndex, j: StateIndex)
    requires IsTable(table) && i <= j
    ensures table[i].tOffMs <= table[j].tOffMs && table[i].packetRateHz >= table[j].packetRateHz
  {
  }

  /** Of two stations on the same table the more loaded one is never in the lower state, so its
      silence between packets is never the shorter. */
  lemma {:induction false} OrderPreserved(table: seq<Config>, s1: StateIndex, s2: StateIndex, cbrs1: seq<real>, cbrs2: seq<real>)
    requires IsTable(table) && Ratios(cbrs1) && Ratios(cbrs2) && |cbrs1| == |cbrs2| && s1 <= s2
    requires forall i | 0 <= i < |cbrs1| :: cbrs1[i] <= cbrs2[i]
    ensures var e1, e2 := Run(table, s1, cbrs1), Run(table, s2, cbrs2);
            e1 <= e2 && table[e1].tOffMs <= table[e2].tOffMs
  {
    hide Target;
    if cbrs1 != [] {
      var k := |cbrs1| - 1;
      OrderPreserved(table, s1, s2, cbrs1[..k], cbrs2[..k]);
      TargetMonotone(table, cbrs1[k], cbrs2[k]);
    }
    RatesOrdered(table, Run(table, s1, cbrs1), Run(table, s2, cbrs2));
  }
}
