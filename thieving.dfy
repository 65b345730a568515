/**
 * The thieving plugin's Master Farmer tracker: each game tick it looks
 * the farmer up and counts how many consecutive ticks the farmer has
 * stood on the same tile.
 */
module Thieving {
  import opened Wrappers
  import opened JavaInt

  datatype WorldPoint = WorldPoint(x: int, y: int, plane: int)

  /** An NPC found by the "Master Farmer" name query, with its location on that tick. */
  datatype Npc = Npc(index: int, worldLocation: WorldPoint)

  /** The plugin's three fields, as one value. */
  datatype FarmerState = FarmerState(masterFarmer: Option<Npc>, masterFarmerLastLocation: Option<WorldPoint>,
                                     ticksSinceMasterMoved: Int32)

  /** The state one `onTick` leaves, given the query result of that tick. */
  function Tick(s: FarmerState, result: seq<Npc>): (r: FarmerState)
    ensures r.masterFarmer == (if |result| >= 1 then Some(result[0]) else None)
    ensures r.masterFarmer.None? ==> r.masterFarmerLastLocation.None? && r.ticksSinceMasterMoved == s.ticksSinceMasterMoved
    ensures r.masterFarmer.Some? ==> r.masterFarmerLastLocation == Some(r.masterFarmer.value.worldLocation)
  {
    var farmer := if |result| >= 1 then Some(result[0]) else None;
    match farmer
    case None => FarmerState(None, None, s.ticksSinceMasterMoved)
    case Some(npc) =>
      var ticks :=
        if s.masterFarmerLastLocation.None? then s.ticksSinceMasterMoved
        else if s.masterFarmerLastLocation.value == npc.worldLocation then Add(s.ticksSinceMasterMoved, 1)
        else 0;
      FarmerState(farmer, Some(npc.worldLocation), ticks)
  }

  /** The counter on the first sighting, after staying put, and after a move. */
  lemma TickCounter(s: FarmerState, npc: Npc, rest: seq<Npc>)
    ensures var r := Tick(s, [npc] + rest);
      (s.masterFarmerLastLocation.None? ==> r.ticksSinceMasterMoved == s.ticksSinceMasterMoved) &&
      (s.masterFarmerLastLocation == Some(npc.worldLocation) ==>
         r.ticksSinceMasterMoved as int == s.ticksSinceMasterMoved as int + 1 || s.ticksSinceMasterMoved == MAX_INT) &&
      (s.masterFarmerLastLocation.Some? && s.masterFarmerLastLocation != Some(npc.worldLocation) ==>
         r.ticksSinceMasterMoved == 0)
  {}

  /** The states after each tick of a run, from `s`. */
  function Run(s: FarmerState, results: seq<seq<Npc>>): FarmerState
  {
    if results == [] then s else Tick(Run(s, results[..|results| - 1]), results[|results| - 1])
  }

  /** Every tick of the run finds the farmer at `at`. */
  predicate StaysAt(results: seq<seq<Npc>>, at: WorldPoint)
  {
    forall k :: 0 <= k < |results| ==> |results[k]| >= 1 && results[k][0].worldLocation == at
  }

  /**
   * Once the farmer has been seen at `at`, `k` more ticks at `at` add `k`
   * to the counter (with Java's wrap-around), and the last location stays `at`.
   */
  lemma {:induction false} StillFarmerCounts(s: FarmerState, at: WorldPoint, results: seq<seq<Npc>>)
    requires s.masterFarmerLastLocation == Some(at)
    requires StaysAt(results, at)
    ensures Run(s, results).masterFarmerLastLocation == Some(at)
    ensures Run(s, results).ticksSinceMasterMoved == Wrap(s.ticksSinceMasterMoved as int + |results|)
  {
    if results != [] {
      var n := |results| - 1;
      assert StaysAt(results[..n], at) by {
        forall k | 0 <= k < n ensures |results[..n][k]| >= 1 && results[..n][k][0].worldLocation == at {
          assert results[..n][k] == results[k];
        }
      }
      StillFarmerCounts(s, at, results[..n]);
      WrapAdd(s.ticksSinceMasterMoved as int + n, 1);
    }
  }

  /** Below 2^31 - 1 ticks the counter cannot wrap: a still farmer's counter is exactly the run length on top. */
  lemma StillFarmerNoWrap(s: FarmerState, at: WorldPoint, results: seq<seq<Npc>>)
    requires s.masterFarmerLastLocation == Some(at) && StaysAt(results, at)
    requires 0 <= s.ticksSinceMasterMoved as int + |results| <= MAX_INT
    ensures Run(s, results).ticksSinceMasterMoved as int == s.ticksSinceMasterMoved as int + |results|
  {
    StillFarmerCounts(s, at, results);
  }

  class ThievingPlugin {
    var masterFarmer: Option<Npc>
    var masterFarmerLastLocation: Option<WorldPoint>
    var ticksSinceMasterMoved: Int32

    function State(): FarmerState
      reads this
    {
      FarmerState(masterFarmer, masterFarmerLastLocation, ticksSinceMasterMoved)
    }

    constructor ()
      ensures State() == FarmerState(None, None, 0)
    {
      masterFarmer := None;
      masterFarmerLastLocation := None;
      ticksSinceMasterMoved := 0;
    }

    /** `onTick`, with `result` the answer of the "Master Farmer" query on this tick. */
    method OnTick(result: seq<Npc>)
      modifies this
      ensures State() == Tick(old(State()), result)
      ensures 0 <= old(ticksSinceMasterMoved) < MAX_INT ==> ticksSinceMasterMoved >= 0
    {
      masterFarmer := if |result| >= 1 then Some(result[0]) else None;
      if masterFarmer.Some? {
        if masterFarmerLastLocation.Some? {
          if masterFarmerLastLocation.value == masterFarmer.value.worldLocation {
            ticksSinceMasterMoved := Add(ticksSinceMasterMoved, 1);
          } else {
            ticksSinceMasterMoved := 0;
          }
        }
        masterFarmerLastLocation := Some(masterFarmer.value.worldLocation);
      } else {
        masterFarmerLastLocation := None;
      }
    }
  }
}
