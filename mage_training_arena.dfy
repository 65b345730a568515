/**
 * The Mage Training Arena plugin: it tracks which of the eight cupboards
 * of the Alchemists' Playground holds which item, which step of a
 * Telekinetic Theatre maze the guardian has reached (and the tiles to
 * highlight for it), and how many fruit the bones in the inventory of
 * the Creature Graveyard are worth.
 *
 * The game client, the query runner and the widgets are not modelled:
 * what the handlers read from them (query results, widget visibility, the
 * scene tiles of the current plane) is passed in as parameters.
 */
module MageTrainingArena {
  import opened Wrappers
  import opened JavaInt
  import opened JavaString
  import TP = TelekineticPuzzle
  import Cab = AlchemyRoomCabinet
  import Bones = GraveyardBone

  /* ---------------------------------------------------------------- */
  /* Alchemists' Playground                                            */
  /* ---------------------------------------------------------------- */

  datatype AlchemyRoomItem = ADAMANT_KITESHIELD | LEATHER_BOOTS | ADAMANT_MED_HELM | EMERALD | RUNE_LONGSWORD

  /** The display name each item is announced by in "You found: <name>". */
  function ItemName(i: AlchemyRoomItem): string
  {
    match i
    case ADAMANT_KITESHIELD => "Adamant kiteshield"
    case LEATHER_BOOTS => "Leather boots"
    case ADAMANT_MED_HELM => "Adamant med helm"
    case EMERALD => "Emerald"
    case RUNE_LONGSWORD => "Rune longsword"
  }

  /** One arrangement of the cupboards: a slot per cupboard, null where it is empty. */
  type Permutation = seq<Option<AlchemyRoomItem>>

  const AK: Option<AlchemyRoomItem> := Some(ADAMANT_KITESHIELD)
  const LB: Option<AlchemyRoomItem> := Some(LEATHER_BOOTS)
  const AMH: Option<AlchemyRoomItem> := Some(ADAMANT_MED_HELM)
  const EM: Option<AlchemyRoomItem> := Some(EMERALD)
  const RL: Option<AlchemyRoomItem> := Some(RUNE_LONGSWORD)
  const NO_ITEM: Option<AlchemyRoomItem> := None

  /** `alchemyPermutations`: the eight arrangements the room cycles through. */
  const ALCHEMY_PERMUTATIONS: seq<Permutation> := [
    [LB, NO_ITEM, NO_ITEM, NO_ITEM, RL, EM, AMH, AK],
    [AK, LB, NO_ITEM, NO_ITEM, NO_ITEM, RL, EM, AMH],
    [AMH, AK, LB, NO_ITEM, NO_ITEM, NO_ITEM, RL, EM],
    [EM, AMH, AK, LB, NO_ITEM, NO_ITEM, NO_ITEM, RL],
    [RL, EM, AMH, AK, LB, NO_ITEM, NO_ITEM, NO_ITEM],
    [NO_ITEM, RL, EM, AMH, AK, LB, NO_ITEM, NO_ITEM],
    [NO_ITEM, NO_ITEM, RL, EM, AMH, AK, LB, NO_ITEM],
    [NO_ITEM, NO_ITEM, NO_ITEM, RL, EM, AMH, AK, LB]
  ]

  function RotateRight(row: Permutation): (r: Permutation)
    requires |row| > 0
    ensures |r| == |row|
    ensures r[0] == row[|row| - 1]
    ensures forall i :: 1 <= i < |r| ==> r[i] == row[i - 1]
  {
    [row[|row| - 1]] + row[..|row| - 1]
  }

  /** Every arrangement is the previous one rotated right by one cupboard. */
  lemma RowsAreRotations()
    ensures |ALCHEMY_PERMUTATIONS| == 8
    ensures forall r :: 0 <= r < 8 ==> |ALCHEMY_PERMUTATIONS[r]| == 8
    ensures forall r :: 1 <= r < 8 ==> ALCHEMY_PERMUTATIONS[r] == RotateRight(ALCHEMY_PERMUTATIONS[r - 1])
  {
    var t := ALCHEMY_PERMUTATIONS;
    assert t[1] == RotateRight(t[0]);
    assert t[2] == RotateRight(t[1]);
    assert t[3] == RotateRight(t[2]);
    assert t[4] == RotateRight(t[3]);
    assert t[5] == RotateRight(t[4]);
    assert t[6] == RotateRight(t[5]);
    assert t[7] == RotateRight(t[6]);
  }

  /** Rotating an arrangement keeps its cupboard contents. */
  lemma RotatePreservesItems(row: Permutation)
    requires |row| > 0
    ensures multiset(RotateRight(row)) == multiset(row)
  {
    assert row == row[..|row| - 1] + [row[|row| - 1]];
  }

  /** The first arrangement holds the five items once and three empty cupboards. */
  lemma FirstRowContents()
    ensures multiset(ALCHEMY_PERMUTATIONS[0]) == multiset{AK, LB, AMH, EM, RL, NO_ITEM, NO_ITEM, NO_ITEM}
  {
    var row := ALCHEMY_PERMUTATIONS[0];
    assert row == [LB] + [NO_ITEM] + [NO_ITEM] + [NO_ITEM] + [RL] + [EM] + [AMH] + [AK];
  }

  /** Every arrangement holds each of the five items exactly once and three empty cupboards. */
  lemma {:induction false} RowContents(r: nat)
    requires r < 8
    ensures multiset(ALCHEMY_PERMUTATIONS[r]) == multiset{AK, LB, AMH, EM, RL, NO_ITEM, NO_ITEM, NO_ITEM}
  {
    if r == 0 {
      FirstRowContents();
    } else {
      RowContents(r - 1);
      RowsAreRotations();
      RotatePreservesItems(ALCHEMY_PERMUTATIONS[r - 1]);
    }
  }

  /** Slot `i` of arrangement `r` is slot `i - r` (mod 8) of the first arrangement. */
  lemma {:induction false} RowEntry(r: nat, i: nat)
    requires r < 8 && i < 8
    ensures |ALCHEMY_PERMUTATIONS[r]| == 8
    ensures ALCHEMY_PERMUTATIONS[r][i] == ALCHEMY_PERMUTATIONS[0][(i - r + 8) % 8]
  {
    RowsAreRotations();
    if r > 0 {
      var j := if i == 0 then 7 else i - 1;
      RowEntry(r - 1, j);
      assert ALCHEMY_PERMUTATIONS[r][i] == ALCHEMY_PERMUTATIONS[r - 1][j];
      assert (j - (r - 1) + 8) % 8 == (i - r + 8) % 8;
    }
  }

  /** An item seen in a given cupboard determines the arrangement. */
  lemma ColumnUnique(r1: nat, r2: nat, i: nat)
    requires r1 < 8 && r2 < 8 && i < 8
    requires ALCHEMY_PERMUTATIONS[r1][i] == ALCHEMY_PERMUTATIONS[r2][i] != None
    ensures r1 == r2
  {
    RowEntry(r1, i);
    RowEntry(r2, i);
  }

  predicate Names(entry: Option<AlchemyRoomItem>, item: string)
  {
    entry.Some? && EqualsIgnoreCase(ItemName(entry.value), item)
  }

  /** The first arrangement at or after `r` whose cupboard `arrayIndex` holds `item`. */
  function FindPermutationFrom(item: string, arrayIndex: nat, r: nat): (res: Option<nat>)
    requires arrayIndex < 8 && r <= 8
    ensures res.Some? ==> r <= res.value < 8 && Names(ALCHEMY_PERMUTATIONS[res.value][arrayIndex], item)
    ensures res.Some? ==> forall k :: r <= k < res.value ==> !Names(ALCHEMY_PERMUTATIONS[k][arrayIndex], item)
    ensures res.None? ==> forall k :: r <= k < 8 ==> !Names(ALCHEMY_PERMUTATIONS[k][arrayIndex], item)
    decreases 8 - r
  {
    if r == 8 then None
    else if Names(ALCHEMY_PERMUTATIONS[r][arrayIndex], item) then Some(r)
    else FindPermutationFrom(item, arrayIndex, r + 1)
  }

  /** `getPermutation(item, arrayIndex)`: the arrangement with `item` in that cupboard, or null. */
  function GetPermutation(item: string, arrayIndex: nat): (r: Option<Permutation>)
    requires arrayIndex < 8
    ensures r.Some? ==> r.value in ALCHEMY_PERMUTATIONS && Names(r.value[arrayIndex], item)
    ensures r.None? ==> forall k :: 0 <= k < 8 ==> !Names(ALCHEMY_PERMUTATIONS[k][arrayIndex], item)
  {
    match FindPermutationFrom(item, arrayIndex, 0)
    case None => None
    case Some(k) => Some(ALCHEMY_PERMUTATIONS[k])
  }

  /** The five display names have five different lengths. */
  lemma NameDeterminesItem(a: AlchemyRoomItem, b: AlchemyRoomItem, item: string)
    requires EqualsIgnoreCase(ItemName(a), item) && EqualsIgnoreCase(ItemName(b), item)
    ensures a == b
  {
    assert |ItemName(a)| == |item| == |ItemName(b)|;
  }

  /**
   * At most one arrangement matches, so the search is unambiguous: whenever
   * arrangement `r` has `item` in cupboard `arrayIndex`, that is the result.
   */
  lemma GetPermutationExact(item: string, arrayIndex: nat, r: nat)
    requires arrayIndex < 8 && r < 8
    requires Names(ALCHEMY_PERMUTATIONS[r][arrayIndex], item)
    ensures GetPermutation(item, arrayIndex) == Some(ALCHEMY_PERMUTATIONS[r])
  {
    var k := FindPermutationFrom(item, arrayIndex, 0);
    assert k.Some?;
    NameDeterminesItem(ALCHEMY_PERMUTATIONS[k.value][arrayIndex].value, ALCHEMY_PERMUTATIONS[r][arrayIndex].value, item);
    ColumnUnique(k.value, r, arrayIndex);
  }

  /** The slot `setupHashMap` gives a cupboard: west 0..3 in order, then east 3..0. */
  function PermutationSlot(c: Cab.Cabinet): (r: nat)
    ensures r < 8
  {
    match c
    case WEST_0 => 0
    case WEST_1 => 1
    case WEST_2 => 2
    case WEST_3 => 3
    case EAST_3 => 4
    case EAST_2 => 5
    case EAST_1 => 6
    case EAST_0 => 7
  }

  /** The eight cupboards occupy the eight slots, one each. */
  lemma PermutationSlotInjective(c: Cab.Cabinet, d: Cab.Cabinet)
    ensures PermutationSlot(c) == PermutationSlot(d) ==> c == d
  {}

  const FOUND: string := "You found: "
  const CUPBOARD_EMPTY: string := "The cupboard is empty."
  const ENTERED: string := "You've entered the Alchemists' Playground."

  /** `message.split("You found: ")[1]` on a message with nothing after the marker. */
  datatype ChatError = SplitIndexOutOfBounds

  /**
   * What a chat message does to the current arrangement, given the slot of
   * the cupboard clicked last (None when that object is not a cupboard).
   */
  function AfterChat(perm: Option<Permutation>, slot: Option<int>, message: string): (r: Result<Option<Permutation>, ChatError>)
    requires perm.Some? ==> perm.value in ALCHEMY_PERMUTATIONS
    requires slot.Some? ==> 0 <= slot.value < 8
    ensures r.Failure? ==> Contains(message, FOUND) && SplitSecond(message, FOUND).None?
    ensures r.Success? && r.value.Some? ==> r.value.value in ALCHEMY_PERMUTATIONS
  {
    var found := Contains(message, FOUND);
    var item := SplitSecond(message, FOUND);
    if found && item.None? then Failure(SplitIndexOutOfBounds)
    else if found && slot.None? then Success(perm)
    else
      var p1 := if found then GetPermutation(item.value, slot.value) else perm;
      var empty := EqualsIgnoreCase(message, CUPBOARD_EMPTY) && p1.Some?;
      if empty && slot.None? then Success(p1)
      else
        var p2 := if empty && p1.value[slot.value].Some? then None else p1;
        Success(if EqualsIgnoreCase(message, ENTERED) then None else p2)
  }

  /**
   * A message announcing a find is neither of the two fixed messages: it
   * has the colon of "You found: ", and neither of them has a colon.
   */
  lemma FoundIsNotFixedMessage(message: string)
    requires Contains(message, FOUND)
    ensures !EqualsIgnoreCase(message, CUPBOARD_EMPTY)
    ensures !EqualsIgnoreCase(message, ENTERED)
  {
    var i := IndexOf(message, FOUND).value;
    assert message[i..][..|FOUND|] == FOUND;
    assert message[i + 9] == ':';
    NoColon(message, CUPBOARD_EMPTY, i + 9);
    NoColon(message, ENTERED, i + 9);
  }

  /** A message with a colon in it is neither of the two colon-free fixed messages. */
  lemma NoColon(message: string, fixed: string, k: nat)
    requires fixed == CUPBOARD_EMPTY || fixed == ENTERED
    requires k < |message| && message[k] == ':'
    ensures !EqualsIgnoreCase(message, fixed)
  {
    assert ':' !in fixed;
  }

  /** "You found: X" in a known cupboard selects the arrangement with X in that cupboard. */
  lemma ChatFound(perm: Option<Permutation>, slot: int, message: string, item: string)
    requires perm.Some? ==> perm.value in ALCHEMY_PERMUTATIONS
    requires 0 <= slot < 8
    requires Contains(message, FOUND) && SplitSecond(message, FOUND) == Some(item)
    ensures AfterChat(perm, Some(slot), message) == Success(GetPermutation(item, slot))
  {
    FoundIsNotFixedMessage(message);
  }

  /** An empty cupboard rules out the arrangement only if that arrangement has an item there. */
  lemma ChatCupboardEmpty(perm: Permutation, slot: int, message: string)
    requires perm in ALCHEMY_PERMUTATIONS
    requires 0 <= slot < 8
    requires EqualsIgnoreCase(message, CUPBOARD_EMPTY)
    ensures AfterChat(Some(perm), Some(slot), message) == Success(if perm[slot].Some? then None else Some(perm))
  {
    if Contains(message, FOUND) {
      FoundIsNotFixedMessage(message);
    }
    assert |CUPBOARD_EMPTY| != |ENTERED|;
  }

  /** Entering the playground forgets the arrangement, whatever was clicked before. */
  lemma ChatEntered(perm: Option<Permutation>, slot: Option<int>, message: string)
    requires perm.Some? ==> perm.value in ALCHEMY_PERMUTATIONS
    requires slot.Some? ==> 0 <= slot.value < 8
    requires EqualsIgnoreCase(message, ENTERED)
    ensures AfterChat(perm, slot, message) == Success(None)
  {
    if Contains(message, FOUND) {
      FoundIsNotFixedMessage(message);
    }
    assert |CUPBOARD_EMPTY| != |ENTERED|;
  }

  /** When the last click was not on a cupboard, a find or an empty cupboard changes nothing. */
  lemma ChatUnknownCupboard(perm: Option<Permutation>, message: string)
    requires perm.Some? ==> perm.value in ALCHEMY_PERMUTATIONS
    requires Contains(message, FOUND) || EqualsIgnoreCase(message, CUPBOARD_EMPTY)
    ensures AfterChat(perm, None, message) == Success(perm) || AfterChat(perm, None, message).Failure?
  {
    if !Contains(message, FOUND) {
      assert |CUPBOARD_EMPTY| != |ENTERED|;
    }
  }

  /** Any other message changes nothing. */
  lemma ChatOther(perm: Option<Permutation>, slot: Option<int>, message: string)
    requires perm.Some? ==> perm.value in ALCHEMY_PERMUTATIONS
    requires slot.Some? ==> 0 <= slot.value < 8
    requires !Contains(message, FOUND)
    requires !EqualsIgnoreCase(message, CUPBOARD_EMPTY) && !EqualsIgnoreCase(message, ENTERED)
    ensures AfterChat(perm, slot, message) == Success(perm)
  {}

  /* ---------------------------------------------------------------- */
  /* Telekinetic Theatre                                               */
  /* ---------------------------------------------------------------- */

  datatype WorldPoint = WorldPoint(x: Int32, y: Int32, plane: int)

  /** A scene tile, known by its world location. */
  datatype Tile = Tile(worldLocation: WorldPoint)

  /** `worldToRelative`: the position within a 192-tile region, Java `%` (negative for negative input). */
  function WorldToRelative(world: int): (r: int)
    ensures -192 < r < 192
    ensures (r - world) % 192 == 0
    ensures world >= 0 ==> 0 <= r
    ensures world <= 0 ==> r <= 0
  {
    Rem(world, 192)
  }

  function RelativePoint(w: WorldPoint): TP.Point
  {
    TP.Point(WorldToRelative(w.x), WorldToRelative(w.y))
  }

  function Shift(p: TP.Point, offset: TP.Point): TP.Point
  {
    TP.Point(p.x + offset.x, p.y + offset.y)
  }

  /** The step the maze is on after the guardian was seen at `guardian` while on step `step`. */
  function NextStep(p: TP.Puzzle, step: nat, goal: WorldPoint, guardian: WorldPoint): (r: nat)
    requires step < |p.steps|
    ensures r == step || r == step + 1
    ensures r == step + 1 <==> RelativePoint(guardian) == Shift(RelativePoint(goal), p.steps[step].guardianTargetOffset)
    ensures r <= |p.steps|
  {
    if RelativePoint(guardian) == Shift(RelativePoint(goal), p.steps[step].guardianTargetOffset) then step + 1 else step
  }

  /** The four positions to highlight: this step's and the next step's targets. */
  datatype Targets = Targets(player: TP.Point, playerNext: Option<TP.Point>, guardian: TP.Point, guardianNext: Option<TP.Point>)

  function StepTargets(p: TP.Puzzle, step: nat, goal: TP.Point): (t: Targets)
    requires step < |p.steps|
    ensures t.playerNext.Some? <==> step + 1 < |p.steps|
    ensures t.guardianNext.Some? <==> step + 1 < |p.steps|
  {
    var next := if step + 1 < |p.steps| then Some(p.steps[step + 1]) else None;
    Targets(Shift(goal, p.steps[step].playerTargetOffset),
            if next.Some? then Some(Shift(goal, next.value.playerTargetOffset)) else None,
            Shift(goal, p.steps[step].guardianTargetOffset),
            if next.Some? then Some(Shift(goal, next.value.guardianTargetOffset)) else None)
  }

  datatype TargetSlot = PlayerCurrent | PlayerNext | GuardianCurrent | GuardianNext | NoSlot

  /** The one slot a tile at relative position `p` fills, highest priority first. */
  function Classify(p: TP.Point, t: Targets): (r: TargetSlot)
    ensures r == PlayerCurrent <==> p == t.player
    ensures r == PlayerNext <==> p != t.player && t.playerNext == Some(p)
    ensures r == GuardianCurrent <==> p != t.player && t.playerNext != Some(p) && p == t.guardian
    ensures r == GuardianNext <==>
      p != t.player && t.playerNext != Some(p) && p != t.guardian && t.guardianNext == Some(p)
  {
    if p == t.player then PlayerCurrent
    else if t.playerNext == Some(p) then PlayerNext
    else if p == t.guardian then GuardianCurrent
    else if t.guardianNext == Some(p) then GuardianNext
    else NoSlot
  }

  function TileSlot(tile: Tile, t: Targets): TargetSlot
  {
    Classify(RelativePoint(tile.worldLocation), t)
  }

  /** The index of the last tile of `tiles` that fills `slot`. */
  function LastWith(tiles: seq<Tile>, t: Targets, slot: TargetSlot): (r: Option<nat>)
    ensures r.Some? ==> r.value < |tiles|
  {
    if tiles == [] then None
    else if TileSlot(tiles[|tiles| - 1], t) == slot then Some(|tiles| - 1)
    else LastWith(tiles[..|tiles| - 1], t, slot)
  }

  /** `LastWith` finds the last tile that fills the slot, and None exactly when no tile does. */
  lemma {:induction false} LastWithSpec(tiles: seq<Tile>, t: Targets, slot: TargetSlot)
    ensures var r := LastWith(tiles, t, slot);
      (r.Some? ==> TileSlot(tiles[r.value], t) == slot) &&
      (r.Some? ==> forall j :: r.value < j < |tiles| ==> TileSlot(tiles[j], t) != slot) &&
      (r.None? ==> forall j :: 0 <= j < |tiles| ==> TileSlot(tiles[j], t) != slot)
  {
    if tiles != [] {
      var n := |tiles| - 1;
      LastWithSpec(tiles[..n], t, slot);
      assert forall j :: 0 <= j < n ==> tiles[..n][j] == tiles[j];
    }
  }

  /** The tile left in a slot after scanning `tiles`: the last one that fills it, else what was there. */
  function Fill(tiles: seq<Tile>, t: Targets, slot: TargetSlot, before: Option<Tile>): Option<Tile>
  {
    match LastWith(tiles, t, slot)
    case None => before
    case Some(k) => Some(tiles[k])
  }

  /** Scanning one more tile replaces the slot's tile exactly when that tile belongs in the slot. */
  lemma FillAppend(tiles: seq<Tile>, tile: Tile, t: Targets, slot: TargetSlot, before: Option<Tile>)
    ensures Fill(tiles + [tile], t, slot, before) ==
      if TileSlot(tile, t) == slot then Some(tile) else Fill(tiles, t, slot, before)
  {
    assert (tiles + [tile])[..|tiles|] == tiles;
  }

  /** Without a next step no tile fills a next-target slot, so the slot stays as it was before the scan. */
  lemma FillWithoutNext(tiles: seq<Tile>, t: Targets, before: Option<Tile>)
    requires t.playerNext.None? && t.guardianNext.None?
    ensures Fill(tiles, t, PlayerNext, before) == before
    ensures Fill(tiles, t, GuardianNext, before) == before
  {
    LastWithSpec(tiles, t, PlayerNext);
    LastWithSpec(tiles, t, GuardianNext);
    forall j | 0 <= j < |tiles|
      ensures TileSlot(tiles[j], t) != PlayerNext && TileSlot(tiles[j], t) != GuardianNext
    {
      var slot := Classify(RelativePoint(tiles[j].worldLocation), t);
    }
  }

  /** The four highlighted tiles: the player's current and next target, then the guardian's. */
  datatype TargetTiles = TargetTiles(player: Option<Tile>, playerNext: Option<Tile>,
                                     guardian: Option<Tile>, guardianNext: Option<Tile>)

  /** What one tile of the scan does: it replaces the slot `Classify` picks for it. */
  function Place(tile: Tile, t: Targets, shown: TargetTiles): (r: TargetTiles)
  {
    match TileSlot(tile, t)
    case PlayerCurrent => shown.(player := Some(tile))
    case PlayerNext => shown.(playerNext := Some(tile))
    case GuardianCurrent => shown.(guardian := Some(tile))
    case GuardianNext => shown.(guardianNext := Some(tile))
    case NoSlot => shown
  }

  /** What a whole scan leaves: in each slot the last tile on its target, else what was there. */
  function Scan(tiles: seq<Tile>, t: Targets, before: TargetTiles): TargetTiles
  {
    TargetTiles(Fill(tiles, t, PlayerCurrent, before.player),
                Fill(tiles, t, PlayerNext, before.playerNext),
                Fill(tiles, t, GuardianCurrent, before.guardian),
                Fill(tiles, t, GuardianNext, before.guardianNext))
  }

  /** The next-target slots are emptied before the scan when there is no next step. */
  function ClearNext(shown: TargetTiles, hasNext: bool): TargetTiles
  {
    if hasNext then shown else shown.(playerNext := None, guardianNext := None)
  }

  /**
   * The target tiles `findTargetTiles` leaves for step `step` of maze `p`,
   * starting from `before`: the scan stops at the first null entry of the
   * plane, where the source throws, so only the tiles before it are placed.
   */
  function ScanForStep(p: TP.Puzzle, step: nat, goal: WorldPoint, rows: seq<seq<Option<Tile>>>, before: TargetTiles): TargetTiles
    requires step < |p.steps|
  {
    Scan(TilesBeforeNull(Flatten(rows)), StepTargets(p, step, RelativePoint(goal)), ClearNext(before, step + 1 < |p.steps|))
  }

  /** Placing tiles one at a time computes the scan. */
  lemma ScanAppend(tiles: seq<Tile>, tile: Tile, t: Targets, before: TargetTiles)
    ensures Scan(tiles + [tile], t, before) == Place(tile, t, Scan(tiles, t, before))
  {
    FillAppend(tiles, tile, t, PlayerCurrent, before.player);
    FillAppend(tiles, tile, t, PlayerNext, before.playerNext);
    FillAppend(tiles, tile, t, GuardianCurrent, before.guardian);
    FillAppend(tiles, tile, t, GuardianNext, before.guardianNext);
  }

  /** A tile on no target leaves every slot as it was; a tile on a target changes that slot only. */
  lemma PlaceChangesOneSlot(tile: Tile, t: Targets, shown: TargetTiles)
    ensures TileSlot(tile, t) == NoSlot ==> Place(tile, t, shown) == shown
    ensures TileSlot(tile, t) == PlayerCurrent ==> Place(tile, t, shown) == shown.(player := Some(tile))
    ensures TileSlot(tile, t) == PlayerNext ==> Place(tile, t, shown) == shown.(playerNext := Some(tile))
    ensures TileSlot(tile, t) == GuardianCurrent ==> Place(tile, t, shown) == shown.(guardian := Some(tile))
    ensures TileSlot(tile, t) == GuardianNext ==> Place(tile, t, shown) == shown.(guardianNext := Some(tile))
  {}

  /** The entries of the current plane, row after row; an entry with no tile is null. */
  function Flatten(rows: seq<seq<Option<Tile>>>): (r: seq<Option<Tile>>)
  {
    if rows == [] then [] else Flatten(rows[..|rows| - 1]) + rows[|rows| - 1]
  }

  /** Flattening one more row appends its entries. */
  lemma FlattenAppend(rows: seq<seq<Option<Tile>>>, i: nat)
    requires i < |rows|
    ensures Flatten(rows[..i + 1]) == Flatten(rows[..i]) + rows[i]
  {
    assert rows[..i + 1][..i] == rows[..i];
  }

  /** The plane's entries split at any row boundary. */
  lemma {:induction false} FlattenSplit(rows: seq<seq<Option<Tile>>>, i: nat)
    requires i <= |rows|
    ensures Flatten(rows) == Flatten(rows[..i]) + Flatten(rows[i..])
    decreases |rows|
  {
    if i < |rows| {
      var n := |rows| - 1;
      FlattenSplit(rows[..n], i);
      assert rows[..n][..i] == rows[..i];
      assert rows[i..][..n - i] == rows[..n][i..];
      assert rows[i..][n - i] == rows[n];
    } else {
      assert rows[..i] == rows;
    }
  }

  /** The tiles a scan of `cells` reaches: those before the first null entry, where it throws. */
  function TilesBeforeNull(cells: seq<Option<Tile>>): (r: seq<Tile>)
    ensures |r| <= |cells|
    ensures forall k :: 0 <= k < |r| ==> cells[k] == Some(r[k])
    ensures |r| == |cells| || cells[|r|].None?
  {
    if cells == [] || cells[0].None? then [] else [cells[0].value] + TilesBeforeNull(cells[1..])
  }

  /** Scanning `a` then `b` reaches `b` only when `a` holds no null entry. */
  lemma {:induction false} TilesBeforeNullAppend(a: seq<Option<Tile>>, b: seq<Option<Tile>>)
    ensures TilesBeforeNull(a + b) == if None in a then TilesBeforeNull(a) else TilesBeforeNull(a) + TilesBeforeNull(b)
    decreases |a|
  {
    if a == [] {
      assert a + b == b;
    } else if a[0].None? {
      assert (a + b)[0] == a[0];
      assert None in a;
    } else {
      var ab := a + b;
      assert ab[0] == a[0] && ab[1..] == a[1..] + b;
      assert a == [a[0]] + a[1..];
      assert None in a <==> None in a[1..];
      TilesBeforeNullAppend(a[1..], b);
      assert TilesBeforeNull(ab) == [a[0].value] + TilesBeforeNull(a[1..] + b);
      assert TilesBeforeNull(a) == [a[0].value] + TilesBeforeNull(a[1..]);
    }
  }

  /** A non-null entry extends the tiles a scan of a row has reached by that tile. */
  lemma TilesBeforeNullStep(row: seq<Option<Tile>>, j: nat)
    requires j < |row| && None !in row[..j] && row[j].Some?
    ensures None !in row[..j + 1]
    ensures TilesBeforeNull(row[..j + 1]) == TilesBeforeNull(row[..j]) + [row[j].value]
  {
    assert row[..j + 1] == row[..j] + [row[j]];
    TilesBeforeNullAppend(row[..j], [row[j]]);
    assert TilesBeforeNull([row[j]]) == [row[j].value];
  }

  /** At the first null entry of a row the scan has reached all it ever will. */
  lemma TilesBeforeNullStop(row: seq<Option<Tile>>, j: nat)
    requires j < |row| && None !in row[..j] && row[j].None?
    ensures None in row
    ensures TilesBeforeNull(row) == TilesBeforeNull(row[..j])
  {
    assert row == row[..j] + row[j..];
    assert row[j..][0] == row[j];
    TilesBeforeNullAppend(row[..j], row[j..]);
  }

  /* ---------------------------------------------------------------- */
  /* Creature Graveyard                                                */
  /* ---------------------------------------------------------------- */

  /** The fruit one inventory item is worth: its bone's amount, or 0 if it is not a bone. */
  function FruitOf(itemId: int): (r: int)
    ensures 0 <= r <= 4
    ensures r > 0 <==> 6904 <= itemId <= 6907
  {
    Bones.GetBoneByIdRange(itemId);
    match Bones.GetBoneById(itemId)
    case None => 0
    case Some(b) => Bones.BoneFacts(b, b); Bones.FruitAmount(b)
  }

  function FruitSum(itemIds: seq<int>): int
  {
    if itemIds == [] then 0 else FruitSum(itemIds[..|itemIds| - 1]) + FruitOf(itemIds[|itemIds| - 1])
  }

  /** Each item adds between 0 and 4 fruit. */
  lemma {:induction false} FruitSumBounds(itemIds: seq<int>)
    ensures 0 <= FruitSum(itemIds) <= 4 * |itemIds|
  {
    if itemIds != [] {
      FruitSumBounds(itemIds[..|itemIds| - 1]);
    }
  }

  /** An inventory of at most 28 items cannot overflow the counter. */
  lemma FruitSumNoOverflow(itemIds: seq<int>)
    requires |itemIds| <= 28
    ensures Wrap(FruitSum(itemIds)) == FruitSum(itemIds)
  {
    FruitSumBounds(itemIds);
  }

  /** A cabinet object found by the per-tick query. */
  datatype GameObject = GameObject(id: int, location: WorldPoint)

  /** Every id in 23678..23693 belongs to a cupboard. */
  lemma CabinetIdsRange()
    ensures forall id :: Cab.GetCabinetById(id).Some? <==> 23678 <= id <= 23693
  {
    forall id
      ensures Cab.GetCabinetById(id).Some? <==> 23678 <= id <= 23693
    {
      Cab.GetCabinetByIdRange(id);
    }
  }

  /** The ids `getCabinetObjectIds` lists: each cupboard's closed id, then its open id, in `values()` order. */
  function CabinetObjectIds(): seq<int>
  {
    seq(2 * |Cab.VALUES|, k requires 0 <= k < 2 * |Cab.VALUES| =>
      if k % 2 == 0 then Cab.ClosedObjectId(Cab.VALUES[k / 2]) else Cab.OpenObjectId(Cab.VALUES[k / 2]))
  }

  /** The map `setupHashMap` is meant to build: each cupboard id to the slot of its cupboard. */
  function CabinetSlots(): (m: map<int, int>)
    ensures forall id :: id in m <==> Cab.GetCabinetById(id).Some?
    ensures forall id :: id in m ==> m[id] == PermutationSlot(Cab.GetCabinetById(id).value)
  {
    CabinetIdsRange();
    map id | 23678 <= id <= 23693 :: PermutationSlot(Cab.GetCabinetById(id).value)
  }

  /** Both ids of a cupboard lead to its slot. */
  lemma CabinetSlotsOf(c: Cab.Cabinet)
    ensures Cab.OpenObjectId(c) in CabinetSlots() && CabinetSlots()[Cab.OpenObjectId(c)] == PermutationSlot(c)
    ensures Cab.ClosedObjectId(c) in CabinetSlots() && CabinetSlots()[Cab.ClosedObjectId(c)] == PermutationSlot(c)
  {
    Cab.GetCabinetByIdExact(c);
  }

  /** The map the sixteen `put`s of `setupHashMap` leave, in their order. */
  function SetupPuts(): map<int, int>
  {
    map[][Cab.OpenObjectId(Cab.WEST_0) := 0][Cab.ClosedObjectId(Cab.WEST_0) := 0]
         [Cab.OpenObjectId(Cab.WEST_1) := 1][Cab.ClosedObjectId(Cab.WEST_1) := 1]
         [Cab.OpenObjectId(Cab.WEST_2) := 2][Cab.ClosedObjectId(Cab.WEST_2) := 2]
         [Cab.OpenObjectId(Cab.WEST_3) := 3][Cab.ClosedObjectId(Cab.WEST_3) := 3]
         [Cab.OpenObjectId(Cab.EAST_3) := 4][Cab.ClosedObjectId(Cab.EAST_3) := 4]
         [Cab.OpenObjectId(Cab.EAST_2) := 5][Cab.ClosedObjectId(Cab.EAST_2) := 5]
         [Cab.OpenObjectId(Cab.EAST_1) := 6][Cab.ClosedObjectId(Cab.EAST_1) := 6]
         [Cab.OpenObjectId(Cab.EAST_0) := 7][Cab.ClosedObjectId(Cab.EAST_0) := 7]
  }

  /** Both object ids of a cupboard map to its arrangement column. */
  lemma SetupPutsOf(c: Cab.Cabinet)
    ensures Cab.OpenObjectId(c) in SetupPuts() && SetupPuts()[Cab.OpenObjectId(c)] == PermutationSlot(c)
    ensures Cab.ClosedObjectId(c) in SetupPuts() && SetupPuts()[Cab.ClosedObjectId(c)] == PermutationSlot(c)
  {
    var m := SetupPuts();
    match c
    case WEST_0 => assert m[23684] == 0 && m[23685] == 0;
    case WEST_1 => assert m[23682] == 1 && m[23683] == 1;
    case WEST_2 => assert m[23680] == 2 && m[23681] == 2;
    case WEST_3 => assert m[23678] == 3 && m[23679] == 3;
    case EAST_0 => assert m[23686] == 7 && m[23687] == 7;
    case EAST_1 => assert m[23688] == 6 && m[23689] == 6;
    case EAST_2 => assert m[23690] == 5 && m[23691] == 5;
    case EAST_3 => assert m[23692] == 4 && m[23693] == 4;
  }

  /** Only the sixteen cupboard object ids are put in the map. */
  lemma SetupPutsDomain(id: int)
    requires id in SetupPuts()
    ensures 23678 <= id <= 23693
  {}

  /** On each of the sixteen ids the `put`s agree with the intended map. */
  lemma SetupPutsAt(id: int)
    requires 23678 <= id <= 23693
    ensures id in SetupPuts() && id in CabinetSlots() && SetupPuts()[id] == CabinetSlots()[id]
  {
    var c := CabinetOfId(id);
    SetupPutsOf(c);
    CabinetSlotsOf(c);
  }

  /** The sixteen `put`s of `setupHashMap`, in their order, build exactly `CabinetSlots()`. */
  lemma SetupPutsBuildCabinetSlots()
    ensures SetupPuts() == CabinetSlots()
  {
    var m, n := SetupPuts(), CabinetSlots();
    CabinetIdsRange();
    forall id | id in m
      ensures id in n
    {
      SetupPutsDomain(id);
    }
    forall id | id in n
      ensures id in m && m[id] == n[id]
    {
      SetupPutsAt(id);
    }
    assert m.Keys == n.Keys;
  }

  /* ---------------------------------------------------------------- */
  /* The plugin                                                        */
  /* ---------------------------------------------------------------- */

  class MageTrainingArenaPlugin {
    var alchemyObjectIDToArrayIndexMap: map<int, int>
    var lastObjectIdClicked: Int32
    var currentPermutation: Option<Permutation>
    var cabinets: seq<GameObject>
    var totalFruitFromBones: Int32
    /** Whether the graveyard info box is shown (`counter != null`). */
    var counterShown: bool
    /** The goal ground object's location, when one was found. */
    var telekineticGoal: Option<WorldPoint>
    /** The maze guardian's location, when one was found. */
    var telekineticGuardian: Option<WorldPoint>
    var currentPuzzle: Option<TP.Puzzle>
    var telekineticPuzzleStep: Int32
    /** Current and next target tile of the player, then of the guardian. */
    const playerTargetTiles: array<Option<Tile>>
    const guardianTargetTiles: array<Option<Tile>>

    predicate Valid()
      reads this
    {
      playerTargetTiles.Length == 2 && guardianTargetTiles.Length == 2 &&
      playerTargetTiles != guardianTargetTiles &&
      (forall id :: id in alchemyObjectIDToArrayIndexMap ==> 0 <= alchemyObjectIDToArrayIndexMap[id] < 8) &&
      (currentPermutation.Some? ==> currentPermutation.value in ALCHEMY_PERMUTATIONS) &&
      (currentPuzzle.None? ==> telekineticPuzzleStep == 0) &&
      (currentPuzzle.Some? ==> |currentPuzzle.value.steps| <= 10) &&
      (currentPuzzle.Some? ==> 0 <= telekineticPuzzleStep as int <= |currentPuzzle.value.steps|)
    }

    /** The four target tiles, as one value. */
    function Shown(): TargetTiles
      requires playerTargetTiles.Length == 2 && guardianTargetTiles.Length == 2
      reads this, playerTargetTiles, guardianTargetTiles
    {
      TargetTiles(playerTargetTiles[0], playerTargetTiles[1], guardianTargetTiles[0], guardianTargetTiles[1])
    }

    /** The field initialisers followed by `startUp`, which builds the cupboard map. */
    constructor ()
      ensures Valid()
      ensures lastObjectIdClicked == -1 && currentPermutation.None? && cabinets == []
      ensures totalFruitFromBones == 0 && !counterShown
      ensures telekineticGoal.None? && telekineticGuardian.None?
      ensures currentPuzzle.None? && telekineticPuzzleStep == 0
      ensures Shown() == TargetTiles(None, None, None, None)
      ensures alchemyObjectIDToArrayIndexMap == CabinetSlots()
    {
      alchemyObjectIDToArrayIndexMap := map[];
      lastObjectIdClicked := -1;
      currentPermutation := None;
      cabinets := [];
      totalFruitFromBones := 0;
      counterShown := false;
      telekineticGoal := None;
      telekineticGuardian := None;
      currentPuzzle := None;
      telekineticPuzzleStep := 0;
      playerTargetTiles := new Option<Tile>[2](_ => None);
      guardianTargetTiles := new Option<Tile>[2](_ => None);
      new;
      SetupHashMap();
    }

    /** `addCabientToHashMap`: both ids of the cupboard map to `index`. */
    method AddCabinetToHashMap(c: Cab.Cabinet, index: int)
      modifies this`alchemyObjectIDToArrayIndexMap
      ensures alchemyObjectIDToArrayIndexMap ==
        old(alchemyObjectIDToArrayIndexMap)[Cab.OpenObjectId(c) := index][Cab.ClosedObjectId(c) := index]
    {
      alchemyObjectIDToArrayIndexMap := alchemyObjectIDToArrayIndexMap[Cab.OpenObjectId(c) := index];
      alchemyObjectIDToArrayIndexMap := alchemyObjectIDToArrayIndexMap[Cab.ClosedObjectId(c) := index];
    }

    /** `setupHashMap`: a fresh map holding exactly the sixteen cupboard ids, each with its cupboard's slot. */
    method SetupHashMap()
      requires Valid()
      modifies this`alchemyObjectIDToArrayIndexMap
      ensures Valid()
      ensures alchemyObjectIDToArrayIndexMap == CabinetSlots()
    {
      alchemyObjectIDToArrayIndexMap := map[];
      AddCabinetToHashMap(Cab.WEST_0, 0);
      AddCabinetToHashMap(Cab.WEST_1, 1);
      AddCabinetToHashMap(Cab.WEST_2, 2);
      AddCabinetToHashMap(Cab.WEST_3, 3);
      AddCabinetToHashMap(Cab.EAST_3, 4);
      AddCabinetToHashMap(Cab.EAST_2, 5);
      AddCabinetToHashMap(Cab.EAST_1, 6);
      AddCabinetToHashMap(Cab.EAST_0, 7);
      SetupPutsBuildCabinetSlots();
    }

    /** The slot of the cupboard clicked last, or None when that object is not a cupboard. */
    function Slot(): Option<int>
      reads this
    {
      if lastObjectIdClicked in alchemyObjectIDToArrayIndexMap
      then Some(alchemyObjectIDToArrayIndexMap[lastObjectIdClicked])
      else None
    }

    /** `OnChatMessage`: the arrangement follows `AfterChat`; a failed split leaves it as it was. */
    method OnChatMessage(message: string) returns (error: Option<ChatError>)
      requires Valid()
      modifies this`currentPermutation
      ensures Valid()
      ensures var r := AfterChat(old(currentPermutation), Slot(), message);
        (r.Failure? ==> error == Some(r.error) && currentPermutation == old(currentPermutation)) &&
        (r.Success? ==> error.None? && currentPermutation == r.value)
    {
      error := None;
      if Contains(message, FOUND) {
        var item := SplitSecond(message, FOUND);
        if item.None? {
          error := Some(SplitIndexOutOfBounds);
          return;
        }
        var arrayIndex := Slot();
        if arrayIndex.None? {
          return;
        }
        currentPermutation := GetPermutation(item.value, arrayIndex.value);
      }
      if EqualsIgnoreCase(message, CUPBOARD_EMPTY) && currentPermutation.Some? {
        var arrayIndex := Slot();
        if arrayIndex.None? {
          return;
        }
        if currentPermutation.value[arrayIndex.value].Some? {
          currentPermutation := None;
        }
      }
      if EqualsIgnoreCase(message, ENTERED) {
        currentPermutation := None;
      }
    }

    /** `getCabinetObjectIds`: the closed id of cupboard `i` at `2i`, its open id at `2i + 1`. */
    method GetCabinetObjectIds() returns (cabinetIds: array<int>)
      ensures cabinetIds.Length == 16
      ensures forall i :: 0 <= i < 8 ==>
        cabinetIds[2 * i] == Cab.ClosedObjectId(Cab.VALUES[i]) && cabinetIds[2 * i + 1] == Cab.OpenObjectId(Cab.VALUES[i])
      ensures forall id :: id in cabinetIds[..] <==> 23678 <= id <= 23693
      ensures cabinetIds[..] == CabinetObjectIds()
    {
      cabinetIds := new int[|Cab.VALUES| * 2];
      for i := 0 to |Cab.VALUES|
        invariant forall k :: 0 <= k < i ==>
          cabinetIds[2 * k] == Cab.ClosedObjectId(Cab.VALUES[k]) && cabinetIds[2 * k + 1] == Cab.OpenObjectId(Cab.VALUES[k])
      {
        var cabinet := Cab.VALUES[i];
        cabinetIds[i * 2] := Cab.ClosedObjectId(cabinet);
        cabinetIds[i * 2 + 1] := Cab.OpenObjectId(cabinet);
      }
      forall k | 0 <= k < 16
        ensures 23678 <= cabinetIds[k] <= 23693
      {
        var c := Cab.VALUES[k / 2];
        IdsInRange(c);
        assert cabinetIds[k] == if k % 2 == 0 then Cab.ClosedObjectId(c) else Cab.OpenObjectId(c);
      }
      forall id | 23678 <= id <= 23693
        ensures id in cabinetIds[..]
      {
        var c := CabinetOfId(id);
        var k := PositionOf(c);
        assert cabinetIds[2 * k] == id || cabinetIds[2 * k + 1] == id;
      }
      forall k | 0 <= k < 16
        ensures cabinetIds[k] == CabinetObjectIds()[k]
      {
        assert k == 2 * (k / 2) + k % 2;
      }
    }

    /** `findCurrentPuzzle`: looks the maze up once, when both the goal and the guardian are known. */
    method FindCurrentPuzzle()
      requires Valid()
      modifies this`currentPuzzle
      ensures Valid()
      ensures currentPuzzle ==
        if old(currentPuzzle).None? && telekineticGoal.Some? && telekineticGuardian.Some?
        then TP.FindByGuardianAndEnd(RelativePoint(telekineticGoal.value), RelativePoint(telekineticGuardian.value))
        else old(currentPuzzle)
    {
      if currentPuzzle.None? && telekineticGoal.Some? && telekineticGuardian.Some? {
        var endLocation := RelativePoint(telekineticGoal.value);
        var guardianStartLocation := RelativePoint(telekineticGuardian.value);
        currentPuzzle := TP.FindByGuardianAndEnd(endLocation, guardianStartLocation);
        TP.AtMostTenSteps();
      }
    }

    /** Whether `findTelekineticObjects` entered the body that ends in `findTargetTiles`, given the step it started from. */
    predicate Tracking(titleVisible: bool, startStep: Int32)
      reads this
    {
      titleVisible && currentPuzzle.Some? && telekineticGoal.Some? && telekineticGuardian.Some? &&
      startStep as int < |currentPuzzle.value.steps|
    }

    /**
     * `findTelekineticObjects` up to the call of `findTargetTiles`: refreshes
     * the goal and the guardian, looks the maze up, and advances the step
     * when the guardian stands on its target. `tracking` is whether the body
     * that ends in `findTargetTiles` was entered.
     */
    method TrackTelekineticStep(titleVisible: bool, goals: seq<WorldPoint>, guardians: seq<WorldPoint>)
      returns (tracking: bool)
      requires Valid()
      modifies this`telekineticGoal, this`telekineticGuardian, this`currentPuzzle, this`telekineticPuzzleStep
      ensures Valid()
      ensures !titleVisible ==> telekineticGoal == old(telekineticGoal) && telekineticGuardian == old(telekineticGuardian)
      ensures !titleVisible ==> currentPuzzle == old(currentPuzzle)
      ensures titleVisible ==> telekineticGoal == (if |goals| >= 1 then Some(goals[0]) else None)
      ensures titleVisible ==> telekineticGuardian == (if |guardians| >= 1 then Some(guardians[0]) else None)
      ensures titleVisible ==> (currentPuzzle ==
        if old(currentPuzzle).None? && telekineticGoal.Some? && telekineticGuardian.Some?
        then TP.FindByGuardianAndEnd(RelativePoint(telekineticGoal.value), RelativePoint(telekineticGuardian.value))
        else old(currentPuzzle))
      ensures tracking <==> (titleVisible && currentPuzzle.Some? && telekineticGoal.Some? &&
        telekineticGuardian.Some? && old(telekineticPuzzleStep) as int < |currentPuzzle.value.steps|)
      ensures tracking ==> (telekineticPuzzleStep as int ==
        NextStep(currentPuzzle.value, old(telekineticPuzzleStep) as int, telekineticGoal.value, telekineticGuardian.value))
      ensures !tracking ==> telekineticPuzzleStep == old(telekineticPuzzleStep)
    {
      tracking := false;
      if titleVisible {
        telekineticGoal := if |goals| >= 1 then Some(goals[0]) else None;
        telekineticGuardian := if |guardians| >= 1 then Some(guardians[0]) else None;
        FindCurrentPuzzle();
        if currentPuzzle.Some? && telekineticGuardian.Some? && telekineticGoal.Some? &&
           telekineticPuzzleStep as int < |currentPuzzle.value.steps|
        {
          tracking := true;
          AdvanceStep();
        }
      }
    }

    /** The step check of `findTelekineticObjects`: the step advances when the guardian stands on its target. */
    method AdvanceStep()
      requires Valid() && currentPuzzle.Some? && telekineticGoal.Some? && telekineticGuardian.Some?
      requires telekineticPuzzleStep as int < |currentPuzzle.value.steps|
      modifies this`telekineticPuzzleStep
      ensures Valid()
      ensures telekineticPuzzleStep as int ==
        NextStep(currentPuzzle.value, old(telekineticPuzzleStep) as int, telekineticGoal.value, telekineticGuardian.value)
    {
      var guardianWorldLocation := telekineticGuardian.value;
      var relativeGuardianX := WorldToRelative(guardianWorldLocation.x);
      var relativeGuardianY := WorldToRelative(guardianWorldLocation.y);
      var goalWorldLocation := telekineticGoal.value;
      var guardianTargetOffset := currentPuzzle.value.steps[telekineticPuzzleStep].guardianTargetOffset;
      var relativeGuardianTargetX := WorldToRelative(goalWorldLocation.x) + guardianTargetOffset.x;
      var relativeGuardianTargetY := WorldToRelative(goalWorldLocation.y) + guardianTargetOffset.y;
      if relativeGuardianX == relativeGuardianTargetX && relativeGuardianY == relativeGuardianTargetY {
        telekineticPuzzleStep := telekineticPuzzleStep + 1;
      }
    }

    /**
     * `findTelekineticObjects` as written: once the guardian reaches the
     * final target the step equals the number of steps, and
     * `findTargetTiles` then reads `steps[steps.length]` and throws before
     * touching a tile. `nullTile` is the exception a null entry of the
     * plane raises in the scan.
     */
    method FindTelekineticObjects(titleVisible: bool, goals: seq<WorldPoint>, guardians: seq<WorldPoint>,
                                  rows: seq<seq<Option<Tile>>>)
      returns (outOfBounds: bool, nullTile: bool)
      requires Valid()
      modifies this`telekineticGoal, this`telekineticGuardian, this`currentPuzzle, this`telekineticPuzzleStep
      modifies playerTargetTiles, guardianTargetTiles
      ensures Valid()
      ensures !titleVisible ==> telekineticGoal == old(telekineticGoal) && telekineticGuardian == old(telekineticGuardian)
      ensures !titleVisible ==> currentPuzzle == old(currentPuzzle)
      ensures titleVisible ==> telekineticGoal == (if |goals| >= 1 then Some(goals[0]) else None)
      ensures titleVisible ==> telekineticGuardian == (if |guardians| >= 1 then Some(guardians[0]) else None)
      ensures titleVisible ==> (currentPuzzle ==
        if old(currentPuzzle).None? && telekineticGoal.Some? && telekineticGuardian.Some?
        then TP.FindByGuardianAndEnd(RelativePoint(telekineticGoal.value), RelativePoint(telekineticGuardian.value))
        else old(currentPuzzle))
      ensures Tracking(titleVisible, old(telekineticPuzzleStep)) ==> (telekineticPuzzleStep as int ==
        NextStep(currentPuzzle.value, old(telekineticPuzzleStep) as int, telekineticGoal.value, telekineticGuardian.value))
      ensures !Tracking(titleVisible, old(telekineticPuzzleStep)) ==> telekineticPuzzleStep == old(telekineticPuzzleStep)
      ensures outOfBounds <==> (Tracking(titleVisible, old(telekineticPuzzleStep)) &&
        telekineticPuzzleStep as int == |currentPuzzle.value.steps|)
      ensures Tracking(titleVisible, old(telekineticPuzzleStep)) && !outOfBounds ==>
        Shown() == ScanForStep(currentPuzzle.value, telekineticPuzzleStep as int, telekineticGoal.value, rows, old(Shown()))
      ensures !Tracking(titleVisible, old(telekineticPuzzleStep)) || outOfBounds ==> Shown() == old(Shown())
      ensures nullTile <==> (Tracking(titleVisible, old(telekineticPuzzleStep)) && !outOfBounds &&
        None in Flatten(rows))
    {
      var tracking := TrackTelekineticStep(titleVisible, goals, guardians);
      outOfBounds, nullTile := false, false;
      if tracking {
        if telekineticPuzzleStep as int < |currentPuzzle.value.steps| {
          nullTile := FindTargetTiles(telekineticGoal.value, rows);
        } else {
          outOfBounds := true;
        }
      }
    }

    /**
     * `findTelekineticObjects` with `findTargetTiles` reached only while a
     * step remains: while the maze is being followed the target tiles are
     * recomputed for the current step, and otherwise left alone.
     */
    method FindTelekineticObjectsCorrected(titleVisible: bool, goals: seq<WorldPoint>, guardians: seq<WorldPoint>,
                                           rows: seq<seq<Option<Tile>>>)
      returns (nullTile: bool)
      requires Valid()
      modifies this`telekineticGoal, this`telekineticGuardian, this`currentPuzzle, this`telekineticPuzzleStep
      modifies playerTargetTiles, guardianTargetTiles
      ensures Valid()
      ensures titleVisible && currentPuzzle.Some? && telekineticGoal.Some? && telekineticGuardian.Some? &&
              telekineticPuzzleStep as int < |currentPuzzle.value.steps| ==>
                Shown() == ScanForStep(currentPuzzle.value, telekineticPuzzleStep as int, telekineticGoal.value, rows, old(Shown()))
      ensures !(titleVisible && currentPuzzle.Some? && telekineticGoal.Some? && telekineticGuardian.Some? &&
                telekineticPuzzleStep as int < |currentPuzzle.value.steps|) ==>
                Shown() == old(Shown())
      ensures nullTile <==> (titleVisible && currentPuzzle.Some? && telekineticGoal.Some? && telekineticGuardian.Some? &&
                telekineticPuzzleStep as int < |currentPuzzle.value.steps| && None in Flatten(rows))
    {
      var tracking := TrackTelekineticStep(titleVisible, goals, guardians);
      nullTile := false;
      if tracking && telekineticPuzzleStep as int < |currentPuzzle.value.steps| {
        nullTile := FindTargetTiles(telekineticGoal.value, rows);
      }
    }

    /**
     * `findTargetTiles`: clears the next-target slots when this is the last
     * step, then scans the entries of the plane row by row, each tile going
     * to the one slot `Classify` picks for it. `nullTile` is the
     * NullPointerException thrown at the first null entry; the slots then
     * hold what the scan had placed before it.
     */
    method FindTargetTiles(goal: WorldPoint, rows: seq<seq<Option<Tile>>>) returns (nullTile: bool)
      requires Valid() && currentPuzzle.Some?
      requires 0 <= telekineticPuzzleStep as int < |currentPuzzle.value.steps|
      modifies playerTargetTiles, guardianTargetTiles
      ensures nullTile <==> None in Flatten(rows)
      ensures Shown() == ScanForStep(currentPuzzle.value, telekineticPuzzleStep as int, goal, rows, old(Shown()))
    {
      var p := currentPuzzle.value;
      var step := telekineticPuzzleStep as int;
      var t := StepTargets(p, step, RelativePoint(goal));
      ghost var before := Shown();
      if !(step + 1 < |p.steps|) {
        playerTargetTiles[1] := None;
        guardianTargetTiles[1] := None;
      }
      ghost var start := Shown();
      assert start == ClearNext(before, step + 1 < |p.steps|);
      nullTile := false;
      for i := 0 to |rows|
        invariant None !in Flatten(rows[..i])
        invariant Shown() == Scan(TilesBeforeNull(Flatten(rows[..i])), t, start)
      {
        FlattenAppend(rows, i);
        TilesBeforeNullAppend(Flatten(rows[..i]), rows[i]);
        nullTile := ScanRow(rows[i], t, TilesBeforeNull(Flatten(rows[..i])), start);
        if nullTile {
          FlattenSplit(rows, i + 1);
          TilesBeforeNullAppend(Flatten(rows[..i + 1]), Flatten(rows[i + 1..]));
          return;
        }
      }
      assert rows[..|rows|] == rows;
    }

    /** The inner loop of `findTargetTiles`: the entries of one row, in order, up to the first null one. */
    method ScanRow(row: seq<Option<Tile>>, t: Targets, ghost done: seq<Tile>, ghost start: TargetTiles)
      returns (nullTile: bool)
      requires playerTargetTiles.Length == 2 && guardianTargetTiles.Length == 2
      requires playerTargetTiles != guardianTargetTiles
      requires Shown() == Scan(done, t, start)
      modifies playerTargetTiles, guardianTargetTiles
      ensures nullTile <==> None in row
      ensures Shown() == Scan(done + TilesBeforeNull(row), t, start)
    {
      nullTile := false;
      assert done + TilesBeforeNull(row[..0]) == done;
      for j := 0 to |row|
        invariant None !in row[..j]
        invariant Shown() == Scan(done + TilesBeforeNull(row[..j]), t, start)
      {
        if row[j].None? {
          TilesBeforeNullStop(row, j);
        } else {
          TilesBeforeNullStep(row, j);
          assert done + TilesBeforeNull(row[..j + 1]) == done + TilesBeforeNull(row[..j]) + [row[j].value];
        }
        nullTile := PlaceTile(row[j], t, done + TilesBeforeNull(row[..j]), start);
        if nullTile {
          return;
        }
      }
      assert row[..|row|] == row;
    }

    /** The loop body of `findTargetTiles`: a null entry throws; a tile replaces the slot it fills, if any. */
    method PlaceTile(cell: Option<Tile>, t: Targets, ghost seen: seq<Tile>, ghost start: TargetTiles)
      returns (nullTile: bool)
      requires playerTargetTiles.Length == 2 && guardianTargetTiles.Length == 2
      requires playerTargetTiles != guardianTargetTiles
      requires Shown() == Scan(seen, t, start)
      modifies playerTargetTiles, guardianTargetTiles
      ensures nullTile <==> cell.None?
      ensures nullTile ==> Shown() == old(Shown())
      ensures !nullTile ==> Shown() == Place(cell.value, t, old(Shown()))
      ensures !nullTile ==> Shown() == Scan(seen + [cell.value], t, start)
    {
      if cell.None? {
        return true;
      }
      nullTile := false;
      var tile := cell.value;
      ScanAppend(seen, tile, t, start);
      var relative := RelativePoint(tile.worldLocation);
      if relative == t.player {
        playerTargetTiles[0] := Some(tile);
      } else if t.playerNext.Some? && relative == t.playerNext.value {
        playerTargetTiles[1] := Some(tile);
      } else if relative == t.guardian {
        guardianTargetTiles[0] := Some(tile);
      } else if t.guardianNext.Some? && relative == t.guardianNext.value {
        guardianTargetTiles[1] := Some(tile);
      }
    }

    /** `sumTotalFruitFromBones`: the fruit of the bones in the inventory while the graveyard is shown, else 0. */
    method SumTotalFruitFromBones(itemIds: seq<int>, graveyardVisible: bool)
      requires Valid()
      modifies this`totalFruitFromBones, this`counterShown
      ensures Valid()
      ensures totalFruitFromBones == if graveyardVisible then Wrap(FruitSum(itemIds)) else 0
      ensures counterShown == graveyardVisible
    {
      totalFruitFromBones := 0;
      if graveyardVisible {
        counterShown := true;
        for i := 0 to |itemIds|
          invariant totalFruitFromBones == Wrap(FruitSum(itemIds[..i]))
          invariant counterShown
        {
          assert itemIds[..i + 1][..i] == itemIds[..i];
          var bone := Bones.GetBoneById(itemIds[i]);
          if bone.Some? {
            WrapAdd(FruitSum(itemIds[..i]), Bones.FruitAmount(bone.value));
            totalFruitFromBones := Add(totalFruitFromBones, Bones.FruitAmount(bone.value));
          }
        }
        assert itemIds[..|itemIds|] == itemIds;
      } else {
        counterShown := false;
      }
    }

    /** `onMapRegionChange`: forgets the maze, its step and all four target tiles. */
    method OnMapRegionChange()
      requires Valid()
      modifies this`currentPuzzle, this`telekineticPuzzleStep, playerTargetTiles, guardianTargetTiles
      ensures Valid()
      ensures currentPuzzle.None? && telekineticPuzzleStep == 0
      ensures playerTargetTiles[..] == [None, None] && guardianTargetTiles[..] == [None, None]
    {
      currentPuzzle := None;
      telekineticPuzzleStep := 0;
      playerTargetTiles[0] := None;
      playerTargetTiles[1] := None;
      guardianTargetTiles[0] := None;
      guardianTargetTiles[1] := None;
    }

    /** `onMenuEntryOptionClicked`: remembers the object clicked. */
    method OnMenuEntryOptionClicked(id: Int32)
      requires Valid()
      modifies this`lastObjectIdClicked
      ensures Valid()
      ensures lastObjectIdClicked == id
    {
      lastObjectIdClicked := id;
    }

    /**
     * `onGameTick`: queries the cupboards by their sixteen ids, recounts the
     * fruit and follows the maze. `cabinetQuery` stands for the query runner.
     * `outOfBounds` is the exception `findTelekineticObjects` lets escape on
     * the tick the guardian reaches the final target: every field has been
     * written by then, and no target tile changes on that tick. `nullTile`
     * is the exception a null entry of the plane raises in the scan, which
     * leaves the tiles placed before it.
     */
    method OnGameTick(cabinetQuery: seq<int> -> seq<GameObject>, itemIds: seq<int>, graveyardVisible: bool,
                      titleVisible: bool, goals: seq<WorldPoint>, guardians: seq<WorldPoint>,
                      rows: seq<seq<Option<Tile>>>)
      returns (outOfBounds: bool, nullTile: bool)
      requires Valid()
      modifies this, playerTargetTiles, guardianTargetTiles
      ensures Valid()
      ensures cabinets == cabinetQuery(CabinetObjectIds())
      ensures totalFruitFromBones == if graveyardVisible then Wrap(FruitSum(itemIds)) else 0
      ensures counterShown == graveyardVisible
      ensures alchemyObjectIDToArrayIndexMap == old(alchemyObjectIDToArrayIndexMap)
      ensures lastObjectIdClicked == old(lastObjectIdClicked) && currentPermutation == old(currentPermutation)
      ensures !titleVisible ==> telekineticGoal == old(telekineticGoal) && telekineticGuardian == old(telekineticGuardian)
      ensures !titleVisible ==> currentPuzzle == old(currentPuzzle)
      ensures titleVisible ==> telekineticGoal == (if |goals| >= 1 then Some(goals[0]) else None)
      ensures titleVisible ==> telekineticGuardian == (if |guardians| >= 1 then Some(guardians[0]) else None)
      ensures titleVisible ==> (currentPuzzle ==
        if old(currentPuzzle).None? && telekineticGoal.Some? && telekineticGuardian.Some?
        then TP.FindByGuardianAndEnd(RelativePoint(telekineticGoal.value), RelativePoint(telekineticGuardian.value))
        else old(currentPuzzle))
      ensures Tracking(titleVisible, old(telekineticPuzzleStep)) ==> (telekineticPuzzleStep as int ==
        NextStep(currentPuzzle.value, old(telekineticPuzzleStep) as int, telekineticGoal.value, telekineticGuardian.value))
      ensures !Tracking(titleVisible, old(telekineticPuzzleStep)) ==> telekineticPuzzleStep == old(telekineticPuzzleStep)
      ensures outOfBounds <==> (Tracking(titleVisible, old(telekineticPuzzleStep)) &&
        telekineticPuzzleStep as int == |currentPuzzle.value.steps|)
      ensures Shown() ==
        if Tracking(titleVisible, old(telekineticPuzzleStep)) && telekineticPuzzleStep as int < |currentPuzzle.value.steps|
        then ScanForStep(currentPuzzle.value, telekineticPuzzleStep as int, telekineticGoal.value, rows, old(Shown()))
        else old(Shown())
      ensures nullTile <==> (Tracking(titleVisible, old(telekineticPuzzleStep)) &&
        telekineticPuzzleStep as int < |currentPuzzle.value.steps| && None in Flatten(rows))
    {
      var ids := GetCabinetObjectIds();
      cabinets := cabinetQuery(ids[..]);
      SumTotalFruitFromBones(itemIds, graveyardVisible);
      outOfBounds, nullTile := FindTelekineticObjects(titleVisible, goals, guardians, rows);
    }
  }

  /** A cupboard's ids are consecutive, closed then open, and among the sixteen. */
  lemma IdsInRange(c: Cab.Cabinet)
    ensures 23678 <= Cab.ClosedObjectId(c) && Cab.OpenObjectId(c) <= 23693
    ensures Cab.OpenObjectId(c) == Cab.ClosedObjectId(c) + 1
  {}

  /** The cupboard one of the sixteen ids belongs to, read off the id. */
  function CabinetOfId(id: int): (c: Cab.Cabinet)
    requires 23678 <= id <= 23693
    ensures Cab.ClosedObjectId(c) == id || Cab.OpenObjectId(c) == id
  {
    if id < 23680 then Cab.WEST_3 else if id < 23682 then Cab.WEST_2
    else if id < 23684 then Cab.WEST_1 else if id < 23686 then Cab.WEST_0
    else if id < 23688 then Cab.EAST_0 else if id < 23690 then Cab.EAST_1
    else if id < 23692 then Cab.EAST_2 else Cab.EAST_3
  }

  /** The index of a cupboard in `values()`. */
  function PositionOf(c: Cab.Cabinet): (k: nat)
    ensures k < 8 && Cab.VALUES[k] == c
  {
    match c
    case WEST_0 => 0
    case WEST_1 => 1
    case WEST_2 => 2
    case WEST_3 => 3
    case EAST_0 => 4
    case EAST_1 => 5
    case EAST_2 => 6
    case EAST_3 => 7
  }

  /**
   * For every maze, a guardian standing on the goal during the last step
   * moves the step to `steps.length`: the index `findTargetTiles` then reads.
   */
  lemma FinalStepOverruns(p: TP.Puzzle, goal: WorldPoint)
    requires p in TP.VALUES
    ensures |p.steps| >= 1
    ensures NextStep(p, |p.steps| - 1, goal, goal) == |p.steps|
  {
    TP.AllWellFormed();
  }
}
