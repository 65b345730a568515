/**
 * The eight cupboards of the Alchemists' Playground, each with the object
 * id it has while closed and while open.
 */
module AlchemyRoomCabinet {
  import opened Wrappers

  datatype Cabinet = WEST_0 | WEST_1 | WEST_2 | WEST_3 | EAST_0 | EAST_1 | EAST_2 | EAST_3

  function ClosedObjectId(c: Cabinet): int
  {
    match c
    case WEST_0 => 23684
    case WEST_1 => 23682
    case WEST_2 => 23680
    case WEST_3 => 23678
    case EAST_0 => 23686
    case EAST_1 => 23688
    case EAST_2 => 23690
    case EAST_3 => 23692
  }

  function OpenObjectId(c: Cabinet): int
  {
    match c
    case WEST_0 => 23685
    case WEST_1 => 23683
    case WEST_2 => 23681
    case WEST_3 => 23679
    case EAST_0 => 23687
    case EAST_1 => 23689
    case EAST_2 => 23691
    case EAST_3 => 23693
  }

  /** `values()`, in declaration order. */
  const VALUES: seq<Cabinet> := [WEST_0, WEST_1, WEST_2, WEST_3, EAST_0, EAST_1, EAST_2, EAST_3]

  predicate HasId(c: Cabinet, objectId: int)
  {
    OpenObjectId(c) == objectId || ClosedObjectId(c) == objectId
  }

  function FindFrom(objectId: int, i: nat): (r: Option<Cabinet>)
    requires i <= |VALUES|
    ensures r.Some? ==> r.value in VALUES[i..] && HasId(r.value, objectId)
    ensures r.None? ==> forall j :: i <= j < |VALUES| ==> !HasId(VALUES[j], objectId)
    decreases |VALUES| - i
  {
    if i == |VALUES| then None
    else if HasId(VALUES[i], objectId) then Some(VALUES[i])
    else FindFrom(objectId, i + 1)
  }

  /** `getCabinetById(objectId)`: the first cabinet whose open or closed id is `objectId`, or null. */
  function GetCabinetById(objectId: int): (r: Option<Cabinet>)
    ensures r.Some? ==> HasId(r.value, objectId)
    ensures r.None? ==> forall c: Cabinet :: !HasId(c, objectId)
  {
    var r := FindFrom(objectId, 0);
    if r.None? then
      assert forall c: Cabinet :: c in VALUES by {
        forall c: Cabinet { Listed(c); }
      }
      r
    else r
  }

  /** `values()` lists every cupboard. */
  lemma Listed(c: Cabinet)
    ensures c in VALUES
  {
    match c
    case WEST_0 => assert VALUES[0] == c;
    case WEST_1 => assert VALUES[1] == c;
    case WEST_2 => assert VALUES[2] == c;
    case WEST_3 => assert VALUES[3] == c;
    case EAST_0 => assert VALUES[4] == c;
    case EAST_1 => assert VALUES[5] == c;
    case EAST_2 => assert VALUES[6] == c;
    case EAST_3 => assert VALUES[7] == c;
  }

  /** Each cupboard's open id is its closed id plus one. */
  lemma OpenFollowsClosed(c: Cabinet)
    ensures OpenObjectId(c) == ClosedObjectId(c) + 1
  {}

  /** All sixteen ids are distinct, so a known id names exactly one cupboard. */
  lemma IdsDistinct(c: Cabinet, d: Cabinet, objectId: int)
    requires HasId(c, objectId) && HasId(d, objectId)
    ensures c == d
  {}

  /** The ids are exactly 23678..23693: the lookup succeeds iff the id is in that range. */
  lemma GetCabinetByIdRange(objectId: int)
    ensures GetCabinetById(objectId).Some? <==> 23678 <= objectId <= 23693
  {
    if 23678 <= objectId <= 23693 {
      var c :=
        if objectId < 23680 then WEST_3 else if objectId < 23682 then WEST_2
        else if objectId < 23684 then WEST_1 else if objectId < 23686 then WEST_0
        else if objectId < 23688 then EAST_0 else if objectId < 23690 then EAST_1
        else if objectId < 23692 then EAST_2 else EAST_3;
      assert HasId(c, objectId);
    }
  }

  /** With distinct ids, the first match is the only match. */
  lemma GetCabinetByIdExact(c: Cabinet)
    ensures GetCabinetById(OpenObjectId(c)) == Some(c)
    ensures GetCabinetById(ClosedObjectId(c)) == Some(c)
  {
    GetCabinetByIdRange(OpenObjectId(c));
    GetCabinetByIdRange(ClosedObjectId(c));
    IdsDistinct(GetCabinetById(OpenObjectId(c)).value, c, OpenObjectId(c));
    IdsDistinct(GetCabinetById(ClosedObjectId(c)).value, c, ClosedObjectId(c));
  }
}
