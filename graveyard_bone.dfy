/**
 * The bones of the Creature Graveyard: each inventory item id and how
 * many fruit it turns into.
 */
module GraveyardBone {
  import opened Wrappers

  datatype Bone = BONE_1 | BONE_2 | BONE_3 | BONE_4

  /** The enum constructor takes the fruit amount first and the item id second. */
  function FruitAmount(b: Bone): int
  {
    match b
    case BONE_1 => 1
    case BONE_2 => 2
    case BONE_3 => 3
    case BONE_4 => 4
  }

  function ItemId(b: Bone): int
  {
    match b
    case BONE_1 => 6904
    case BONE_2 => 6905
    case BONE_3 => 6906
    case BONE_4 => 6907
  }

  /** `values()`, in declaration order. */
  const VALUES: seq<Bone> := [BONE_1, BONE_2, BONE_3, BONE_4]

  function FindFrom(itemId: int, i: nat): (r: Option<Bone>)
    requires i <= |VALUES|
    ensures r.Some? ==> r.value in VALUES[i..] && ItemId(r.value) == itemId
    ensures r.None? ==> forall j :: i <= j < |VALUES| ==> ItemId(VALUES[j]) != itemId
    decreases |VALUES| - i
  {
    if i == |VALUES| then None
    else if ItemId(VALUES[i]) == itemId then Some(VALUES[i])
    else FindFrom(itemId, i + 1)
  }

  /** `GetBoneById(itemId)`: the bone with that item id, or null. */
  function GetBoneById(itemId: int): (r: Option<Bone>)
    ensures r.Some? ==> ItemId(r.value) == itemId
    ensures r.None? ==> forall b: Bone :: ItemId(b) != itemId
  {
    FindFrom(itemId, 0)
  }

  /** The lookup succeeds exactly for the ids 6904..6907, and each bone gives `itemId - 6903` fruit. */
  lemma GetBoneByIdRange(itemId: int)
    ensures GetBoneById(itemId).Some? <==> 6904 <= itemId <= 6907
    ensures GetBoneById(itemId).Some? ==> FruitAmount(GetBoneById(itemId).value) == itemId - 6903
  {
    if 6904 <= itemId <= 6907 {
      assert ItemId(VALUES[itemId - 6904]) == itemId;
    }
  }

  /** Item ids are distinct; BONE_k gives k fruit, between 1 and 4. */
  lemma BoneFacts(a: Bone, b: Bone)
    ensures ItemId(a) == ItemId(b) ==> a == b
    ensures FruitAmount(a) == ItemId(a) - 6903
    ensures 1 <= FruitAmount(a) <= 4
  {}
}
