/**
 * The rank test of `checkOwnerMembership` (bot.js:45-55): among the groups a
 * user belongs to, the first whose id is the target must exist and the
 * user's role in it must have at least the required rank.
 */
module OwnerCheck {
  import opened Options

  /** One element of the user's group-role list: the group's id and the rank of the user's role there. */
  datatype GroupRole = GroupRole(groupId: int, rank: int)

  /** Position of the first role whose group is `targetGroupId` (`Array.prototype.find`). */
  function FindGroup(roles: seq<GroupRole>, targetGroupId: int): (r: Option<nat>)
    ensures r.Some? ==> r.value < |roles| && roles[r.value].groupId == targetGroupId
    ensures r.Some? ==> forall j :: 0 <= j < r.value ==> roles[j].groupId != targetGroupId
    ensures r.None? ==> forall j :: 0 <= j < |roles| ==> roles[j].groupId != targetGroupId
    decreases |roles|
  {
    if roles == [] then None
    else if roles[0].groupId == targetGroupId then Some(0)
    else
      match FindGroup(roles[1..], targetGroupId)
      case None => None
      case Some(k) => Some(k + 1)
  }

  /** True iff the first role in the target group exists and ranks at least `minRank`. */
  function OwnerMeetsRank(roles: seq<GroupRole>, targetGroupId: int, minRank: int): (ok: bool)
    ensures ok <==> exists i :: 0 <= i < |roles| && roles[i].groupId == targetGroupId
                                && (forall j :: 0 <= j < i ==> roles[j].groupId != targetGroupId)
                                && roles[i].rank >= minRank
  {
    match FindGroup(roles, targetGroupId)
    case None => false
    case Some(i) => roles[i].rank >= minRank
  }
}
