/** The serializable configuration of one teleport, as saved in a map file. */
module Serializable {
  import opened Wrappers

  /** World events on which a teleport locks itself (`LockOnEvent` flags). */
  datatype LockOnEvent = LightDecontaminated | WarheadDetonated

  /** Kinds of objects a teleport lets through (`TeleportFlags` flags). */
  datatype TeleportFlag = PlayerFlag | PickupFlag | ActiveGrenadeFlag

  /** One weighted reference to another teleport, by its object id. */
  datatype TargetTeleporter = TargetTeleporter(id: int, chance: real)

  /**
   * The fields of `SerializableTeleport` the teleporter reads. Flag enums are
   * sets of flags; `HasFlagFast(f)` is membership.
   */
  datatype SerializableTeleport = SerializableTeleport(
    objectId: int,
    targetTeleporters: seq<TargetTeleporter>,
    allowedRoles: seq<string>,
    cooldown: real,
    teleportFlags: set<TeleportFlag>,
    lockOnEvent: set<LockOnEvent>,
    playerRotationX: Option<real>,
    playerRotationY: Option<real>,
    teleportSoundId: int)

  /** The ids of a target list, in list order. */
  function TargetIds(ts: seq<TargetTeleporter>): (ids: seq<int>)
    ensures |ids| == |ts|
    ensures forall k :: 0 <= k < |ts| ==> ids[k] == ts[k].id
  {
    if ts == [] then [] else [ts[0].id] + TargetIds(ts[1..])
  }
}
