/**
 * The teleport component (`TeleportObject`): its configuration `Base`, the
 * index `TargetFromId` from target id to live teleport, and the time
 * `NextTimeUse` before which it may not be used.
 *
 * The engine's live object list (`API.SpawnedObjects`) is passed in as a
 * sequence of `Spawned` entries. The delayed closures the source schedules
 * (`Timing.CallDelayed`) run here as one atomic step each.
 */
module TeleportObjects {
  import opened Wrappers
  import opened Engine
  import opened Serializable
  import WeightedChoice

  /** One entry of the live object list. */
  datatype Spawned =
    | TeleportEntry(teleport: TeleportObject)
      /** A schematic, with the teleports among its children by object id (`ObjectFromId`). */
    | SchematicEntry(objectFromId: map<int, TeleportObject>)
    | OtherEntry

  /** The teleports that stand directly in the live list. */
  function Teleports(live: seq<Spawned>): (r: set<TeleportObject>) {
    set i | 0 <= i < |live| && live[i].TeleportEntry? :: live[i].teleport
  }

  // ---------------------------------------------------------------------
  // Lowest free id (`GetUniqId`)
  // ---------------------------------------------------------------------

  /** The object ids of the teleports in the live list. */
  function UsedIds(live: seq<Spawned>): (r: set<int>)
    reads Teleports(live)`Base
  {
    set i | 0 <= i < |live| && live[i].TeleportEntry? :: live[i].teleport.Base.objectId
  }

  /** `id` is the smallest natural number missing from `used`. */
  ghost predicate LowestFree(id: int, used: set<int>) {
    0 <= id && id !in used && forall k :: 0 <= k < id ==> k in used
  }

  /** The numbers 0 .. n-1. */
  function Below(n: nat): (r: set<int>)
    ensures forall k :: k in r <==> 0 <= k < n
    ensures |r| == n
  {
    if n == 0 then {} else Below(n - 1) + {n - 1}
  }

  lemma SubsetSize(a: set<int>, b: set<int>)
    requires a <= b
    ensures |a| <= |b|
  {
    assert b == a + (b - a);
  }

  /**
   * A set that holds 0 .. n has more than n elements, so the upward scan of
   * `GetUniqId` stops.
   */
  lemma FreeIdBound(used: set<int>, n: nat)
    requires forall k :: 0 <= k < n ==> k in used
    requires n in used
    ensures n < |used|
  {
    SubsetSize(Below(n + 1), used);
  }

  /**
   * `GetUniqId`: counts up from 0 to the first id no live teleport uses,
   * so the id of a deleted teleport is handed out again.
   */
  method GetUniqId(live: seq<Spawned>) returns (id: int)
    ensures id >= 0 && id !in UsedIds(live)
    ensures forall k :: 0 <= k < id ==> k in UsedIds(live)
  {
    var usedIds := UsedIds(live);
    id := 0;
    while id in usedIds
      invariant 0 <= id
      invariant forall k :: 0 <= k < id ==> k in usedIds
      decreases |usedIds| - id
    {
      FreeIdBound(usedIds, id);
      id := id + 1;
    }
    assert usedIds == UsedIds(live);
  }

  /** The lowest free id is unique: `GetUniqId` has one possible answer. */
  lemma LowestFreeUnique(used: set<int>, a: int, b: int)
    requires LowestFree(a, used) && LowestFree(b, used)
    ensures a == b
  {
  }

  /** The last teleport of the live list (`LastOrDefault`), if any. */
  function LastTeleport(live: seq<Spawned>): (r: Option<TeleportObject>)
    ensures r.Some? <==> exists i :: 0 <= i < |live| && live[i].TeleportEntry?
    ensures r.Some? ==> exists i :: 0 <= i < |live| && live[i] == TeleportEntry(r.value) &&
                                  forall j :: i < j < |live| ==> !live[j].TeleportEntry?
  {
    if live == [] then None
    else if live[|live| - 1].TeleportEntry? then Some(live[|live| - 1].teleport)
    else LastTeleport(live[..|live| - 1])
  }

  /** The ids other teleports of the live list use, leaving `self` out. */
  function OtherIds(live: seq<Spawned>, self: TeleportObject): (r: set<int>)
    reads (Teleports(live) - {self})`Base
  {
    set i | 0 <= i < |live| && live[i].TeleportEntry? && live[i].teleport != self :: live[i].teleport.Base.objectId
  }

  lemma UsedIdsSplit(live: seq<Spawned>, self: TeleportObject)
    ensures UsedIds(live) == OtherIds(live, self) + (if self in Teleports(live) then {self.Base.objectId} else {})
  {
    if self in Teleports(live) {
      var i :| 0 <= i < |live| && live[i].TeleportEntry? && live[i].teleport == self;
      assert self.Base.objectId in UsedIds(live);
    }
  }

  // ---------------------------------------------------------------------
  // Target index rebuild (`RefreshTargets`)
  // ---------------------------------------------------------------------

  /**
   * What the rebuild sees of one live-list entry: a teleport together with
   * its object id, a schematic's child teleports by id, or nothing usable.
   */
  datatype Seen =
    | SeenTeleport(teleport: TeleportObject, objectId: int)
    | SeenSchematic(children: map<int, TeleportObject>)
    | SeenOther

  function See(e: Spawned): (s: Seen)
    reads (if e.TeleportEntry? then {e.teleport} else {})`Base
  {
    match e
    case TeleportEntry(t) => SeenTeleport(t, t.Base.objectId)
    case SchematicEntry(children) => SeenSchematic(children)
    case OtherEntry => SeenOther
  }

  lemma TeleportsPrefix(live: seq<Spawned>, n: nat)
    requires n <= |live|
    ensures Teleports(live[..n]) <= Teleports(live)
  {
    forall t | t in Teleports(live[..n])
      ensures t in Teleports(live)
    {
      var i :| 0 <= i < n && live[..n][i].TeleportEntry? && live[..n][i].teleport == t;
      assert live[i] == live[..n][i];
    }
  }

  /** The live list as the rebuild sees it, entry by entry. */
  function View(live: seq<Spawned>): (r: seq<Seen>)
    reads Teleports(live)`Base
    ensures |r| == |live|
    decreases |live|
  {
    if live == [] then []
    else
      TeleportsPrefix(live, |live| - 1);
      assert live[|live| - 1].TeleportEntry? ==> live[|live| - 1].teleport in Teleports(live);
      View(live[..|live| - 1]) + [See(live[|live| - 1])]
  }

  lemma {:induction false} ViewEntry(live: seq<Spawned>, i: nat)
    requires i < |live|
    ensures View(live)[i] == See(live[i])
    decreases |live|
  {
    if i < |live| - 1 {
      ViewEntry(live[..|live| - 1], i);
    }
  }

  /**
   * Whether the entry seen as `s` offers a binding for target id `k` to the
   * teleport `self`: another teleport whose object id is `k`, or a schematic
   * with a child teleport under `k`. `self` itself is skipped.
   */
  predicate Offers(s: Seen, self: TeleportObject, k: int) {
    match s
    case SeenTeleport(t, id) => t != self && id == k
    case SeenSchematic(children) => k in children
    case SeenOther => false
  }

  /** The teleport the entry seen as `s` offers under `k`. */
  function Offered(s: Seen, k: int): (r: TeleportObject)
    requires s.SeenTeleport? || (s.SeenSchematic? && k in s.children)
  {
    if s.SeenTeleport? then s.teleport else s.children[k]
  }

  /**
   * The inner loop over the configured ids `ids[..j]` for one entry: each id
   * the entry offers is bound unless it is bound already.
   */
  function BindIds(m: map<int, TeleportObject>, ids: seq<int>, j: nat, s: Seen, self: TeleportObject): (r: map<int, TeleportObject>)
    requires j <= |ids|
  {
    if j == 0 then m
    else
      var m' := BindIds(m, ids, j - 1, s, self);
      var k := ids[j - 1];
      if Offers(s, self, k) && k !in m' then m'[k := Offered(s, k)] else m'
  }

  /** The index after the outer loop has visited `seen[..n]`. */
  function Index(self: TeleportObject, ids: seq<int>, seen: seq<Seen>, n: nat): (r: map<int, TeleportObject>)
    requires n <= |seen|
  {
    if n == 0 then map[]
    else BindIds(Index(self, ids, seen, n - 1), ids, |ids|, seen[n - 1], self)
  }

  /**
   * Where engine code throws during a rebuild: while live-list entry `entry`
   * checks configured target number `target`. The targets before `target`
   * were checked for that entry; a `target` past the list means the entry
   * was finished and the next one threw before binding anything.
   */
  datatype ThrowPoint = ThrowPoint(entry: nat, target: nat)

  /** How many configured targets entry `p.entry` checked before the throw. */
  function Checked(ids: seq<int>, p: ThrowPoint): (j: nat)
    ensures j <= |ids|
  {
    if p.target < |ids| then p.target else |ids|
  }

  /**
   * The index a rebuild leaves: the full `Index` when nothing throws, and
   * otherwise the bindings of the entries before the throw together with
   * those the throwing entry made before it threw (the source catches the
   * exception and keeps them).
   */
  function Rebuilt(self: TeleportObject, ids: seq<int>, seen: seq<Seen>, throwsAt: Option<ThrowPoint>): (r: map<int, TeleportObject>)
  {
    if throwsAt.Some? && throwsAt.value.entry < |seen| then
      BindIds(Index(self, ids, seen, throwsAt.value.entry), ids, Checked(ids, throwsAt.value), seen[throwsAt.value.entry], self)
    else Index(self, ids, seen, |seen|)
  }

  /**
   * The inner loop binds exactly the offered ids that were not bound, and
   * keeps every binding it started with.
   */
  lemma {:induction false} BindIdsSpec(m: map<int, TeleportObject>, ids: seq<int>, j: nat, s: Seen, self: TeleportObject)
    requires j <= |ids|
    ensures forall k :: k in BindIds(m, ids, j, s, self) <==> k in m || (k in ids[..j] && Offers(s, self, k))
    ensures forall k :: k in m ==> BindIds(m, ids, j, s, self)[k] == m[k]
    ensures forall k :: k !in m && k in ids[..j] && Offers(s, self, k) ==> BindIds(m, ids, j, s, self)[k] == Offered(s, k)
  {
    if j > 0 {
      BindIdsSpec(m, ids, j - 1, s, self);
      assert ids[..j] == ids[..j - 1] + [ids[j - 1]];
    }
  }

  /** An entry that offers nothing binds nothing. */
  lemma {:induction false} BindNothing(m: map<int, TeleportObject>, ids: seq<int>, j: nat, s: Seen, self: TeleportObject)
    requires j <= |ids|
    requires forall k :: !Offers(s, self, k)
    ensures BindIds(m, ids, j, s, self) == m
  {
    if j > 0 {
      BindNothing(m, ids, j - 1, s, self);
    }
  }

  /**
   * Every key of the rebuilt index is a configured target id that some
   * visited entry offers, and every such id is a key.
   */
  lemma {:induction false} IndexKeys(self: TeleportObject, ids: seq<int>, seen: seq<Seen>, n: nat)
    requires n <= |seen|
    ensures forall k :: k in Index(self, ids, seen, n) <==>
      k in ids && exists i :: 0 <= i < n && Offers(seen[i], self, k)
  {
    if n > 0 {
      IndexKeys(self, ids, seen, n - 1);
      BindIdsSpec(Index(self, ids, seen, n - 1), ids, |ids|, seen[n - 1], self);
      assert ids[..|ids|] == ids;
    }
  }

  /**
   * The first visited entry that offers a configured id wins: an existing
   * key is never overwritten.
   */
  lemma {:induction false} IndexFirstOffer(self: TeleportObject, ids: seq<int>, seen: seq<Seen>, n: nat, k: int, i: nat)
    requires i < n <= |seen|
    requires k in ids && Offers(seen[i], self, k)
    requires forall j :: 0 <= j < i ==> !Offers(seen[j], self, k)
    ensures k in Index(self, ids, seen, n) && Index(self, ids, seen, n)[k] == Offered(seen[i], k)
  {
    var m := Index(self, ids, seen, n - 1);
    BindIdsSpec(m, ids, |ids|, seen[n - 1], self);
    assert ids[..|ids|] == ids;
    if i < n - 1 {
      IndexFirstOffer(self, ids, seen, n - 1, k, i);
    } else {
      IndexKeys(self, ids, seen, n - 1);
    }
  }

  /**
   * A rebuild cut short keeps a part of the full index: each binding of
   * `seen[..m]` is also a binding of `seen[..n]`.
   */
  lemma {:induction false} IndexGrows(self: TeleportObject, ids: seq<int>, seen: seq<Seen>, m: nat, n: nat)
    requires m <= n <= |seen|
    ensures forall k :: k in Index(self, ids, seen, m) ==>
      k in Index(self, ids, seen, n) && Index(self, ids, seen, n)[k] == Index(self, ids, seen, m)[k]
    decreases n - m
  {
    if m < n {
      IndexGrows(self, ids, seen, m, n - 1);
      BindIdsSpec(Index(self, ids, seen, n - 1), ids, |ids|, seen[n - 1], self);
    }
  }

  /** Checking more targets for one entry keeps every binding made so far. */
  lemma BindIdsGrows(m: map<int, TeleportObject>, ids: seq<int>, i: nat, j: nat, s: Seen, self: TeleportObject)
    requires i <= j <= |ids|
    ensures forall k :: k in BindIds(m, ids, i, s, self) ==>
      k in BindIds(m, ids, j, s, self) && BindIds(m, ids, j, s, self)[k] == BindIds(m, ids, i, s, self)[k]
  {
    BindIdsSpec(m, ids, i, s, self);
    BindIdsSpec(m, ids, j, s, self);
    forall k | k in ids[..i]
      ensures k in ids[..j]
    {
      var x :| 0 <= x < i && ids[..i][x] == k;
      assert ids[..j][x] == k;
    }
  }

  /**
   * A rebuild that throws, wherever it throws, leaves a part of the full
   * index: each binding it made is a binding of the rebuild that does not
   * throw.
   */
  lemma RebuiltWithinFull(self: TeleportObject, ids: seq<int>, seen: seq<Seen>, throwsAt: Option<ThrowPoint>)
    ensures forall k :: k in Rebuilt(self, ids, seen, throwsAt) ==>
      k in Index(self, ids, seen, |seen|) && Index(self, ids, seen, |seen|)[k] == Rebuilt(self, ids, seen, throwsAt)[k]
  {
    if throwsAt.Some? && throwsAt.value.entry < |seen| {
      var e := throwsAt.value.entry;
      BindIdsGrows(Index(self, ids, seen, e), ids, Checked(ids, throwsAt.value), |ids|, seen[e], self);
      IndexGrows(self, ids, seen, e + 1, |seen|);
    }
  }

  /** Every binding comes from a visited entry that offers it. */
  lemma {:induction false} IndexSound(self: TeleportObject, ids: seq<int>, seen: seq<Seen>, n: nat)
    requires n <= |seen|
    ensures forall k :: k in Index(self, ids, seen, n) ==>
      exists i :: 0 <= i < n && Offers(seen[i], self, k) && Index(self, ids, seen, n)[k] == Offered(seen[i], k)
  {
    if n > 0 {
      IndexSound(self, ids, seen, n - 1);
      var m := Index(self, ids, seen, n - 1);
      BindIdsSpec(m, ids, |ids|, seen[n - 1], self);
      assert ids[..|ids|] == ids;
      forall k | k in Index(self, ids, seen, n)
        ensures exists i :: 0 <= i < n && Offers(seen[i], self, k) && Index(self, ids, seen, n)[k] == Offered(seen[i], k)
      {
        if k in m {
          var i :| 0 <= i < n - 1 && Offers(seen[i], self, k) && m[k] == Offered(seen[i], k);
          assert Offers(seen[i], self, k);
        } else {
          assert Offers(seen[n - 1], self, k);
        }
      }
    }
  }

  /**
   * When the live list holds no schematic, every binding is another live
   * teleport whose object id is the key: the index never points at its own
   * teleport.
   */
  lemma TeleportBindings(self: TeleportObject, ids: seq<int>, live: seq<Spawned>)
    requires forall i :: 0 <= i < |live| ==> !live[i].SchematicEntry?
    ensures forall k :: k in Index(self, ids, View(live), |live|) ==>
      var t := Index(self, ids, View(live), |live|)[k];
      t != self && t in Teleports(live) && t.Base.objectId == k
  {
    var seen := View(live);
    IndexSound(self, ids, seen, |live|);
    forall k | k in Index(self, ids, seen, |live|)
      ensures var t := Index(self, ids, seen, |live|)[k]; t != self && t in Teleports(live) && t.Base.objectId == k
    {
      var i :| 0 <= i < |live| && Offers(seen[i], self, k) && Index(self, ids, seen, |live|)[k] == Offered(seen[i], k);
      ViewEntry(live, i);
      assert live[i].TeleportEntry?;
    }
  }

  /**
   * The self check covers only the teleport branch: a schematic whose child
   * under a configured id is the rebuilding teleport itself binds that id
   * to it.
   */
  lemma SchematicSelfBinding(self: TeleportObject, k: int)
    ensures Index(self, [k], [SeenSchematic(map[k := self])], 1) == map[k := self]
  {
    var s := SeenSchematic(map[k := self]);
    assert Index(self, [k], [s], 0) == map[];
    assert BindIds(map[], [k], 0, s, self) == map[];
    assert Offers(s, self, k) && Offered(s, k) == self;
  }

  // ---------------------------------------------------------------------
  // Eligibility (`CanBeTeleported`)
  // ---------------------------------------------------------------------

  /** The category gate on the entering object's tag and name. */
  function Admits(flags: set<TeleportFlag>, g: GameObject): (r: bool) {
    match g.tag
    case "Player" => PlayerFlag in flags
    case "Pickup" => PickupFlag in flags
    case _ =>
      (Contains(g.name, "Projectile") && ActiveGrenadeFlag in flags) ||
      (Contains(g.name, "Pickup") && PickupFlag in flags)
  }

  /**
   * What each flag lets through on its own: the player flag only objects
   * tagged "Player", the pickup flag objects tagged "Pickup" and untagged
   * objects named with "Pickup", the grenade flag only untagged objects
   * named with "Projectile". Without flags nothing passes.
   */
  lemma FlagsAdmit(g: GameObject)
    ensures !Admits({}, g)
    ensures Admits({PlayerFlag}, g) <==> g.tag == "Player"
    ensures Admits({PickupFlag}, g) <==>
      g.tag == "Pickup" || (g.tag != "Player" && Contains(g.name, "Pickup"))
    ensures Admits({ActiveGrenadeFlag}, g) <==>
      g.tag != "Player" && g.tag != "Pickup" && Contains(g.name, "Projectile")
  {
  }

  /** Setting more flags never shuts an object out. */
  lemma AdmitsMonotone(f1: set<TeleportFlag>, f2: set<TeleportFlag>, g: GameObject)
    requires f1 <= f2 && Admits(f1, g)
    ensures Admits(f2, g)
  {
  }

  /** The role allowlist: a player passes only with a listed role. */
  predicate RoleAllowed(allowedRoles: seq<string>, g: GameObject) {
    g.player.None? || g.player.value.role in allowedRoles
  }

  /** The kinds of refusal that end a trigger without a teleport. */
  datatype Rejection = NotEligible | RoleNotAllowed | NothingChosen

  /** A sound the teleport asks the entering player's client to play. */
  datatype SoundRequest = NoSound | PlaySound(id: int)

  /** The look direction the event may force, axis by axis. */
  datatype PlayerRotation = PlayerRotation(x: Option<real>, y: Option<real>)

  /**
   * The cancellable teleporting event. The core reads back `gameObject`,
   * `destination`, `playerRotation`, `teleportSoundId` and `isAllowed`.
   */
  datatype TeleportingEvent = TeleportingEvent(
    source: TeleportObject,
    target: TeleportObject,
    gameObject: GameObject,
    destination: Vector3,
    playerRotation: PlayerRotation,
    teleportSoundId: int,
    isAllowed: bool)

  /**
   * What a teleport does to the object it moves: the moved object, whether
   * its rotation was forced, the sound requested, and the exception that
   * escapes `OnTriggerEnter` after the move, if any.
   */
  datatype Arrival = Arrival(moved: GameObject, forcedRotation: bool, sound: SoundRequest, thrown: Option<Exception>)

  /** The outcome of one `OnTriggerEnter`. */
  datatype TriggerOutcome =
    | Threw(error: Exception)
    | Rejected(reason: Rejection)
    | Vetoed(target: TeleportObject)
      /**
       * The object was moved and both cooldowns were reset; when
       * `arrival.thrown` is set, that exception escaped afterwards.
       */
    | Teleported(target: TeleportObject, arrival: Arrival)

  /** The event the source raises before moving anything. */
  function Proposal(source: TeleportObject, target: TeleportObject, g: GameObject): (r: TeleportingEvent)
    reads source`Base, target`Position, target`Base
  {
    TeleportingEvent(source, target, g, target.Position,
      PlayerRotation(target.Base.playerRotationX, target.Base.playerRotationY),
      source.Base.teleportSoundId, true)
  }

  /**
   * The move an approved event leads to. Any object is placed at the
   * destination. A player also takes each rotation axis the event sets and
   * keeps the other; the rotation is forced only when some axis is set.
   * Unless the sound id is -1 it is asserted to lie in 0..31: inside, the
   * sound is requested; outside, the assertion throws after the move and no
   * sound is requested. Objects that are not players get none of this.
   */
  function Arrive(ev: TeleportingEvent): (r: Arrival)
    ensures r.moved.position == ev.destination
    ensures r.moved.tag == ev.gameObject.tag && r.moved.name == ev.gameObject.name
    ensures r.moved.player.Some? <==> ev.gameObject.player.Some?
    ensures ev.gameObject.player.None? ==> !r.forcedRotation && r.sound == NoSound && r.thrown == None
    ensures ev.gameObject.player.Some? ==>
      var before, after := ev.gameObject.player.value, r.moved.player.value;
      && after.role == before.role
      && after.rotation.x == (if ev.playerRotation.x.Some? then ev.playerRotation.x.value else before.rotation.x)
      && after.rotation.y == (if ev.playerRotation.y.Some? then ev.playerRotation.y.value else before.rotation.y)
      && (r.forcedRotation <==> ev.playerRotation.x.Some? || ev.playerRotation.y.Some?)
      && (r.sound == PlaySound(ev.teleportSoundId) <==> 0 <= ev.teleportSoundId <= 31)
      && (r.sound.PlaySound? ==> r.sound.id == ev.teleportSoundId)
      && (r.thrown.Some? <==> ev.teleportSoundId != -1 && !(0 <= ev.teleportSoundId <= 31))
      && (r.thrown.Some? ==> r.thrown.value == AssertionFailed)
  {
    var moved := ev.gameObject.(position := ev.destination);
    match ev.gameObject.player
    case None => Arrival(moved, false, NoSound, None)
    case Some(p) =>
      var sync := Vector2(ev.playerRotation.x.GetOr(p.rotation.x), ev.playerRotation.y.GetOr(p.rotation.y));
      var forced := ev.playerRotation.x.Some? || ev.playerRotation.y.Some?;
      var turned := if forced then moved.(player := Some(p.(rotation := sync))) else moved;
      if ev.teleportSoundId == -1 then Arrival(turned, forced, NoSound, None)
      else if !(0 <= ev.teleportSoundId <= 31) then Arrival(turned, forced, NoSound, Some(AssertionFailed))
      else Arrival(turned, forced, PlaySound(ev.teleportSoundId), None)
  }

  // ---------------------------------------------------------------------
  // The component
  // ---------------------------------------------------------------------

  class TeleportObject {
    var Base: SerializableTeleport
    var TargetFromId: map<int, TeleportObject>
    /** Seconds since `DateTime.MinValue`, the default value of the field. */
    var NextTimeUse: real
    var Position: Vector3
    var Rotation: Quaternion
    var Scale: Vector3
    var prevPosition: Option<Vector3>
    var prevRotation: Option<Quaternion>
    var prevScale: Option<Vector3>

    /** The component as added to its game object, before `Init`. */
    constructor(base: SerializableTeleport, position: Vector3, rotation: Quaternion, scale: Vector3)
      ensures Base == base && TargetFromId == map[] && NextTimeUse == 0.0
      ensures Position == position && Rotation == rotation && Scale == scale
      ensures prevPosition == None && prevRotation == None && prevScale == None
    {
      Base := base;
      TargetFromId := map[];
      NextTimeUse := 0.0;
      Position, Rotation, Scale := position, rotation, scale;
      prevPosition, prevRotation, prevScale := None, None, None;
    }

    /**
     * `Init`: takes the configuration; a newly placed teleport (`first`)
     * gets the lowest free id and points its first target at the last
     * teleport of the live list. Then the index is rebuilt. A first
     * teleport with an empty target list throws once a teleport exists.
     */
    method Init(teleportSerializable: SerializableTeleport, first: bool, live: seq<Spawned>) returns (thrown: Option<Exception>)
      modifies this`Base, this`TargetFromId
      ensures Base.(objectId := teleportSerializable.objectId, targetTeleporters := teleportSerializable.targetTeleporters)
        == teleportSerializable
      ensures !first ==> Base == teleportSerializable
      ensures first ==> LowestFree(Base.objectId,
        old(OtherIds(live, this)) + (if this in Teleports(live) then {teleportSerializable.objectId} else {}))
      ensures thrown.Some? <==> first && LastTeleport(live).Some? && teleportSerializable.targetTeleporters == []
      ensures thrown.Some? ==> thrown.value == ArgumentOutOfRange && TargetFromId == old(TargetFromId)
      ensures thrown.Some? ==> Base.targetTeleporters == []
      ensures !first || LastTeleport(live).None? ==> Base.targetTeleporters == teleportSerializable.targetTeleporters
      ensures first && LastTeleport(live).Some? && teleportSerializable.targetTeleporters != [] ==>
        var ts := teleportSerializable.targetTeleporters;
        Base.targetTeleporters == ts[0 := ts[0].(id := LastTeleport(live).value.Base.objectId)]
      ensures thrown.None? ==> TargetFromId == Index(this, TargetIds(Base.targetTeleporters), View(live), |live|)
    {
      Base := teleportSerializable;
      thrown := None;
      if first {
        UsedIdsSplit(live, this);
        var id := GetUniqId(live);
        Base := Base.(objectId := id);
        var lastTeleport := LastTeleport(live);
        if lastTeleport.Some? {
          if |Base.targetTeleporters| == 0 {
            thrown := Some(ArgumentOutOfRange);
            return;
          }
          var ts := Base.targetTeleporters;
          Base := Base.(targetTeleporters := ts[0 := ts[0].(id := lastTeleport.value.Base.objectId)]);
        }
      }
      RefreshTargets(live, None);
    }

    /**
     * `RefreshTargets`: clears the index, then binds each configured target
     * id to the first entry of the live list that offers it. Engine code
     * that throws at `throwsAt` ends the rebuild there; the source catches
     * the exception and the index keeps what was bound before.
     */
    method RefreshTargets(live: seq<Spawned>, throwsAt: Option<ThrowPoint>)
      modifies this`TargetFromId
      ensures TargetFromId == Rebuilt(this, TargetIds(Base.targetTeleporters), View(live), throwsAt)
    {
      var ids := TargetIds(Base.targetTeleporters);
      var stop := if throwsAt.Some? && throwsAt.value.entry < |live| then throwsAt.value.entry else |live|;
      ghost var seen := View(live);
      TargetFromId := map[];
      var i := 0;
      while i < stop
        invariant 0 <= i <= stop
        invariant seen == View(live)
        invariant TargetFromId == Index(this, ids, seen, i)
      {
        label Visited:
        ViewEntry(live, i);
        Visit(live[i], ids, |ids|);
        assert unchanged@Visited(Teleports(live)`Base);
        i := i + 1;
      }
      if stop < |live| {
        // the entry where engine code throws, after `Checked` targets
        label Threw:
        ViewEntry(live, stop);
        Visit(live[stop], ids, Checked(ids, throwsAt.value));
        assert unchanged@Threw(Teleports(live)`Base);
      }
    }

    /**
     * One turn of the rebuild's outer loop, over the first `upto` configured
     * ids: the teleport's own entry is skipped, a schematic or another
     * teleport runs its inner loop, and other objects bind nothing.
     */
    method Visit(entry: Spawned, ids: seq<int>, upto: nat)
      requires upto <= |ids|
      modifies this`TargetFromId
      ensures TargetFromId == BindIds(old(TargetFromId), ids, upto, See(entry), this)
    {
      if entry == TeleportEntry(this) {
        BindNothing(TargetFromId, ids, upto, See(entry), this);
      } else {
        match entry {
          case SchematicEntry(children) =>
            BindSchematic(children, ids, upto);
          case TeleportEntry(teleport) =>
            BindTeleport(teleport, ids, upto);
          case OtherEntry =>
            BindNothing(TargetFromId, ids, upto, See(entry), this);
        }
      }
    }

    /**
     * The inner loop of the rebuild for a schematic entry: each configured
     * id under which the schematic holds a child teleport is bound to that
     * child, unless the id is bound already.
     */
    method BindSchematic(children: map<int, TeleportObject>, ids: seq<int>, upto: nat)
      requires upto <= |ids|
      modifies this`TargetFromId
      ensures TargetFromId == BindIds(old(TargetFromId), ids, upto, SeenSchematic(children), this)
    {
      var j := 0;
      while j < upto
        invariant 0 <= j <= upto
        invariant TargetFromId == BindIds(old(TargetFromId), ids, j, SeenSchematic(children), this)
      {
        var id := ids[j];
        if id in children && id !in TargetFromId {
          TargetFromId := TargetFromId[id := children[id]];
        }
        j := j + 1;
      }
    }

    /**
     * The inner loop of the rebuild for another teleport's entry: the
     * configured id equal to its object id is bound to it, unless the id is
     * bound already.
     */
    method BindTeleport(teleport: TeleportObject, ids: seq<int>, upto: nat)
      requires teleport != this && upto <= |ids|
      modifies this`TargetFromId
      ensures TargetFromId == BindIds(old(TargetFromId), ids, upto, SeenTeleport(teleport, teleport.Base.objectId), this)
    {
      var j := 0;
      while j < upto
        invariant 0 <= j <= upto
        invariant TargetFromId == BindIds(old(TargetFromId), ids, j, SeenTeleport(teleport, teleport.Base.objectId), this)
      {
        var id := ids[j];
        if teleport.Base.objectId == id && id !in TargetFromId {
          TargetFromId := TargetFromId[id := teleport];
        }
        j := j + 1;
      }
    }

    /** `SetPreviousTransform`: remembers the current transform. */
    method SetPreviousTransform()
      modifies this`prevPosition, this`prevRotation, this`prevScale
      ensures prevPosition == Some(Position) && prevRotation == Some(Rotation) && prevScale == Some(Scale)
    {
      prevPosition := Some(Position);
      prevRotation := Some(Rotation);
      prevScale := Some(Scale);
    }

    /** `FixTransform`: restores each remembered part of the transform. */
    method FixTransform()
      modifies this`Position, this`Rotation, this`Scale
      ensures Position == old(prevPosition.GetOr(Position))
      ensures Rotation == old(prevRotation.GetOr(Rotation))
      ensures Scale == old(prevScale.GetOr(Scale))
    {
      if prevPosition.Some? {
        Position := prevPosition.value;
      }
      if prevRotation.Some? {
        Rotation := prevRotation.value;
      }
      if prevScale.Some? {
        Scale := prevScale.value;
      }
    }

    /**
     * `CanBeTeleported`: false without bound targets, when a lock flag
     * matches the world, or while cooling down; otherwise the category gate
     * decides. A collider without a network identity makes the source read
     * `tag` through null.
     */
    function CanBeTeleported(world: World, obj: Option<GameObject>): (r: Result<bool>)
      reads this
      ensures |TargetFromId| == 0 ==> r == Ok(false)
      ensures world.lczDecontaminated && LightDecontaminated in Base.lockOnEvent ==> r == Ok(false)
      ensures world.warheadDetonated && WarheadDetonated in Base.lockOnEvent ==> r == Ok(false)
      ensures world.now < NextTimeUse ==> r == Ok(false)
      ensures r.Err? <==>
        && |TargetFromId| > 0
        && !(world.lczDecontaminated && LightDecontaminated in Base.lockOnEvent)
        && !(world.warheadDetonated && WarheadDetonated in Base.lockOnEvent)
        && NextTimeUse <= world.now
        && obj.None?
      ensures r.Err? ==> r.error == NullReference
      ensures r == Ok(true) <==>
        && |TargetFromId| > 0
        && !(world.lczDecontaminated && LightDecontaminated in Base.lockOnEvent)
        && !(world.warheadDetonated && WarheadDetonated in Base.lockOnEvent)
        && NextTimeUse <= world.now
        && obj.Some? && Admits(Base.teleportFlags, obj.value)
    {
      if |TargetFromId| == 0 then Ok(false)
      else
        var flag :=
          (!world.lczDecontaminated || LightDecontaminated !in Base.lockOnEvent) &&
          (!world.warheadDetonated || WarheadDetonated !in Base.lockOnEvent) &&
          world.now >= NextTimeUse;
        if !flag then Ok(false)
        else match obj
          case None => Err(NullReference)
          case Some(g) => Ok(Admits(Base.teleportFlags, g))
    }

    /** Once the cooldown has passed, waiting longer does not block a teleport. */
    lemma EligibleLater(world: World, later: real, obj: Option<GameObject>)
      requires world.now <= later
      requires CanBeTeleported(world, obj) == Ok(true)
      ensures CanBeTeleported(world.(now := later), obj) == Ok(true)
    {
    }

    /** A teleport without lock flags ignores decontamination and detonation. */
    lemma UnlockedIgnoresWorld(w1: World, w2: World, obj: Option<GameObject>)
      requires Base.lockOnEvent == {}
      requires w1.now == w2.now
      ensures CanBeTeleported(w1, obj) == CanBeTeleported(w2, obj)
    {
    }

    /**
     * `OnTriggerEnter`: the eligibility check, the role allowlist, the
     * weighted choice (which prunes `Base.TargetTeleporters` for good), the
     * index lookup, the event, and on approval the cooldowns of both ends
     * and the move, after which a sound id outside 0..31 fails its
     * assertion and throws.
     */
    method OnTriggerEnter(obj: Option<GameObject>, world: World, value: real, onTeleporting: TeleportingEvent -> TeleportingEvent)
      returns (outcome: TriggerOutcome)
      modifies this`Base, this`NextTimeUse, TargetFromId.Values`NextTimeUse
      ensures TargetFromId == old(TargetFromId)
      // the eligibility check and the role allowlist come first
      ensures old(CanBeTeleported(world, obj)).Err? ==> outcome == Threw(NullReference)
      ensures old(CanBeTeleported(world, obj)) == Ok(false) ==> outcome == Rejected(NotEligible)
      ensures old(CanBeTeleported(world, obj)) == Ok(true) && !RoleAllowed(old(Base.allowedRoles), obj.value) ==>
        outcome == Rejected(RoleNotAllowed)
      // past both, the choice prunes the target list for good
      ensures old(CanBeTeleported(world, obj)) == Ok(true) && RoleAllowed(old(Base.allowedRoles), obj.value) ==>
        && Base == old(Base).(targetTeleporters := WeightedChoice.Pruned(old(Base.targetTeleporters)))
        && match WeightedChoice.Chosen(old(Base.targetTeleporters), value)
           case Err(e) => outcome == Threw(e)
           case Ok(id) =>
             if id == -1 then outcome == Rejected(NothingChosen)
             else if id !in TargetFromId then outcome == Threw(KeyNotFound)
             else (outcome.Vetoed? || outcome.Teleported?) && outcome.target == TargetFromId[id]
      ensures !(old(CanBeTeleported(world, obj)) == Ok(true) && RoleAllowed(old(Base.allowedRoles), obj.value)) ==>
        Base == old(Base)
      // the event decides; an approved teleport moves the object
      ensures outcome.Vetoed? ==> !onTeleporting(old(Proposal(this, outcome.target, obj.value))).isAllowed
      ensures outcome.Teleported? ==>
        var ev := onTeleporting(old(Proposal(this, outcome.target, obj.value)));
        ev.isAllowed && outcome.arrival == Arrive(ev)
      // cooldowns change on both ends of an approved teleport and nowhere else
      ensures outcome.Teleported? ==>
        && outcome.target.NextTimeUse == world.now + outcome.target.Base.cooldown
        && NextTimeUse == world.now + Base.cooldown
      ensures outcome.Teleported? ==> forall t :: t in old(TargetFromId.Values) && t != this && t != outcome.target ==>
        t.NextTimeUse == old(t.NextTimeUse)
      ensures !outcome.Teleported? ==> NextTimeUse == old(NextTimeUse)
      ensures !outcome.Teleported? ==> forall t :: t in old(TargetFromId.Values) ==> t.NextTimeUse == old(t.NextTimeUse)
    {
      var eligible := CanBeTeleported(world, obj);
      if eligible.Err? {
        return Threw(eligible.error);
      }
      if !eligible.value {
        return Rejected(NotEligible);
      }
      var gameObject := obj.value;
      if gameObject.player.Some? && gameObject.player.value.role !in Base.allowedRoles {
        return Rejected(RoleNotAllowed);
      }
      var kept, chosen := WeightedChoice.Choose(Base.targetTeleporters, value);
      Base := Base.(targetTeleporters := kept);
      if chosen.Err? {
        return Threw(chosen.error);
      }
      var choosenTeleporter := chosen.value;
      if choosenTeleporter == -1 {
        return Rejected(NothingChosen);
      }
      if choosenTeleporter !in TargetFromId {
        return Threw(KeyNotFound);
      }
      var target := TargetFromId[choosenTeleporter];
      var ev := onTeleporting(Proposal(this, target, gameObject));
      if !ev.isAllowed {
        return Vetoed(target);
      }
      NextTimeUse := world.now + Base.cooldown;
      target.NextTimeUse := world.now + target.Base.cooldown;
      return Teleported(target, Arrive(ev));
    }

    /**
     * `OnDestroy`: every teleport this one had bound as a target rebuilds its
     * own index. Teleports that had bound this one are not among them, so
     * their bindings to it stay until something else rebuilds them.
     */
    method OnDestroy(live: seq<Spawned>)
      modifies TargetFromId.Values`TargetFromId
      ensures forall t :: t in old(TargetFromId.Values) ==>
        t.TargetFromId == Index(t, TargetIds(t.Base.targetTeleporters), View(live), |live|)
    {
      var pending := TargetFromId.Values;
      ghost var targets := pending;
      while pending != {}
        invariant pending <= targets
        invariant forall t :: t in targets - pending ==>
          t.TargetFromId == Index(t, TargetIds(t.Base.targetTeleporters), View(live), |live|)
        decreases pending
      {
        var teleport :| teleport in pending;
        label Before:
        teleport.RefreshTargets(live, None);
        assert unchanged@Before(Teleports(live)`Base);
        pending := pending - {teleport};
      }
    }
  }
}
