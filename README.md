# Teleporter model (MapEditorReborn `TeleportObject`)

MapEditorReborn places teleporters in an SCP: Secret Laboratory map. Each
teleporter is a Unity component, `TeleportObject`, with three pieces of state:

- `Base`: its configuration. This holds the object id, the weighted list of
  target teleporter ids, the allowed roles, the cooldown, the category flags,
  the lock events, an optional rotation override and a sound id.
- `TargetFromId`: an index from target id to a live teleporter.
- `NextTimeUse`: the moment before which the teleporter may not be used.

When an object enters the trigger volume, the component runs these steps:

1. It checks eligibility: bound targets exist, no lock matches the world, the
   cooldown has passed, and the category flags admit the object.
2. It checks the role allowlist.
3. It draws a target by weight.
4. It raises a cancellable teleporting event.
5. On approval, it resets the cooldown of both ends and moves the object. For
   players it also merges the rotation override and requests the sound.

The index is rebuilt from the live object list by a deferred task. This
happens on `Init`, on every update, and for the targets of a destroyed
teleporter.

The project has five modules:

- `Wrappers` (`wrappers.dfy`): `Option`, `Result` and the exceptions the
  source can raise (`ArgumentOutOfRange`, `KeyNotFound`, `NullReference`,
  and `AssertionFailed` for Exiled's `Log.Assert`, which logs and then throws).
- `Engine` (`engine.dfy`): the values crossing the engine boundary, which are
  vectors, players, game objects and the world flags with the clock.
- `Serializable` (`serializable.dfy`): the configuration records and flag
  enumerations.
- `WeightedChoice` (`choose.dfy`): `Choose`. It is an imperative method over
  the list, proved against the reference functions `Pruned` and `Chosen`.
  The lemmas give their meaning: exact pruning, order, idempotence, the
  cumulative-interval rule and the fallback.
- `TeleportObjects` (`teleport_object.dfy`): the live object list, the lowest
  free id, the index rebuild and its reference function `Index`, the
  eligibility predicate, the event, and the class `TeleportObject` with its
  methods.

## Model

| member | source | states |
|---|---|---|
| WeightedChoice.Choose | MapEditorReborn/API/Features/Objects/TeleportObject.cs:35-69 | the list left behind is exactly the input with every entry of chance <= 0 removed, and the result is the reference choice `Chosen`: an exception for an empty list, -1 when pruning empties it, otherwise the walk's pick |
| WeightedChoice.PrunedMembers | MapEditorReborn/API/Features/Objects/TeleportObject.cs:39-51 | an entry survives pruning if and only if it was in the list and its chance is positive |
| WeightedChoice.PrunedAppend | MapEditorReborn/API/Features/Objects/TeleportObject.cs:39-51 | pruning works entry by entry, so the survivors keep their original order |
| WeightedChoice.PrunedTwice | MapEditorReborn/API/Features/Objects/TeleportObject.cs:39-51 | pruning an already pruned list changes nothing, so the removal that `OnTriggerEnter` stores back is final |
| WeightedChoice.PrunedPositive | MapEditorReborn/API/Features/Objects/TeleportObject.cs:41-51 | every survivor has a positive chance |
| WeightedChoice.ScaledBelowTotal | MapEditorReborn/API/Features/Objects/TeleportObject.cs:54 | a draw in [0, 1] scaled by a positive total is non-negative, and it reaches the total exactly when the draw is 1 |
| WeightedChoice.ScanInterval | MapEditorReborn/API/Features/Objects/TeleportObject.cs:56-66 | with positive chances, the walk stops at position i exactly when the draw lies between the chances summed before i and the chances summed through i |
| WeightedChoice.ScanRunsOut | MapEditorReborn/API/Features/Objects/TeleportObject.cs:56-68 | with positive chances, the walk runs out exactly when the draw is at least the remaining total |
| WeightedChoice.ChosenSurvivor | MapEditorReborn/API/Features/Objects/TeleportObject.cs:39-68 | an empty list, and only it, throws; a list that pruning empties yields -1; otherwise the result is the id of a surviving entry |
| WeightedChoice.SentinelIffEmptied | MapEditorReborn/API/Features/Objects/TeleportObject.cs:44-45 | when no survivor has the id -1, the result is -1 if and only if pruning removed every entry |
| WeightedChoice.ChosenByCumulativeChance | MapEditorReborn/API/Features/Objects/TeleportObject.cs:54-66 | for a draw in [0, 1), the result is the id of the first survivor whose cumulative chance exceeds the scaled draw |
| WeightedChoice.ChosenFallback | MapEditorReborn/API/Features/Objects/TeleportObject.cs:54-68 | the walk runs out only for the draw 1, and then the last survivor's id is returned |
| TeleportObjects.GetUniqId | MapEditorReborn/API/Features/Objects/TeleportObject.cs:71-83 | the id is non-negative and used by no live teleport, and every smaller natural number is used |
| TeleportObjects.LowestFreeUnique | MapEditorReborn/API/Features/Objects/TeleportObject.cs:71-83 | the lowest free id is unique, so the id `GetUniqId` hands out is determined by the used ids |
| TeleportObjects.LastTeleport | MapEditorReborn/API/Features/Objects/TeleportObject.cs:93 | a teleport is found exactly when the live list has one, and it is the last teleport entry of the list |
| TeleportObjects.BindIdsSpec | MapEditorReborn/API/Features/Objects/TeleportObject.cs:125-140 | one entry's inner loop adds exactly the configured ids the entry offers that were not yet bound, binds each to the offered teleport, and keeps every existing binding |
| TeleportObjects.BindNothing | MapEditorReborn/API/Features/Objects/TeleportObject.cs:120-121 | an entry that offers nothing, such as the teleport itself, leaves the index unchanged |
| TeleportObjects.IndexKeys | MapEditorReborn/API/Features/Objects/TeleportObject.cs:114-141 | a key is in the rebuilt index if and only if it is a configured target id that some visited entry offers; unmatched ids are absent |
| TeleportObjects.IndexFirstOffer | MapEditorReborn/API/Features/Objects/TeleportObject.cs:127-139 | the first entry in list order that offers an id wins, because an existing key is never overwritten |
| TeleportObjects.IndexGrows | MapEditorReborn/API/Features/Objects/TeleportObject.cs:114-147 | a rebuild cut short by an exception keeps a sub-map of the full index, since every binding it made stays in the full one |
| TeleportObjects.BindIdsGrows | MapEditorReborn/API/Features/Objects/TeleportObject.cs:125-140 | an inner loop stopped after some targets keeps only bindings the finished loop also makes, to the same teleport |
| TeleportObjects.RebuiltWithinFull | MapEditorReborn/API/Features/Objects/TeleportObject.cs:114-147 | wherever the rebuild throws, every binding it leaves is a binding of the full rebuild, to the same teleport |
| TeleportObjects.SchematicSelfBinding | MapEditorReborn/API/Features/Objects/TeleportObject.cs:120-129 | the self check covers only teleport entries: a schematic whose child under a configured id is the rebuilding teleport binds that id to the teleport itself |
| TeleportObjects.IndexSound | MapEditorReborn/API/Features/Objects/TeleportObject.cs:114-141 | every binding comes from a visited entry that offers that id |
| TeleportObjects.TeleportBindings | MapEditorReborn/API/Features/Objects/TeleportObject.cs:120-139 | with no schematic in the live list, every bound teleport is another live teleport whose object id is the key, never the teleport itself |
| TeleportObjects.FlagsAdmit | MapEditorReborn/API/Features/Objects/TeleportObject.cs:241-247 | "Player" passes iff the player flag is set; "Pickup" passes iff the pickup flag is set; another tag passes with the grenade flag iff the name contains "Projectile", and with the pickup flag iff the name contains "Pickup"; no flags admit nothing |
| TeleportObjects.AdmitsMonotone | MapEditorReborn/API/Features/Objects/TeleportObject.cs:241-247 | setting more flags never shuts an object out |
| TeleportObjects.Arrive | MapEditorReborn/API/Features/Objects/TeleportObject.cs:190-221 | the object is placed at the destination; a player takes each rotation axis the event sets and keeps the other; the rotation is forced iff some axis is set; the sound is requested iff its id is in 0..31; any other id except -1 fails the assertion, which throws after the move with no sound requested; other objects get neither and never throw |
| TeleportObjects.TeleportObject.constructor | MapEditorReborn/API/Features/Objects/TeleportObject.cs:29-33 | a new component holds the configuration it is given (the source leaves `Base` null until `Init`), an empty index, the earliest `NextTimeUse` and no saved transform |
| TeleportObjects.TeleportObject.Init | MapEditorReborn/API/Features/Objects/TeleportObject.cs:85-103 | the configuration is stored. On first placement the object id is the lowest id no live teleport uses (this one counting with the id it was just given), and the first target is pointed at the last live teleport; an empty target list then throws, and the list is left empty. Otherwise the index is the full rebuild |
| TeleportObjects.TeleportObject.RefreshTargets | MapEditorReborn/API/Features/Objects/TeleportObject.cs:110-149 | the index becomes the reference rebuild `Rebuilt`: the full `Index` over the live list, or, when engine code throws while entry e checks its t-th configured target, the index over the entries before e plus the bindings e made for its first t targets |
| TeleportObjects.TeleportObject.Visit | MapEditorReborn/API/Features/Objects/TeleportObject.cs:118-141 | one turn of the outer loop: the teleport's own entry and objects that are neither schematic nor teleport bind nothing; a schematic or another teleport adds exactly the bindings `BindIds` gives for the first `upto` configured ids |
| TeleportObjects.TeleportObject.BindSchematic | MapEditorReborn/API/Features/Objects/TeleportObject.cs:123-132 | the inner loop for a schematic, over the first `upto` configured ids, binds each unbound one to the schematic's child teleport with that id |
| TeleportObjects.TeleportObject.BindTeleport | MapEditorReborn/API/Features/Objects/TeleportObject.cs:134-141 | the inner loop for another teleport, over the first `upto` configured ids, binds the unbound one equal to its object id to it |
| TeleportObjects.TeleportObject.SetPreviousTransform | MapEditorReborn/API/Features/Objects/TeleportObject.cs:150-155 | the current position, rotation and scale are remembered |
| TeleportObjects.TeleportObject.FixTransform | MapEditorReborn/API/Features/Objects/TeleportObject.cs:157-167 | each remembered part of the transform is restored, and a part never remembered is kept |
| TeleportObjects.TeleportObject.CanBeTeleported | MapEditorReborn/API/Features/Objects/TeleportObject.cs:224-248 | false without bound targets, when a lock event matches the world, or while cooling down; an error, always `NullReference`, exactly when the blocks pass and the collider has no network identity; true iff none of the blocks apply and the category flags admit the object |
| TeleportObjects.TeleportObject.EligibleLater | MapEditorReborn/API/Features/Objects/TeleportObject.cs:234 | once a teleport is eligible, a later clock keeps it eligible |
| TeleportObjects.TeleportObject.UnlockedIgnoresWorld | MapEditorReborn/API/Features/Objects/TeleportObject.cs:231-233 | a teleport without lock events decides the same whatever the decontamination and warhead state |
| TeleportObjects.TeleportObject.OnTriggerEnter | MapEditorReborn/API/Features/Objects/TeleportObject.cs:170-222 | checks run in source order: eligibility, then roles, then the choice. The choice permanently prunes the configured list; -1 rejects, and an unbound id throws. The event's veto stops the teleport. Only an approved teleport changes cooldowns, those of both ends and no other, and it moves the object as `Arrive` states, including the assertion failure that escapes after the move |
| TeleportObjects.TeleportObject.OnDestroy | MapEditorReborn/API/Features/Objects/TeleportObject.cs:250-266 | every teleport this one had bound as a target ends with its index rebuilt against the live list |

## Left out

- Floating point: chances, totals and the draw are exact reals. With exact arithmetic, the last-entry fallback of `Choose` is reached only for the draw 1, which Unity's inclusive `Random.value` can return. Rounding cases beyond that are not modelled.
- `Random.value` and `DateTime.Now` are parameters. All three `DateTime.Now` reads (the two cooldown resets in `OnTriggerEnter` at TeleportObject.cs:196-197 and the cooldown test in `CanBeTeleported` at TeleportObject.cs:234) are the one `world.now` of a trigger, and `AddSeconds` rounding to milliseconds is not modelled.
- `Timing.CallDelayed`: each deferred rebuild runs as one atomic step against the live list it is given. The 0.1 s delay, the debounce window and a rebuild queued after another are not modelled.
- The `Log` calls, the Mirror RPC that plays the sound, `Player.Get`, the Unity transform and the collider lookup are engine calls. The collider lookup becomes an optional game object; a missing one is the `NullReference` error.
- The teleporting event handler is a function on the event record. The source lets a handler replace `Player` and `GameObject` separately; the model keeps them together in one game object.
- TeleportObjects.TeleportObject.RefreshTargets: an exception inside the rebuild is given by the position `throwsAt` (the live-list entry and the configured target it was checking), not derived from engine state. `Init` and `OnDestroy` use the rebuild that does not throw.
- `Base` is never null in the model. In the source it is null from construction (TeleportObject.cs:29) until `Init` assigns it (TeleportObject.cs:87), so a live teleport that has not run `Init` makes every other rebuild that reaches it throw `NullReference` at TeleportObject.cs:138; such a rebuild is one whose `throwsAt` names that entry and its first target.
- A schematic's `ObjectFromId` is a map from id to teleport. A child whose `GetComponent<TeleportObject>()` is null is not modelled.
- `Base` is a value field, so the configuration record the caller passes to `Init` is not aliased with the component's. The id and first-target writes stay with the component.
- `Choose` removes the entry at the current position. The source's `List.Remove` removes the first equal entry, which is the same entry when the list holds distinct records.
- WeightedChoice.SentinelIffEmptied assumes that no survivor has the id -1. With such a survivor, the -1 it returns reads as "nothing chosen".
- Only the teleport branch (TeleportObject.cs:120-121, 134-139) guards against binding the teleport to itself. The schematic branch (TeleportObject.cs:123-129) has no such check, as `SchematicSelfBinding` shows; this is why `TeleportBindings` is stated for live lists without schematics.
- `UpdateObject` only calls `RefreshTargets` and is not modelled separately.
- The remaining files, `Add.cs`, `GravityGun.cs` and `SchematicObject.cs`, are command glue and a data record; they are not part of this model.

Where the code behaves differently from what a reader might expect, the model follows the code:

- Pruning in `Choose` writes the pruned list back into `Base.TargetTeleporters` for good, so the configuration itself changes.
- An empty target list throws: in `Choose` through index -1, and in `Init` on first placement when a teleport is already live. It does not degrade to a no-op.
- A chosen id missing from `TargetFromId` throws `KeyNotFound`. It is not a silent no-op.
- `OnDestroy` rebuilds the teleports this one pointed to, not the teleports that pointed at it.
- `RefreshTargets` clears the index before its `try`. An exception therefore leaves the index partial, not all-or-nothing.
- The draw is `Random.value * total` with `Random.value` in [0, 1], both ends included. It is not a draw from [0, total).
- A sound id other than -1 outside 0..31 fails `Log.Assert`, which logs and then throws. The cooldowns are already reset and the player already moved (and possibly turned), but the sound request is never sent.
