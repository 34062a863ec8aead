# 2.5D platformer locomotion core in Dafny

This project models the locomotion core of the Roundbeargames 2.5D platformer (Unity, C#).

- **`CharacterControl`** is the per-character controller. Its fixed-rate tick does the following, in order:
  - damps the rise when the jump is released;
  - eases the box collider's size and centre toward their targets;
  - repositions the collision spheres and snaps to the landing height;
  - clamps the fall speed.

  Around the tick sit the character registry, facing, and the lookups of body parts, child objects and attack parts.
- **`MoveForward`** is the locomotion state. Its enter, update and exit callbacks do the following:
  - hold an authority token (`LatestMoveForward`);
  - keep the signed `AIR_MOMENTUM` slot of the AirControl dataset;
  - set the animator's Jump, Turbo and Move booleans;
  - turn the character;
  - translate the character through one of three movement rules: momentum, constant or controlled.

Files:

- `geometry.dfy` (module `Geometry`): `Vector3` as a triple of reals, and `Mathf.Lerp`/`Vector3.Lerp` with their clamped factor. It proves that a lerp stays on its segment and scales the squared distance to its target by exactly (1 − Clamp01(t))², so it never moves away from the target.
- `registry.dfy` (module `Registry`): the character registry as a list that only appends absent entries. It proves idempotence and "exactly once".
- `character_control.dfy` (module `Character`): the engine objects the core touches and the class `CharacterControl`. Each tick step is also given as a value-level function.
- `move_forward.dfy` (module `MoveForwardAbility`): the class `MoveForward` and value-level specifications of each movement rule. It proves lemmas about momentum, facing, translations and animator booleans.

The classes keep the source's state:

- **Inputs** and the `AnimationProgress` fields are fields of their classes.
- **`AIR_MOMENTUM`** is the field `AirControl.AirMomentum`.
- **The animator's booleans** are a map that `Animator.SetBool` updates.
- **Facing** is the z component of `transform.forward`: +1 after `Euler(0, 0, 0)`, −1 after `Euler(0, 180, 0)`.
- **`transform.Translate`** appends a `Translation(speed, speedGraph, dt, forwardZ)` record to the field `translations`. `forwardZ` is the facing when the call is made, because `Translate` moves along the current local forward; so the record also shows whether a step came before or after a turn.
- **Sphere repositioning** appends to the field `sphereLog`, in call order.
- **Rigidbody writes of a hit** (a velocity set to zero, a force added) are appended to the field `bodyLog`, in call order.
- **`Time.deltaTime` and `stateInfo.normalizedTime`** are method parameters.
- **`AnimationCurve.Evaluate`** is the configuration function `SpeedGraph: real -> real`.

Every method states its whole new state in terms of the old one, through the value-level functions. The lemmas then state what those functions promise.

The momentum clamp is modelled as written. It tests the momentum read at the start of the tick, not the value just stored. So one tick can leave the stored momentum up to one step beyond `MaxMomentum`, as `MomentumCanOvershoot` exhibits. Both of these are proved:

- a momentum within one step of the bound stays within it over any run of ticks, each with its own step, blocking and inputs (`MomentumRunBounded`);
- one tick pulls a value beyond the bound back to exactly ±`MaxMomentum` (`MomentumWithinOneStep`).

The property "|momentum| ≤ MaxMomentum after every tick" does not hold for this code and is not claimed.

## Model

| member | source | states |
|---|---|---|
| Geometry.LerpScalarWithin | 2.5D_Platformer_LWRP/Assets/Roundbeargames_Tutorial/RB_Characters/States/Abilities_StateScripts/MoveForward.cs:159 | Mathf.Lerp stays between its end points, returns the start for a factor ≤ 0 and the end for a factor ≥ 1 |
| Geometry.LerpFullFactor | 2.5D_Platformer_LWRP/Assets/Roundbeargames_Tutorial/RB_Characters/CharacterControl/CharacterControl.cs:180-182 | Vector3.Lerp with a factor ≥ 1 returns its target |
| Geometry.LerpDistanceFactor | 2.5D_Platformer_LWRP/Assets/Roundbeargames_Tutorial/RB_Characters/CharacterControl/CharacterControl.cs:180-182 | a Vector3.Lerp step scales the squared distance to its target by exactly (1 − Clamp01(t))² |
| Geometry.LerpNeverMovesAway | 2.5D_Platformer_LWRP/Assets/Roundbeargames_Tutorial/RB_Characters/CharacterControl/CharacterControl.cs:180-182 | a Vector3.Lerp step never increases the squared distance to its target |
| Registry.Registered | 2.5D_Platformer_LWRP/Assets/Roundbeargames_Tutorial/RB_Characters/CharacterControl/CharacterControl.cs:146-152 | after registering, the character is present; a present one leaves the list unchanged; otherwise exactly it is appended and the old list is a prefix |
| Registry.RegisterIdempotent | 2.5D_Platformer_LWRP/Assets/Roundbeargames_Tutorial/RB_Characters/CharacterControl/CharacterControl.cs:146-152 | registering twice is registering once |
| Registry.RegisterKeepsDistinct | 2.5D_Platformer_LWRP/Assets/Roundbeargames_Tutorial/RB_Characters/CharacterControl/CharacterControl.cs:146-152 | registering keeps a duplicate-free registry duplicate-free |
| Registry.RegisterAllDistinct | 2.5D_Platformer_LWRP/Assets/Roundbeargames_Tutorial/RB_Characters/CharacterControl/CharacterControl.cs:146-152 | any sequence of registrations keeps the registry duplicate-free, holding every old entry and every registered character |
| Registry.RegisteredExactlyOnce | 2.5D_Platformer_LWRP/Assets/Roundbeargames_Tutorial/RB_Characters/CharacterControl/CharacterControl.cs:146-152 | after any registrations that include c, c occurs in the registry exactly once |
| Character.DampRise | 2.5D_Platformer_LWRP/Assets/Roundbeargames_Tutorial/RB_Characters/CharacterControl/CharacterControl.cs:216-224 | when the pull is not cancelled, the character rises and Jump is released, y becomes 0.9·y and x, z are kept; in every other case the velocity is unchanged; the rise never grows or changes sign |
| Character.ClampFall | 2.5D_Platformer_LWRP/Assets/Roundbeargames_Tutorial/RB_Characters/CharacterControl/CharacterControl.cs:246-255 | with a nonzero maxFall.y, a velocity at or below it becomes exactly the maxFall vector, so y ≥ maxFall.y afterwards; otherwise the velocity is unchanged |
| Character.ClampFallIdempotent | 2.5D_Platformer_LWRP/Assets/Roundbeargames_Tutorial/RB_Characters/CharacterControl/CharacterControl.cs:246-255 | clamping twice is clamping once |
| Character.ColliderStepConverges | 2.5D_Platformer_LWRP/Assets/Roundbeargames_Tutorial/RB_Characters/CharacterControl/CharacterControl.cs:173-205 | a collider step never ends farther from its target; with the ability stopped or the value within tolerance it changes nothing |
| Character.ColliderStepFactor | 2.5D_Platformer_LWRP/Assets/Roundbeargames_Tutorial/RB_Characters/CharacterControl/CharacterControl.cs:173-205 | a moving step scales the squared distance to the target by exactly (1 − Clamp01(dt·speed))² |
| Character.ColliderStepStrictlyCloser | 2.5D_Platformer_LWRP/Assets/Roundbeargames_Tutorial/RB_Characters/CharacterControl/CharacterControl.cs:173-205 | with dt·speed > 0 a moving step ends strictly closer to its target, so repeated ticks converge monotonically until the tolerance stops them |
| Character.ColliderStepFullFactor | 2.5D_Platformer_LWRP/Assets/Roundbeargames_Tutorial/RB_Characters/CharacterControl/CharacterControl.cs:173-205 | with dt·speed ≥ 1 a moving step lands exactly on the target, and a collider at its target stays there |
| Character.RotationForwardZ | 2.5D_Platformer_LWRP/Assets/Roundbeargames_Tutorial/RB_Characters/CharacterControl/CharacterControl.cs:275-282 | the rotation for "forward" points forward.z positive, the one for "backward" negative |
| Character.IndexOfName | 2.5D_Platformer_LWRP/Assets/Roundbeargames_Tutorial/RB_Characters/CharacterControl/CharacterControl.cs:317-326 | the result is the first child with that name, or -1 when no child has it |
| Character.ChildLookupTransparent | 2.5D_Platformer_LWRP/Assets/Roundbeargames_Tutorial/RB_Characters/CharacterControl/CharacterControl.cs:310-329 | with a cache that agrees with the children, a lookup returns what a fresh scan finds and keeps the cache in agreement; a miss leaves the cache unchanged |
| Character.Animator.SetBool | 2.5D_Platformer_LWRP/Assets/Roundbeargames_Tutorial/RB_Characters/States/Abilities_StateScripts/MoveForward.cs:97-107 | sets one parameter and leaves the others |
| Character.CharacterControl.constructor | 2.5D_Platformer_LWRP/Assets/Roundbeargames_Tutorial/RB_Characters/CharacterControl/CharacterControl.cs:82 | the child-object cache starts empty |
| Character.CharacterControl.RegisterCharacter | 2.5D_Platformer_LWRP/Assets/Roundbeargames_Tutorial/RB_Characters/CharacterControl/CharacterControl.cs:146-152 | the registry becomes Registered(old registry, this) |
| Character.HitWrites | 2.5D_Platformer_LWRP/Assets/Roundbeargames_Tutorial/RB_Characters/CharacterControl/CharacterControl.cs:154-171 | the rigidbody writes of a hit: the damaged body's force entry is last, every entry before it zeroes a ragdoll velocity in part order, and no zeroing comes after the force |
| Character.CharacterControl.AddForceToDamagedPart | 2.5D_Platformer_LWRP/Assets/Roundbeargames_Tutorial/RB_Characters/CharacterControl/CharacterControl.cs:154-171 | without a damaged part no body changes and nothing is logged; otherwise every ragdoll velocity is zeroed when asked (kept otherwise), the force is added to the damaged part's body alone, and `bodyLog` gains HitWrites, so every zeroing is recorded before the force |
| Character.CharacterControl.ZeroRagdollVelocities | 2.5D_Platformer_LWRP/Assets/Roundbeargames_Tutorial/RB_Characters/CharacterControl/CharacterControl.cs:158-164 | the foreach: every ragdoll part's velocity becomes zero, the zeroings are logged in part order, and no accumulated force changes |
| Character.CharacterControl.UpdateBoxColliderSize | 2.5D_Platformer_LWRP/Assets/Roundbeargames_Tutorial/RB_Characters/CharacterControl/CharacterControl.cs:173-188 | the size takes one ColliderStep; UpdatingSpheres is raised exactly when the ability runs and the size is outside tolerance, and is never cleared |
| Character.CharacterControl.UpdateBoxColliderCenter | 2.5D_Platformer_LWRP/Assets/Roundbeargames_Tutorial/RB_Characters/CharacterControl/CharacterControl.cs:190-205 | the same for the centre |
| Character.CharacterControl.FixedUpdate | 2.5D_Platformer_LWRP/Assets/Roundbeargames_Tutorial/RB_Characters/CharacterControl/CharacterControl.cs:212-256 | the velocity is ClampFall(DampRise(v)); size and centre take one ColliderStep; UpdatingSpheres is true iff the ability runs and size or centre was outside tolerance; the four sphere groups are repositioned in order and the landing snap (x = 0, y = landing y, z kept) happens only then |
| Character.CharacterControl.MoveForward | 2.5D_Platformer_LWRP/Assets/Roundbeargames_Tutorial/RB_Characters/CharacterControl/CharacterControl.cs:258-261 | records exactly one forward translation by speed, graph value and frame time, taken along the current facing, and changes nothing else |
| Character.CharacterControl.FaceForward | 2.5D_Platformer_LWRP/Assets/Roundbeargames_Tutorial/RB_Characters/CharacterControl/CharacterControl.cs:263-295 | no change in the character-select scene or with the skinned-mesh animator disabled; otherwise IsFacingForward() (forward.z > 0, lines 285-295) afterwards equals the argument |
| Character.CharacterControl.GetBodyPart | 2.5D_Platformer_LWRP/Assets/Roundbeargames_Tutorial/RB_Characters/CharacterControl/CharacterControl.cs:297-308 | null iff no part's name contains the text; otherwise the first part whose name contains it |
| Character.CharacterControl.GetChildObj | 2.5D_Platformer_LWRP/Assets/Roundbeargames_Tutorial/RB_Characters/CharacterControl/CharacterControl.cs:310-329 | result and new cache are ChildLookup of the old cache: a cached name is answered from the cache, a found one is cached, and a miss returns null with the cache unchanged |
| Character.CharacterControl.GetAttackingPart | 2.5D_Platformer_LWRP/Assets/Roundbeargames_Tutorial/RB_Characters/CharacterControl/CharacterControl.cs:331-355 | the melee weapon gives the held weapon's trigger object; a part outside the named ones gives null; a limb part gives one of the four attack slots |
| MoveForwardAbility.MomentumPriority | 2.5D_Platformer_LWRP/Assets/Roundbeargames_Tutorial/RB_Characters/States/Abilities_StateScripts/MoveForward.cs:141-175 | one tick's outcome: if \|m\| ≥ Max and m ≠ 0, sign(m)·Max; else the wall drag if either side is blocked; else m − step with left held; else m + step with right held; else m |
| MoveForwardAbility.LeftOverridesRight | 2.5D_Platformer_LWRP/Assets/Roundbeargames_Tutorial/RB_Characters/States/Abilities_StateScripts/MoveForward.cs:141-155 | with both inputs held and both sides free, the left write wins: m − step |
| MoveForwardAbility.WallDragShrinks | 2.5D_Platformer_LWRP/Assets/Roundbeargames_Tutorial/RB_Characters/States/Abilities_StateScripts/MoveForward.cs:157-162 | against a wall the momentum moves toward 0 without changing sign, whatever the inputs |
| MoveForwardAbility.MomentumStepBound | 2.5D_Platformer_LWRP/Assets/Roundbeargames_Tutorial/RB_Characters/States/Abilities_StateScripts/MoveForward.cs:141-175 | \|result\| ≤ \|m\| + \|step\| |
| MoveForwardAbility.MomentumWithinOneStep | 2.5D_Platformer_LWRP/Assets/Roundbeargames_Tutorial/RB_Characters/States/Abilities_StateScripts/MoveForward.cs:165-175 | with a step of at most bound, a momentum within bound of Max stays there, and one beyond Max is brought back to exactly ±Max |
| MoveForwardAbility.MomentumCanOvershoot | 2.5D_Platformer_LWRP/Assets/Roundbeargames_Tutorial/RB_Characters/States/Abilities_StateScripts/MoveForward.cs:165-175 | the clamp tests the entry value: from 4.9 with step 0.2 and Max 5, one tick stores 5.1 |
| MoveForwardAbility.MomentumRunBounded | 2.5D_Platformer_LWRP/Assets/Roundbeargames_Tutorial/RB_Characters/States/Abilities_StateScripts/MoveForward.cs:135-175 | over any sequence of ticks, each with its own step (\|step\| ≤ bound), blocking, inputs and dt, \|momentum\| stays ≤ Max + bound |
| MoveForwardAbility.AccelerateFromRest | 2.5D_Platformer_LWRP/Assets/Roundbeargames_Tutorial/RB_Characters/States/Abilities_StateScripts/MoveForward.cs:141-175 | holding right in the open from rest under a maximum of k·step (k ≥ 1), the momentum after n frames is min(n, k)·step |
| MoveForwardAbility.AccelerateFrom | 2.5D_Platformer_LWRP/Assets/Roundbeargames_Tutorial/RB_Characters/States/Abilities_StateScripts/MoveForward.cs:141-175 | the same starting from i ≤ k steps: min(i + n, k) steps |
| MoveForwardAbility.EarlyTurnFaces | 2.5D_Platformer_LWRP/Assets/Roundbeargames_Tutorial/RB_Characters/States/Abilities_StateScripts/MoveForward.cs:39-52 | the early turn faces the held input, the right one when both are held; facing is kept when the turn is not allowed, turning is impossible, or no input is held |
| MoveForwardAbility.MomentumFacesEntrySign | 2.5D_Platformer_LWRP/Assets/Roundbeargames_Tutorial/RB_Characters/States/Abilities_StateScripts/MoveForward.cs:177-184 | after a momentum tick the character faces the sign of the entry momentum, not the new one; zero momentum keeps the facing |
| MoveForwardAbility.ControlledMovesAtMostOnce | 2.5D_Platformer_LWRP/Assets/Roundbeargames_Tutorial/RB_Characters/States/Abilities_StateScripts/MoveForward.cs:223-254 | controlled movement translates at most once per update, exactly when one input is held and the front is free, at the configured speed and along the facing of the start of the frame |
| MoveForwardAbility.ControlledTurnsToInput | 2.5D_Platformer_LWRP/Assets/Roundbeargames_Tutorial/RB_Characters/States/Abilities_StateScripts/MoveForward.cs:223-270 | with exactly one input held and no direction lock, the character ends facing that input; otherwise facing is kept |
| MoveForwardAbility.ControlledStepsBeforeTurn | 2.5D_Platformer_LWRP/Assets/Roundbeargames_Tutorial/RB_Characters/States/Abilities_StateScripts/MoveForward.cs:237-253 | on a reversal (one input held against the facing, no lock, front free), the single controlled step is taken along the old facing, and the facing the frame ends with points the other way |
| MoveForwardAbility.MomentumStepsAfterTurn | 2.5D_Platformer_LWRP/Assets/Roundbeargames_Tutorial/RB_Characters/States/Abilities_StateScripts/MoveForward.cs:177-189 | when the character can turn and the entry momentum is nonzero, the momentum step goes along the facing the entry momentum's sign selects, by a positive magnitude |
| MoveForwardAbility.CheckTurnLeftWins | 2.5D_Platformer_LWRP/Assets/Roundbeargames_Tutorial/RB_Characters/States/Abilities_StateScripts/MoveForward.cs:256-270 | CheckTurn as written, given both inputs, leaves the character facing left; ControlledMove returns before calling it in that case, so no update reaches it |
| MoveForwardAbility.UpdatedBoolsEffect | 2.5D_Platformer_LWRP/Assets/Roundbeargames_Tutorial/RB_Characters/States/Abilities_StateScripts/MoveForward.cs:93-108 | after an update Turbo equals the input; Jump is raised only for a jump on ground and never cleared; Move changes only when the mode sets it; no other parameter changes |
| MoveForwardAbility.MoveForward.constructor | 2.5D_Platformer_LWRP/Assets/Roundbeargames_Tutorial/RB_Characters/States/Abilities_StateScripts/MoveForward.cs:13-33 | the configuration fields take the given values |
| MoveForwardAbility.MoveForward.OnEnter | 2.5D_Platformer_LWRP/Assets/Roundbeargames_Tutorial/RB_Characters/States/Abilities_StateScripts/MoveForward.cs:35-68 | takes LatestMoveForward; performs the early turn; sets the momentum to ±StartingMomentum along the resulting facing when StartingMomentum > 0.001, and leaves it otherwise; ends with both turn flags false |
| MoveForwardAbility.MoveForward.OnExit | 2.5D_Platformer_LWRP/Assets/Roundbeargames_Tutorial/RB_Characters/States/Abilities_StateScripts/MoveForward.cs:127-133 | zeroes the momentum iff ClearMomentumOnExit |
| MoveForwardAbility.MoveForward.UpdateAbility | 2.5D_Platformer_LWRP/Assets/Roundbeargames_Tutorial/RB_Characters/States/Abilities_StateScripts/MoveForward.cs:70-125 | always hands LockDirectionNextState on; a stale instance or a running wall slide changes nothing else; otherwise the ignore flag, the animator bools, momentum, facing and translations are as the chosen mode specifies |
| MoveForwardAbility.MoveForward.MoveByMode | 2.5D_Platformer_LWRP/Assets/Roundbeargames_Tutorial/RB_Characters/States/Abilities_StateScripts/MoveForward.cs:110-124 | exactly one movement rule runs, chosen by UseMomentum and then Constant; only the momentum rule touches momentum and the constant rule never turns |
| MoveForwardAbility.MoveForward.ActiveUpdate | 2.5D_Platformer_LWRP/Assets/Roundbeargames_Tutorial/RB_Characters/States/Abilities_StateScripts/MoveForward.cs:91-124 | past the guards: the ignore flag is the ignore window, the animator bools are updated with Jump, Turbo and the mode's Move, and momentum, facing and translations are those the chosen mode specifies |
| MoveForwardAbility.MoveForward.SetJumpAndTurbo | 2.5D_Platformer_LWRP/Assets/Roundbeargames_Tutorial/RB_Characters/States/Abilities_StateScripts/MoveForward.cs:93-108 | Jump is raised only for a jump on ground, Turbo is set to the input, and no other bool changes |
| MoveForwardAbility.MoveForward.UpdateMomentum | 2.5D_Platformer_LWRP/Assets/Roundbeargames_Tutorial/RB_Characters/States/Abilities_StateScripts/MoveForward.cs:135-190 | stores MomentumAfter of the entry momentum with this frame's Step (SpeedGraph · Speed · dt, line 139); faces by the entry sign; translates by \|entry momentum\| only when IsBlocked (FrontBlockingDicCount ≠ 0, lines 290-300) is false, along the facing after that turn (the turn, lines 177-184, comes before the step, lines 186-189) |
| MoveForwardAbility.MoveForward.ConstantMove | 2.5D_Platformer_LWRP/Assets/Roundbeargames_Tutorial/RB_Characters/States/Abilities_StateScripts/MoveForward.cs:192-221 | one translation when not IsBlocked, with the speed negated iff MoveOnHit and facing the attacker, along the unchanged facing; Move is set to right ∨ left |
| MoveForwardAbility.MoveForward.ControlledMove | 2.5D_Platformer_LWRP/Assets/Roundbeargames_Tutorial/RB_Characters/States/Abilities_StateScripts/MoveForward.cs:223-254 | with both or neither input held: Move false, no translation and no turn; otherwise the translations and turn of the single held input, with Move untouched; the step is recorded with the facing from before CheckTurn (lines 237-251 step, line 253 turns) |
| MoveForwardAbility.MoveForward.CheckTurn | 2.5D_Platformer_LWRP/Assets/Roundbeargames_Tutorial/RB_Characters/States/Abilities_StateScripts/MoveForward.cs:256-270 | facing becomes CheckTurnZ: right, then left overriding it, nothing under LockDirection |
| MoveForwardAbility.MoveForward.UpdateCharacterIgnoreTime | 2.5D_Platformer_LWRP/Assets/Roundbeargames_Tutorial/RB_Characters/States/Abilities_StateScripts/MoveForward.cs:272-288 | IsIgnoreCharacterTime becomes IgnoreStartTime < t < IgnoreEndTime (strict), whatever IgnoreCharacterBox is |

## Left out

- Floating-point rounding: all floats are reals.
- The internals of `Quaternion.Euler` and `transform.Translate`: facing is the sign of forward.z, and a translation is a record of its three factors and the facing it is taken along.
- `Time.deltaTime`, `stateInfo.normalizedTime` and `AnimationCurve.Evaluate` are parameters or configuration, not engine state.
- `Update`, and the `subComponentProcessor` calls at the start of `Update` and `FixedUpdate` (CharacterControl.cs:207-214): the sub-components they dispatch to are not part of this model.
- `Awake`, `CacheCharacterControl` and `OnCollisionStay` (CharacterControl.cs:97-144): engine component lookup and collision callbacks.
- `SendPathfindingAgent`: a thin adapter over resource loading and the navigation agent, with no logic of its own.
- Character.CharacterControl.AddForceToDamagedPart: the force is a parameter. The attacker's forward/right/up axes scaled by the attack's forces are not modelled, and neither is the rigidbody's response to `AddForce`: the force accumulates in `accumulatedForce`.
- `AnimationProgress.IsRunning(typeof(UpdateBoxCollider))`, `IsRunning(typeof(WallSlide))`, `IsFacingAttacker()` and `Ground != null` are boolean fields. Their implementations are not part of this model.
- Several engine state checks are boolean fields as well:
  - the scene-name check in `FaceForward` (`InCharacterSelectScene`);
  - `SkinnedMeshAnimator.enabled` (`SkinnedMeshEnabled`).
- The `HashManager` parameter-hash lookup: animator booleans are keyed by `TransitionParameter` directly.
- `CharacterManager.Instance` is passed as an explicit `CharacterManager`.
- The dataset lookups `AIR_CONTROL.GetBool/GetFloat/GetVector3` are fields of `AirControl`.
- `BLOCKING_DATA`'s queries are the `BlockingData` value.
- `Debug.Log` under the `debug` flag, and the unused `BlockDistance` setting.
- `GetComponentsInChildren<Transform>()` is the field `Children`: the objects in engine order, which do not change during a lookup.
- `Contains` on names is ordinal substring search.
- The `AttackPartType` enum is not part of this model. Its named values are the five the source tests. `OtherPart` stands for any other value, for which the source returns null.
- Character.CharacterControl.GetAttackingPart: the contract says a limb part returns one of the four attack slots, not which one.
  - The source reads `HoldingWeapon.triggerDetector.gameObject`, which throws when no weapon is held. The model requires a held weapon (a non-null trigger object) for `MeleeWeapon` instead of modelling the exception.
- MoveForwardAbility.MoveForward.UpdateMomentum: the source writes `AIR_MOMENTUM` once per firing branch. The model gathers those writes in a local and stores the last one once. The slot is not read in between, so the stored value is the same; intermediate values of the slot are not modelled.
- Collision-sphere repositioning is only recorded (`sphereLog`), in call order. The positions the spheres get are not part of this model.
- `RIGID_BODY.MovePosition` is an assignment to `position`.
