/** The per-character controller (CharacterControl) and the components it
    reads and writes: the animation-progress scratch record, the air-control
    dataset, the animator's boolean parameters, the ragdoll bodies and the
    character registry. */
module Character {
  import opened Geometry
  import opened Registry

  /** The animator's transition parameters. */
  datatype TransitionParameter =
    | Move | Jump | ForceTransition | Grounded | Attack
    | ClickAnimation | TransitionIndex | Turbo | Turn | LockTransition

  /** The attack parts an attack can name; a C# enum can also hold a value
      outside the named ones, which OtherPart stands for. */
  datatype AttackPartType = LeftHand | RightHand | LeftFoot | RightFoot | MeleeWeapon | OtherPart

  /** The four groups of collision spheres that CollisionSpheres repositions. */
  datatype SphereGroup = FrontSpheres | BottomSpheres | BackSpheres | UpSpheres

  /** One call of transform.Translate along the local forward axis:
      Speed * SpeedGraph * Time.deltaTime, taken along the facing (the z of
      the local forward) the character had when the call was made. */
  datatype Translation = Translation(speed: real, speedGraph: real, dt: real, forwardZ: real)

  /** The blocking queries the locomotion code reads (BlockingObjData). */
  datatype BlockingData = BlockingData(RightSideBlocked: bool, LeftSideBlocked: bool, FrontBlockingDicCount: int)

  /** Squared-distance tolerance of the box-collider interpolation (0.00001f). */
  const SqrTolerance: real := 0.00001

  /** Fraction of the upward velocity removed per tick when the jump is released (0.1f). */
  const RiseDamping: real := 0.1

  /** The four sphere groups, in the order FixedUpdate repositions them. */
  const RepositionOrder: seq<SphereGroup> := [FrontSpheres, BottomSpheres, BackSpheres, UpSpheres]

  // ---------------------------------------------------------------------------
  // Value-level specification of the FixedUpdate steps

  /** The upward-velocity damping step: when the pull is not cancelled, the
      character rises and Jump is released, the vertical speed shrinks to 90%. */
  function DampRise(v: Vec3, cancelPull: bool, jumpHeld: bool): (r: Vec3)
    ensures r.x == v.x && r.z == v.z
    ensures !cancelPull && v.y > 0.0 && !jumpHeld ==> r.y == 0.9 * v.y
    ensures cancelPull || v.y <= 0.0 || jumpHeld ==> r == v
    ensures r.y <= v.y && (r.y > 0.0 <==> v.y > 0.0)
  {
    if !cancelPull && v.y > 0.0 && !jumpHeld then Sub(v, Scale(Up, v.y * RiseDamping)) else v
  }

  /** The fall clamp: a nonzero maxFall.y is a floor for the vertical velocity,
      and reaching it replaces the whole velocity by maxFall. */
  function ClampFall(v: Vec3, maxFall: Vec3): (r: Vec3)
    ensures maxFall.y != 0.0 ==> r.y >= maxFall.y
    ensures maxFall.y != 0.0 && v.y <= maxFall.y ==> r == maxFall
    ensures maxFall.y == 0.0 || v.y > maxFall.y ==> r == v
  {
    if maxFall.y != 0.0 && v.y <= maxFall.y then maxFall else v
  }

  /** Clamping twice is clamping once. */
  lemma ClampFallIdempotent(v: Vec3, maxFall: Vec3)
    ensures ClampFall(ClampFall(v, maxFall), maxFall) == ClampFall(v, maxFall)
  {
  }

  /** The value is more than the tolerance (squared) away from its target. */
  predicate OutsideTolerance(current: Vec3, target: Vec3) {
    SqrMagnitude(Sub(current, target)) > SqrTolerance
  }

  /** One UpdateBoxCollider_Size/Center step of a collider vector toward its
      target with lerp factor dt * speed: it moves only while the
      UpdateBoxCollider ability runs and the vector is outside the tolerance. */
  function ColliderStep(running: bool, current: Vec3, target: Vec3, dt: real, speed: real): Vec3 {
    if running && OutsideTolerance(current, target) then Lerp(current, target, dt * speed) else current
  }

  /** A collider step never ends farther from the target than it started;
      once inside the tolerance, or while the ability is not running, it
      changes nothing. */
  lemma ColliderStepConverges(running: bool, current: Vec3, target: Vec3, dt: real, speed: real)
    ensures SqrMagnitude(Sub(ColliderStep(running, current, target, dt, speed), target)) <= SqrMagnitude(Sub(current, target))
    ensures !running || !OutsideTolerance(current, target) ==> ColliderStep(running, current, target, dt, speed) == current
  {
    if running && OutsideTolerance(current, target) {
      LerpNeverMovesAway(current, target, dt * speed);
    }
  }

  /** A moving collider step keeps exactly the fraction (1 - Clamp01(dt * speed))^2
      of the squared distance to its target. */
  lemma ColliderStepFactor(current: Vec3, target: Vec3, dt: real, speed: real)
    requires OutsideTolerance(current, target)
    ensures SqrMagnitude(Sub(ColliderStep(true, current, target, dt, speed), target))
      == Sq(1.0 - Clamp01(dt * speed)) * SqrMagnitude(Sub(current, target))
  {
    var f := dt * speed;
    assert ColliderStep(true, current, target, dt, speed) == Lerp(current, target, f);
    LerpDistanceFactor(current, target, f);
  }

  /** With a positive dt * speed every moving collider step ends strictly
      closer to its target, so repeated ticks toward a fixed target converge
      monotonically until the tolerance stops them. */
  lemma ColliderStepStrictlyCloser(current: Vec3, target: Vec3, dt: real, speed: real)
    requires OutsideTolerance(current, target) && dt * speed > 0.0
    ensures SqrMagnitude(Sub(ColliderStep(true, current, target, dt, speed), target)) < SqrMagnitude(Sub(current, target))
  {
    ColliderStepFactor(current, target, dt, speed);
    LerpFactorShrinks(SqrMagnitude(Sub(ColliderStep(true, current, target, dt, speed), target)),
                      SqrMagnitude(Sub(current, target)), dt * speed);
  }

  /** With a lerp factor dt * speed of at least 1 a moving collider step lands
      exactly on the target, and a collider at its target stays there. */
  lemma ColliderStepFullFactor(current: Vec3, target: Vec3, dt: real, speed: real)
    requires dt * speed >= 1.0
    ensures OutsideTolerance(current, target) ==> ColliderStep(true, current, target, dt, speed) == target
    ensures ColliderStep(true, target, target, dt, speed) == target
  {
    LerpFullFactor(current, target, dt * speed);
    assert Sub(target, target) == Zero;
  }

  /** z of transform.forward after the rotation Euler(0, 0, 0) (forward) or
      Euler(0, 180, 0) (backward). */
  function RotationForwardZ(forward: bool): (z: real)
    ensures (z > 0.0) == forward
  {
    if forward then 1.0 else -1.0
  }

  // ---------------------------------------------------------------------------
  // Lookups

  /** String.Contains: sub occurs in s as a contiguous run (ordinal comparison). */
  function Contains(s: string, sub: string): bool
    decreases |s|
  {
    |sub| <= |s| && (s[..|sub|] == sub || Contains(s[1..], sub))
  }

  /** Index of the first object named name, or -1 when there is none. */
  function IndexOfName(objects: seq<GameObject>, name: string): (k: int)
    ensures -1 <= k < |objects|
    ensures k >= 0 ==> objects[k].name == name
    ensures forall j :: 0 <= j < |objects| && (k < 0 || j < k) ==> objects[j].name != name
  {
    if objects == [] then -1
    else if objects[0].name == name then 0
    else
      var k := IndexOfName(objects[1..], name);
      if k < 0 then -1 else k + 1
  }

  /** The memoising child lookup as a value: the result and the new cache. */
  function ChildLookup(cache: map<string, GameObject>, children: seq<GameObject>, name: string): (GameObject?, map<string, GameObject>)
  {
    if name in cache then (cache[name], cache)
    else
      var k := IndexOfName(children, name);
      if k < 0 then (null, cache) else (children[k], cache[name := children[k]])
  }

  /** Every cached entry is what a fresh scan of the children would find. */
  ghost predicate CacheAgrees(cache: map<string, GameObject>, children: seq<GameObject>) {
    forall n :: n in cache ==> IndexOfName(children, n) >= 0 && cache[n] == children[IndexOfName(children, n)]
  }

  /** The cache is transparent: while the children do not change, a lookup
      returns what a fresh scan returns and keeps the cache in agreement; a miss
      leaves the cache as it was. */
  lemma ChildLookupTransparent(cache: map<string, GameObject>, children: seq<GameObject>, name: string)
    requires CacheAgrees(cache, children)
    ensures var k := IndexOfName(children, name);
      ChildLookup(cache, children, name).0 == (if k < 0 then null else children[k])
    ensures CacheAgrees(ChildLookup(cache, children, name).1, children)
    ensures ChildLookup(cache, children, name).0 == null ==> ChildLookup(cache, children, name).1 == cache
  {
  }

  /** A write one method makes to a rigidbody. */
  datatype BodyWrite = VelocityZeroed(body: Rigidbody) | ForceAdded(body: Rigidbody, force: Vec3)

  /** Zeroing the velocity of each part's rigidbody, in part order. */
  function ZeroWrites(parts: seq<BodyPart>): (w: seq<BodyWrite>)
    ensures |w| == |parts|
    ensures forall j :: 0 <= j < |w| ==> w[j] == VelocityZeroed(parts[j].attachedRigidbody)
  {
    if parts == [] then [] else ZeroWrites(parts[..|parts| - 1]) + [VelocityZeroed(parts[|parts| - 1].attachedRigidbody)]
  }

  /** The rigidbody writes of a hit on a damaged part: each ragdoll velocity
      zeroed in part order when asked, and only then the force added to the
      damaged part's body. */
  function HitWrites(parts: seq<BodyPart>, zeroVelocity: bool, damaged: Rigidbody, force: Vec3): (w: seq<BodyWrite>)
    ensures |w| == (if zeroVelocity then |parts| else 0) + 1
    ensures w[|w| - 1] == ForceAdded(damaged, force)
    ensures forall j :: 0 <= j < |w| - 1 ==> w[j] == VelocityZeroed(parts[j].attachedRigidbody)
    ensures forall i, j :: 0 <= i < |w| && 0 <= j < |w| && w[i].ForceAdded? && w[j].VelocityZeroed? ==> j < i
  {
    (if zeroVelocity then ZeroWrites(parts) else []) + [ForceAdded(damaged, force)]
  }

  // ---------------------------------------------------------------------------
  // Engine objects

  class GameObject {
    const name: string
    constructor (name: string)
      ensures this.name == name
    {
      this.name := name;
    }
  }

  /** A rigidbody: its velocity and the force accumulated by AddForce for the
      next physics step. */
  class Rigidbody {
    var velocity: Vec3
    var accumulatedForce: Vec3
  }

  /** A ragdoll collider and the rigidbody it is attached to. */
  class BodyPart {
    const name: string
    const attachedRigidbody: Rigidbody
    constructor (name: string, body: Rigidbody)
      ensures this.name == name && attachedRigidbody == body
    {
      this.name := name;
      attachedRigidbody := body;
    }
  }

  /** The animator's boolean parameters. */
  class Animator {
    var bools: map<TransitionParameter, bool>

    method SetBool(p: TransitionParameter, value: bool)
      modifies this`bools
      ensures bools == old(bools)[p := value]
    {
      bools := bools[p := value];
    }
  }

  /** The AirControl dataset slots read and written by the core. */
  class AirControl {
    var CancelPull: bool        // AirControlBool.CANCEL_PULL
    var AirMomentum: real       // AirControlFloat.AIR_MOMENTUM
    var MaxFallVelocity: Vec3   // AirControlVector3.MAX_FALL_VELOCITY
  }

  /** The per-character scratch record (AnimationProgress). The queries whose
      implementations are not part of this model are fields: whether the
      UpdateBoxCollider and WallSlide abilities run, whether the character faces
      its attacker, and whether it stands on ground. */
  class AnimationProgress {
    var LatestMoveForward: object?
    var disallowEarlyTurn: bool
    var LockDirectionNextState: bool
    var IsIgnoreCharacterTime: bool
    var UpdatingSpheres: bool
    var TargetSize: Vec3
    var SizeSpeed: real
    var TargetCenter: Vec3
    var CenterSpeed: real
    var IsLanding: bool
    var LandingPosition: Vec3
    var HasGround: bool
    var RunningUpdateBoxCollider: bool
    var RunningWallSlide: bool
    var FacingAttacker: bool
    /** The game object of the held weapon's trigger detector; null when no
        weapon is held. */
    var HoldingWeaponTrigger: GameObject?
  }

  /** The process-wide character registry, passed explicitly. */
  class CharacterManager {
    var Characters: seq<CharacterControl>
  }

  class CharacterControl {
    // input
    var Turbo: bool
    var MoveRight: bool
    var MoveLeft: bool
    var Jump: bool

    // sub-components
    const animationProgress: AnimationProgress
    const airControl: AirControl
    var blocking: BlockingData
    var BodyParts: seq<BodyPart>
    var DamagedTrigger: BodyPart?

    // body and transform
    var velocity: Vec3
    var position: Vec3
    /** z of transform.forward */
    var forwardZ: real
    var translations: seq<Translation>
    var boxSize: Vec3
    var boxCenter: Vec3
    var sphereLog: seq<SphereGroup>
    /** The writes this character has made to ragdoll rigidbodies, in order. */
    var bodyLog: seq<BodyWrite>

    // setup and scene
    var SkinnedMeshEnabled: bool
    var InCharacterSelectScene: bool
    var LeftHandAttack: GameObject?
    var RightHandAttack: GameObject?
    var LeftFootAttack: GameObject?
    var RightFootAttack: GameObject?
    /** The game objects of this character and its descendants, in engine order. */
    var Children: seq<GameObject>
    var ChildObjects: map<string, GameObject>

    constructor (progress: AnimationProgress, air: AirControl)
      ensures animationProgress == progress && airControl == air
      ensures ChildObjects == map[] && translations == [] && sphereLog == [] && bodyLog == []
    {
      animationProgress := progress;
      airControl := air;
      ChildObjects := map[];
      translations := [];
      sphereLog := [];
      bodyLog := [];
    }

    /** Appends this character to the registry only when it is absent. */
    method RegisterCharacter(manager: CharacterManager)
      modifies manager`Characters
      ensures manager.Characters == Registered(old(manager.Characters), this)
    {
      if this !in manager.Characters {
        manager.Characters := manager.Characters + [this];
      }
    }

    /** Zeroes every ragdoll velocity first (when asked) and then adds the
        hit force to the damaged part's rigidbody; nothing happens without a
        damaged part. */
    method AddForceToDamagedPart(zeroVelocity: bool, force: Vec3)
      modifies RagdollBodies()`velocity, DamagedBodies()`accumulatedForce, this`bodyLog
      ensures bodyLog == old(bodyLog) +
        (if DamagedTrigger == null then [] else HitWrites(BodyParts, zeroVelocity, DamagedTrigger.attachedRigidbody, force))
      ensures DamagedTrigger == null ==> unchanged(RagdollBodies())
      ensures DamagedTrigger != null ==>
        var d := DamagedTrigger.attachedRigidbody;
        && d.accumulatedForce == Add(old(d.accumulatedForce), force)
        && (zeroVelocity ==> forall i :: 0 <= i < |BodyParts| ==> BodyParts[i].attachedRigidbody.velocity == Zero)
        && (!zeroVelocity || d !in RagdollBodies() ==> d.velocity == old(d.velocity))
        && (!zeroVelocity ==> forall i :: 0 <= i < |BodyParts| ==> BodyParts[i].attachedRigidbody.velocity == old(BodyParts[i].attachedRigidbody.velocity))
        && (forall i :: 0 <= i < |BodyParts| && BodyParts[i].attachedRigidbody != d ==>
              BodyParts[i].attachedRigidbody.accumulatedForce == old(BodyParts[i].attachedRigidbody.accumulatedForce))
    {
      if DamagedTrigger != null {
        if zeroVelocity {
          ZeroRagdollVelocities();
        }
        var d := DamagedTrigger.attachedRigidbody;
        d.accumulatedForce := Add(d.accumulatedForce, force);
        bodyLog := bodyLog + [ForceAdded(d, force)];
      }
    }

    /** The foreach over the ragdoll parts: sets each part's velocity to zero,
        in part order, and touches no force. */
    method ZeroRagdollVelocities()
      modifies RagdollBodies()`velocity, this`bodyLog
      ensures bodyLog == old(bodyLog) + ZeroWrites(BodyParts)
      ensures forall i :: 0 <= i < |BodyParts| ==> BodyParts[i].attachedRigidbody.velocity == Zero
      ensures forall b :: b in RagdollBodies() ==> b.accumulatedForce == old(b.accumulatedForce)
    {
      var i := 0;
      while i < |BodyParts|
        invariant 0 <= i <= |BodyParts|
        invariant bodyLog == old(bodyLog) + ZeroWrites(BodyParts[..i])
        invariant forall j :: 0 <= j < i ==> BodyParts[j].attachedRigidbody.velocity == Zero
      {
        BodyParts[i].attachedRigidbody.velocity := Zero;
        assert BodyParts[..i + 1][..i] == BodyParts[..i];
        bodyLog := bodyLog + [VelocityZeroed(BodyParts[i].attachedRigidbody)];
        i := i + 1;
      }
      assert BodyParts[..i] == BodyParts;
    }

    ghost function RagdollBodies(): set<Rigidbody>
      reads this`BodyParts
    {
      set i | 0 <= i < |BodyParts| :: BodyParts[i].attachedRigidbody
    }

    ghost function DamagedBodies(): set<Rigidbody>
      reads this`DamagedTrigger
    {
      if DamagedTrigger == null then {} else {DamagedTrigger.attachedRigidbody}
    }

    /** Moves the box-collider size one step toward its target while the
        UpdateBoxCollider ability runs, raising UpdatingSpheres when it moves.
        (The ability settings are not written here, so they are read in the
        pre-state.) */
    method UpdateBoxColliderSize(dt: real)
      modifies this`boxSize, animationProgress`UpdatingSpheres
      ensures boxSize == ColliderStep(old(animationProgress.RunningUpdateBoxCollider), old(boxSize),
                                      old(animationProgress.TargetSize), dt, old(animationProgress.SizeSpeed))
      ensures animationProgress.UpdatingSpheres ==
        (old(animationProgress.UpdatingSpheres) ||
         (old(animationProgress.RunningUpdateBoxCollider) &&
          OutsideTolerance(old(boxSize), old(animationProgress.TargetSize))))
    {
      if !animationProgress.RunningUpdateBoxCollider {
        return;
      }
      if SqrMagnitude(Sub(boxSize, animationProgress.TargetSize)) > SqrTolerance {
        boxSize := Lerp(boxSize, animationProgress.TargetSize, dt * animationProgress.SizeSpeed);
        animationProgress.UpdatingSpheres := true;
      }
    }

    /** The same step for the box-collider centre. */
    method UpdateBoxColliderCenter(dt: real)
      modifies this`boxCenter, animationProgress`UpdatingSpheres
      ensures boxCenter == ColliderStep(old(animationProgress.RunningUpdateBoxCollider), old(boxCenter),
                                        old(animationProgress.TargetCenter), dt, old(animationProgress.CenterSpeed))
      ensures animationProgress.UpdatingSpheres ==
        (old(animationProgress.UpdatingSpheres) ||
         (old(animationProgress.RunningUpdateBoxCollider) &&
          OutsideTolerance(old(boxCenter), old(animationProgress.TargetCenter))))
    {
      if !animationProgress.RunningUpdateBoxCollider {
        return;
      }
      if SqrMagnitude(Sub(boxCenter, animationProgress.TargetCenter)) > SqrTolerance {
        boxCenter := Lerp(boxCenter, animationProgress.TargetCenter, dt * animationProgress.CenterSpeed);
        animationProgress.UpdatingSpheres := true;
      }
    }

    /** The fixed-rate tick: damp the rise, recompute UpdatingSpheres from the
        collider pass, reposition the spheres and snap to the landing height
        only when it is set, then clamp the fall velocity. Only the fields
        listed in modifies change; the inputs are read in the pre-state. */
    method FixedUpdate(dt: real)
      modifies this`velocity, this`position, this`boxSize, this`boxCenter, this`sphereLog,
               animationProgress`UpdatingSpheres
      ensures velocity == ClampFall(DampRise(old(velocity), old(airControl.CancelPull), old(Jump)),
                                    old(airControl.MaxFallVelocity))
      ensures boxSize == ColliderStep(old(animationProgress.RunningUpdateBoxCollider), old(boxSize),
                                      old(animationProgress.TargetSize), dt, old(animationProgress.SizeSpeed))
      ensures boxCenter == ColliderStep(old(animationProgress.RunningUpdateBoxCollider), old(boxCenter),
                                        old(animationProgress.TargetCenter), dt, old(animationProgress.CenterSpeed))
      ensures animationProgress.UpdatingSpheres ==
        (old(animationProgress.RunningUpdateBoxCollider) &&
         (OutsideTolerance(old(boxSize), old(animationProgress.TargetSize)) ||
          OutsideTolerance(old(boxCenter), old(animationProgress.TargetCenter))))
      ensures sphereLog == old(sphereLog) + (if animationProgress.UpdatingSpheres then RepositionOrder else [])
      ensures position ==
        if animationProgress.UpdatingSpheres && old(animationProgress.IsLanding)
        then Vec3(0.0, old(animationProgress.LandingPosition).y, old(position).z)
        else old(position)
    {
      var cancelPull := airControl.CancelPull;
      if !cancelPull {
        if velocity.y > 0.0 && !Jump {
          velocity := Sub(velocity, Scale(Up, velocity.y * RiseDamping));
        }
      }

      animationProgress.UpdatingSpheres := false;
      UpdateBoxColliderSize(dt);
      UpdateBoxColliderCenter(dt);
      if animationProgress.UpdatingSpheres {
        // Reposition_FrontSpheres, _BottomSpheres, _BackSpheres, _UpSpheres
        sphereLog := sphereLog + RepositionOrder;

        if animationProgress.IsLanding {
          position := Vec3(0.0, animationProgress.LandingPosition.y, position.z);
        }
      }

      var maxFallVelocity := airControl.MaxFallVelocity;
      if maxFallVelocity.y != 0.0 {
        if velocity.y <= maxFallVelocity.y {
          velocity := maxFallVelocity;
        }
      }
    }

    /** transform.Translate(Vector3.forward * speed * speedGraph * dt): the
        step goes along the current local forward, so it records the facing. */
    method MoveForward(speed: real, speedGraph: real, dt: real)
      modifies this`translations
      ensures translations == old(translations) + [Translation(speed, speedGraph, dt, forwardZ)]
    {
      translations := translations + [Translation(speed, speedGraph, dt, forwardZ)];
    }

    /** Turning is possible outside the character-select scene while the
        skinned-mesh animator is enabled. */
    predicate CanTurn()
      reads this`InCharacterSelectScene, this`SkinnedMeshEnabled
    {
      !InCharacterSelectScene && SkinnedMeshEnabled
    }

    /** Turns to face forward or backward, unless turning is not possible;
        afterwards IsFacingForward() reports the requested facing. */
    method FaceForward(forward: bool)
      modifies this`forwardZ
      ensures forwardZ == if old(CanTurn()) then RotationForwardZ(forward) else old(forwardZ)
      ensures old(CanTurn()) ==> IsFacingForward() == forward
    {
      if InCharacterSelectScene {
        return;
      }
      if !SkinnedMeshEnabled {
        return;
      }
      if forward {
        forwardZ := RotationForwardZ(true);
      } else {
        forwardZ := RotationForwardZ(false);
      }
    }

    /** True iff transform.forward points along +z. */
    function IsFacingForward(): (r: bool)
      reads this`forwardZ
      ensures r <==> forwardZ > 0.0
    {
      if forwardZ > 0.0 then true else false
    }

    /** The first ragdoll part whose name contains name, or null. */
    method GetBodyPart(name: string) returns (r: BodyPart?)
      ensures r == null <==> forall i :: 0 <= i < |BodyParts| ==> !Contains(BodyParts[i].name, name)
      ensures r != null ==> exists i :: 0 <= i < |BodyParts| && r == BodyParts[i] && Contains(BodyParts[i].name, name) &&
                                        forall j :: 0 <= j < i ==> !Contains(BodyParts[j].name, name)
    {
      var i := 0;
      while i < |BodyParts|
        invariant 0 <= i <= |BodyParts|
        invariant forall j :: 0 <= j < i ==> !Contains(BodyParts[j].name, name)
      {
        if Contains(BodyParts[i].name, name) {
          return BodyParts[i];
        }
        i := i + 1;
      }
      return null;
    }

    /** The child object named name: from the cache when cached, otherwise
        the first such child, which is then cached; null on a miss. */
    method GetChildObj(name: string) returns (r: GameObject?)
      modifies this`ChildObjects
      ensures (r, ChildObjects) == ChildLookup(old(ChildObjects), Children, name)
    {
      if name in ChildObjects {
        return ChildObjects[name];
      }
      var i := 0;
      while i < |Children|
        invariant 0 <= i <= |Children|
        invariant forall j :: 0 <= j < i ==> Children[j].name != name
      {
        if Children[i].name == name {
          ChildObjects := ChildObjects[name := Children[i]];
          return Children[i];
        }
        i := i + 1;
      }
      return null;
    }

    /** The game object that delivers an attack made with the given part. */
    function GetAttackingPart(part: AttackPartType): (r: GameObject?)
      reads this, animationProgress
      requires part == MeleeWeapon ==> animationProgress.HoldingWeaponTrigger != null
      ensures part == MeleeWeapon ==> r == animationProgress.HoldingWeaponTrigger && r != null
      ensures part == OtherPart ==> r == null
      ensures !part.MeleeWeapon? && r != null ==> r in {LeftHandAttack, RightHandAttack, LeftFootAttack, RightFootAttack}
    {
      match part
      case LeftHand => LeftHandAttack
      case RightHand => RightHandAttack
      case LeftFoot => LeftFootAttack
      case RightFoot => RightFootAttack
      case MeleeWeapon => animationProgress.HoldingWeaponTrigger
      case OtherPart => null
    }
  }
}
