/**
 * Camera input handling and the orthographic projection of the engine
 * (src/wgpu_engine/camera.rs).
 *
 * A `CameraController` keeps six "pressed" flags that key-down and key-up
 * events set and clear; `UpdateCamera` turns the flags into an ordered list of
 * view operations and applies them to the camera's view.  The view geometry
 * itself (`LookAt::go_forward`, `LookAt::rotate_eye`, float vector arithmetic)
 * is a parameter of the camera that the model never looks into.
 */
module CameraControl {
  import opened Types

  // ---------------------------------------------------------------------------
  // Events and the key mapping
  // ---------------------------------------------------------------------------

  /** The keys the controller reacts to; every other key is `OtherKey`. */
  datatype Keycode = Space | LShift | W | Up | A | Left | S | Down | D | Right | OtherKey(code: int)

  /** Input events: key presses and releases (the keycode may be absent) and everything else. */
  datatype Event = KeyDown(keycode: Option<Keycode>) | KeyUp(keycode: Option<Keycode>) | OtherEvent

  /** The six movements the controller tracks, one flag each. */
  datatype Motion = MoveUp | MoveDown | MoveForward | MoveBackward | MoveLeft | MoveRight

  /** The key mapping shared by key-down and key-up. */
  function KeyMotion(keycode: Option<Keycode>): (r: Option<Motion>)
    ensures r.Some? <==> keycode.Some? && !keycode.value.OtherKey?
  {
    match keycode
    case Some(Space) => Some(MoveUp)
    case Some(LShift) => Some(MoveDown)
    case Some(W) | Some(Up) => Some(MoveForward)
    case Some(A) | Some(Left) => Some(MoveLeft)
    case Some(S) | Some(Down) => Some(MoveBackward)
    case Some(D) | Some(Right) => Some(MoveRight)
    case _ => None
  }

  /**
   * Space is up, LShift is down, W or Up is forward, A or Left is left, S or
   * Down is backward, D or Right is right, and no other key maps.
   */
  lemma KeyMapping(keycode: Option<Keycode>)
    ensures KeyMotion(keycode) == Some(MoveUp) <==> keycode == Some(Space)
    ensures KeyMotion(keycode) == Some(MoveDown) <==> keycode == Some(LShift)
    ensures KeyMotion(keycode) == Some(MoveForward) <==> keycode == Some(W) || keycode == Some(Up)
    ensures KeyMotion(keycode) == Some(MoveLeft) <==> keycode == Some(A) || keycode == Some(Left)
    ensures KeyMotion(keycode) == Some(MoveBackward) <==> keycode == Some(S) || keycode == Some(Down)
    ensures KeyMotion(keycode) == Some(MoveRight) <==> keycode == Some(D) || keycode == Some(Right)
  {
  }

  // ---------------------------------------------------------------------------
  // The flag state machine
  // ---------------------------------------------------------------------------

  /** The six pressed flags of a controller. */
  datatype Flags = Flags(up: bool, down: bool, forward: bool, backward: bool, left: bool, right: bool)
  {
    function Get(m: Motion): (r: bool)
    {
      match m
      case MoveUp => up
      case MoveDown => down
      case MoveForward => forward
      case MoveBackward => backward
      case MoveLeft => left
      case MoveRight => right
    }

    /** The flags with exactly the flag of `m` set to `v`. */
    function Set(m: Motion, v: bool): (r: Flags)
      ensures r.Get(m) == v
      ensures forall other :: other != m ==> r.Get(other) == Get(other)
    {
      match m
      case MoveUp => this.(up := v)
      case MoveDown => this.(down := v)
      case MoveForward => this.(forward := v)
      case MoveBackward => this.(backward := v)
      case MoveLeft => this.(left := v)
      case MoveRight => this.(right := v)
    }
  }

  /** Nothing pressed. */
  const Released := Flags(false, false, false, false, false, false)

  /** Whether `process_events` reports the event as handled. */
  predicate Handled(event: Event)
  {
    (event.KeyDown? || event.KeyUp?) && KeyMotion(event.keycode).Some?
  }

  /** The flags after `process_events`: a mapped key-down sets its flag, a mapped key-up clears it. */
  function Next(flags: Flags, event: Event): (r: Flags)
    ensures Handled(event) ==> r.Get(KeyMotion(event.keycode).value) == event.KeyDown?
    ensures forall m :: (Handled(event) ==> m != KeyMotion(event.keycode).value) ==> r.Get(m) == flags.Get(m)
  {
    match event
    case KeyDown(keycode) =>
      if KeyMotion(keycode).Some? then flags.Set(KeyMotion(keycode).value, true) else flags
    case KeyUp(keycode) =>
      if KeyMotion(keycode).Some? then flags.Set(KeyMotion(keycode).value, false) else flags
    case OtherEvent => flags
  }

  /** A mapped key-down is handled and sets exactly its own flag. */
  lemma KeyDownPressesOne(flags: Flags, keycode: Option<Keycode>, m: Motion)
    requires KeyMotion(keycode) == Some(m)
    ensures Handled(KeyDown(keycode))
    ensures Next(flags, KeyDown(keycode)).Get(m)
    ensures forall other :: other != m ==> Next(flags, KeyDown(keycode)).Get(other) == flags.Get(other)
  {
  }

  /** A mapped key-up is handled and clears exactly its own flag. */
  lemma KeyUpReleasesOne(flags: Flags, keycode: Option<Keycode>, m: Motion)
    requires KeyMotion(keycode) == Some(m)
    ensures Handled(KeyUp(keycode))
    ensures !Next(flags, KeyUp(keycode)).Get(m)
    ensures forall other :: other != m ==> Next(flags, KeyUp(keycode)).Get(other) == flags.Get(other)
  {
  }

  /** An event that is not handled (unmapped key, or not a key event) changes no flag. */
  lemma UnhandledChangesNothing(flags: Flags, event: Event)
    ensures !Handled(event) <==> (event.OtherEvent? || KeyMotion(event.keycode).None?)
    ensures !Handled(event) ==> Next(flags, event) == flags
  {
  }

  /** Processing the same event twice leaves the flags as processing it once. */
  lemma NextIdempotent(flags: Flags, event: Event)
    ensures Next(Next(flags, event), event) == Next(flags, event)
  {
    if Handled(event) {
      var m := KeyMotion(event.keycode).value;
      var v := event.KeyDown?;
      assert Next(flags, event) == flags.Set(m, v);
      assert flags.Set(m, v).Set(m, v) == flags.Set(m, v);
    }
  }

  /** Releasing a key right after pressing it clears its flag and restores every other one. */
  lemma PressThenRelease(flags: Flags, keycode: Option<Keycode>, m: Motion)
    requires KeyMotion(keycode) == Some(m)
    ensures Next(Next(flags, KeyDown(keycode)), KeyUp(keycode)) == flags.Set(m, false)
  {
  }

  // ---------------------------------------------------------------------------
  // View operations
  // ---------------------------------------------------------------------------

  /** `LookAt`: the eye, the target and the up vector of a view. */
  datatype LookAt = LookAt(eye: Vec3, target: Vec3, up: Vec3)

  /**
   * The view operations the controller applies: `go_forward(distance)`, and
   * `rotate_eye` by the rotor `Rotor3::from_rotation_xz(angle)`.
   */
  datatype ViewOp = GoForward(distance: real) | RotateEyeXZ(angle: real)

  function Count(b: bool): (r: nat)
  {
    if b then 1 else 0
  }

  /**
   * The operations `update_camera` applies, in order: forward by `speed` if
   * forward is pressed, forward by `-speed` if backward is, then the eye
   * rotation by `speed` if right is and by `-speed` if left is.  The up and
   * down flags trigger nothing.
   */
  function PlannedOps(flags: Flags, speed: real): (ops: seq<ViewOp>)
    ensures |ops| == Count(flags.forward) + Count(flags.backward) + Count(flags.right) + Count(flags.left)
    ensures forall i, j :: 0 <= i < j < |ops| ==> !(ops[i].RotateEyeXZ? && ops[j].GoForward?)
    ensures flags.forward ==> ops[0] == GoForward(speed)
    ensures flags.backward ==> ops[Count(flags.forward)] == GoForward(-speed)
    ensures flags.right ==> ops[Count(flags.forward) + Count(flags.backward)] == RotateEyeXZ(speed)
    ensures flags.left ==> ops[|ops| - 1] == RotateEyeXZ(-speed)
  {
    (if flags.forward then [GoForward(speed)] else [])
    + (if flags.backward then [GoForward(-speed)] else [])
    + (if flags.right then [RotateEyeXZ(speed)] else [])
    + (if flags.left then [RotateEyeXZ(-speed)] else [])
  }

  /** The up and down flags do not change what `update_camera` does. */
  lemma PlanIgnoresVertical(flags: Flags, speed: real, up: bool, down: bool)
    ensures PlannedOps(flags.(up := up, down := down), speed) == PlannedOps(flags, speed)
  {
  }

  /** The view after applying `ops` one after the other, with `move` as the geometry of one operation. */
  function ApplyOps(move: (LookAt, ViewOp) -> LookAt, view: LookAt, ops: seq<ViewOp>): (r: LookAt)
    decreases |ops|
  {
    if ops == [] then view else ApplyOps(move, move(view, ops[0]), ops[1..])
  }

  /** Applying one more operation at the end is applying it to the view reached so far. */
  lemma {:induction false} ApplyOpsSnoc(move: (LookAt, ViewOp) -> LookAt, view: LookAt, ops: seq<ViewOp>, op: ViewOp)
    ensures ApplyOps(move, view, ops + [op]) == move(ApplyOps(move, view, ops), op)
    decreases |ops|
  {
    if ops == [] {
      assert [op][1..] == [];
    } else {
      assert (ops + [op])[1..] == ops[1..] + [op];
      ApplyOpsSnoc(move, move(view, ops[0]), ops[1..], op);
    }
  }

  // ---------------------------------------------------------------------------
  // The camera and its controller
  // ---------------------------------------------------------------------------

  /**
   * The view part of `Camera`.  `move` stands for the float geometry of
   * `LookAt::go_forward` and `LookAt::rotate_eye`, which the model does not
   * look into; the projection, uniform buffer and bind group are not part of
   * this model.
   */
  class Camera {
    var view: LookAt
    const move: (LookAt, ViewOp) -> LookAt

    constructor (view: LookAt, move: (LookAt, ViewOp) -> LookAt)
      ensures this.view == view && this.move == move
    {
      this.view := view;
      this.move := move;
    }
  }

  /** `CameraController`: a speed and six pressed flags, updated in place by events. */
  class CameraController {
    const speed: real
    var isUpPressed: bool
    var isDownPressed: bool
    var isForwardPressed: bool
    var isBackwardPressed: bool
    var isLeftPressed: bool
    var isRightPressed: bool

    function Pressed(): (r: Flags)
      reads this
    {
      Flags(isUpPressed, isDownPressed, isForwardPressed, isBackwardPressed, isLeftPressed, isRightPressed)
    }

    /** `CameraController::new`: the given speed and nothing pressed. */
    constructor (speed: real)
      ensures this.speed == speed
      ensures Pressed() == Released
    {
      this.speed := speed;
      isUpPressed := false;
      isDownPressed := false;
      isForwardPressed := false;
      isBackwardPressed := false;
      isLeftPressed := false;
      isRightPressed := false;
    }

    /**
     * The key match that both arms of `process_events` share: a mapped key
     * sets its flag to `pressed`, and the result says whether the key mapped.
     */
    method SetKeyFlag(keycode: Option<Keycode>, pressed: bool) returns (handled: bool)
      modifies this
      ensures handled == KeyMotion(keycode).Some?
      ensures Pressed() == if handled then old(Pressed()).Set(KeyMotion(keycode).value, pressed) else old(Pressed())
    {
      match keycode
      case Some(Space) =>
        isUpPressed := pressed;
        handled := true;
      case Some(LShift) =>
        isDownPressed := pressed;
        handled := true;
      case Some(W) | Some(Up) =>
        isForwardPressed := pressed;
        handled := true;
      case Some(A) | Some(Left) =>
        isLeftPressed := pressed;
        handled := true;
      case Some(S) | Some(Down) =>
        isBackwardPressed := pressed;
        handled := true;
      case Some(D) | Some(Right) =>
        isRightPressed := pressed;
        handled := true;
      case _ =>
        handled := false;
    }

    /** `process_events`: updates the flags and reports whether the event was handled. */
    method ProcessEvents(event: Event) returns (handled: bool)
      modifies this
      ensures handled == Handled(event)
      ensures Pressed() == Next(old(Pressed()), event)
    {
      match event
      case KeyDown(keycode) =>
        handled := SetKeyFlag(keycode, true);
      case KeyUp(keycode) =>
        handled := SetKeyFlag(keycode, false);
      case OtherEvent =>
        handled := false;
    }

    /** `update_camera`: applies the planned operations to the camera's view, in order. */
    method UpdateCamera(camera: Camera)
      modifies camera
      ensures camera.view == ApplyOps(camera.move, old(camera.view), PlannedOps(Pressed(), speed))
    {
      ghost var done: seq<ViewOp> := [];
      if isForwardPressed {
        ApplyOpsSnoc(camera.move, old(camera.view), done, GoForward(speed));
        camera.view := camera.move(camera.view, GoForward(speed));
        done := done + [GoForward(speed)];
      }
      if isBackwardPressed {
        ApplyOpsSnoc(camera.move, old(camera.view), done, GoForward(-speed));
        camera.view := camera.move(camera.view, GoForward(-speed));
        done := done + [GoForward(-speed)];
      }
      if isRightPressed {
        ApplyOpsSnoc(camera.move, old(camera.view), done, RotateEyeXZ(speed));
        camera.view := camera.move(camera.view, RotateEyeXZ(speed));
        done := done + [RotateEyeXZ(speed)];
      }
      if isLeftPressed {
        ApplyOpsSnoc(camera.move, old(camera.view), done, RotateEyeXZ(-speed));
        camera.view := camera.move(camera.view, RotateEyeXZ(-speed));
        done := done + [RotateEyeXZ(-speed)];
      }
      assert done == PlannedOps(Pressed(), speed);
    }
  }

  // ---------------------------------------------------------------------------
  // Orthographic projection
  // ---------------------------------------------------------------------------

  type U32 = x: int | 0 <= x < 0x1_0000_0000

  /** `WindowSize`: the surface size in pixels. */
  datatype WindowSize = WindowSize(width: U32, height: U32)

  /** `OrthographicProjection`: a box pinned at the origin, whose far corner follows the window. */
  class OrthographicProjection {
    var left: real
    var right: real
    var bottom: real
    var top: real
    var znear: real
    var zfar: real

    /** `OrthographicProjection::new`: left = bottom = 0, right = width, top = height. */
    constructor (size: WindowSize, znear: real, zfar: real)
      ensures left == 0.0 && bottom == 0.0
      ensures right == size.width as real && top == size.height as real
      ensures this.znear == znear && this.zfar == zfar
    {
      left := 0.0;
      right := size.width as real;
      bottom := 0.0;
      top := size.height as real;
      this.znear := znear;
      this.zfar := zfar;
    }

    /** `resize`: moves the far corner to (width, height); the origin and the depth range stay. */
    method Resize(width: real, height: real)
      modifies this
      ensures right == width && top == height
      ensures left == old(left) && bottom == old(bottom)
      ensures znear == old(znear) && zfar == old(zfar)
    {
      right := width;
      top := height;
    }
  }
}
