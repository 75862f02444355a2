# Instance registry and camera controller of a wgpu rendering engine, in Dafny

This project models two parts of a small Rust rendering engine and proves
properties of the model.

**The instance registry** (`InstanceManager`, `instances.dfy`). A registry
maps caller-chosen `u128` ids to slots of a host-side vector of instances. It
keeps a device buffer of fixed 64-byte records (`InstanceRaw`, a 4x4 `f32`
matrix) in step with that vector. Removed slots go on a LIFO stack of freed
indices and are reused before the vector grows. The buffer starts at 4 bytes.
When an append does not fit, the buffer is replaced by one whose size is
doubled until it holds `(len + 1)` records, and every record is uploaded again.

- The device buffer is a value: a byte size and a partial map from byte
  offset to the record last written there.
- `queue.write_buffer` is `WriteBuffer`, a recursive function.
- `Instance::to_raw` is the parameter `toRaw`, never interpreted. Every
  property holds for any serialisation.
- The pure functions `Added`, `Updated` and `Removed` give the registry's state
  after each operation. They follow the code branch by branch: the free-slot
  path of `add_instance` goes through `Updated`, as the code calls
  `update_instance`.
- The class `InstanceManager` has the Rust struct's instance vector, id map,
  free stack and buffer as fields. It has no `model` field (see "Left out").
  It adds the constant `toRaw`. Its methods update the fields in place and
  are proved to reach exactly the state the functions give.
- The invariant `Inv` says:
  - every mapped slot exists and holds an instance with that id;
  - every freed slot exists, is unmapped and is on the stack once;
  - the buffer size is `4 * 2^k` and holds a record for every slot;
  - every slot's record, stale ones included, is `toRaw` of the slot's
    instance.

**The camera controller** (`camera.dfy`). `CameraController` keeps six
pressed flags. Key-down and key-up events set and clear them. The key mapping
is `KeyMotion`, and the transition is the function `Next`. The key-down
and key-up arms of `process_events` run the same match with `true` and
`false`; the model writes that match once, as `SetKeyFlag`. `UpdateCamera` applies
the operations `PlannedOps` chooses to the camera's view, in order. The view
geometry (`go_forward`, `rotate_eye`) is the camera's parameter `move`.
`OrthographicProjection` is a class with its six fields. Its constructor and
`Resize` are field assignments.

Floats are modelled as `real`. The only arithmetic on them is negating `speed`, which is exact in f32. `u32` and `u128`
are bounded integer subset types.

The model follows the code as written:

- `add_instance` has no duplicate-id check and returns no error. There is no
  `DuplicateIdentity` error. `DuplicateAddOrphansSlot` shows what a duplicate
  id does, with or without a freed slot.
- `remove_instance` does not compact the vector. The removed slot and its
  stale record stay in place until the slot is reused.

## Model

| member | source | states |
|---|---|---|
| `Instances.WriteBuffer` | src/wgpu_engine/instance.rs:129-133 | a buffer write puts record `k` at `offset + 64k`, keeps the size, and changes nothing outside the written range; it must lie inside the buffer |
| `Instances.GrownSize` | src/wgpu_engine/instance.rs:118-121 | the doubling loop ends at a size `>= need` and `>= size`, equal to `size` exactly when `need` already fits, and below `2 * need` otherwise |
| `Instances.GrownSizeIsDoubling` | src/wgpu_engine/instance.rs:120-121 | the grown size is `size * 2^k` for some `k` |
| `Instances.GrownSizeIsLeast` | src/wgpu_engine/instance.rs:120-121 | no number of doublings that reaches `need` gives a smaller size, so the fewest doublings are taken |
| `Instances.CapacityIsPowerOfTwoMultiple` | src/wgpu_engine/instance.rs:92-98 | every legal buffer size is `4 * 2^k` |
| `Instances.GrownSizeKeepsCapacity` | src/wgpu_engine/instance.rs:119-128 | growing a size of the form `4 * 2^k` gives a size of that form |
| `Instances.Updated` | src/wgpu_engine/instance.rs:138-147 | update fails exactly when the id is unmapped, and then the state is unchanged; the map, the stack, the vector length and the buffer size are kept; the tables stay well formed; on success the id's slot holds the new instance |
| `Instances.Added` | src/wgpu_engine/instance.rs:109-136 | add returns no error (the device-limit panic is not modelled); afterwards the id is mapped to a slot holding the new instance, the vector grows by one exactly when no slot was free, the buffer never shrinks and the tables stay well formed |
| `Instances.Removed` | src/wgpu_engine/instance.rs:149-158 | remove fails exactly when the id is unmapped, and then the state is unchanged; on success it returns an instance with that id and the id is no longer mapped; the vector and the buffer are untouched and the tables stay well formed |
| `Instances.Claimed` | src/wgpu_engine/instance.rs:110-113 | popping a freed slot, mapping the id to it and overwriting it keeps the tables well formed |
| `Instances.NewRegistryInv` | src/wgpu_engine/instance.rs:92-106 | a new registry has no instances, no ids, no freed slots and a 4-byte buffer, and satisfies the invariant |
| `Instances.MirrorAfterSlotWrite` | src/wgpu_engine/instance.rs:139-142 | writing one slot's record while overwriting that slot keeps every slot mirrored |
| `Instances.UpdateKeepsInv` | src/wgpu_engine/instance.rs:138-147 | update keeps the tables well formed, and keeps the full invariant |
| `Instances.MirrorAfterAppend` | src/wgpu_engine/instance.rs:118-135 | after an append, with or without growth and full re-upload, every slot's record is `toRaw` of its instance, and the size is `4 * 2^k` and holds every record |
| `Instances.AddKeepsInv` | src/wgpu_engine/instance.rs:109-136 | add preserves the invariant on both paths |
| `Instances.RemoveKeepsInv` | src/wgpu_engine/instance.rs:149-158 | remove preserves the invariant: the pushed slot is unmapped and not already on the stack |
| `Instances.AddReusesLastFreed` | src/wgpu_engine/instance.rs:110-115 | with a freed slot, add pops the most recent one, maps the id to it, overwrites it and its record at `index * 64`, and keeps the length and the buffer size |
| `Instances.AddAppendsWithoutFreeSlot` | src/wgpu_engine/instance.rs:118-135 | with no freed slot, add maps the id to `len`, pushes the instance, writes its record at `len * 64`; the buffer size becomes the grown size and stays the same exactly when `(len + 1) * 64` fits |
| `Instances.CapacityNeverShrinks` | src/wgpu_engine/instance.rs:118-128 | add never shrinks the buffer; update and remove never change its size |
| `Instances.UpdateSpec` | src/wgpu_engine/instance.rs:138-147 | update fails exactly on an unmapped id and then changes nothing; otherwise it overwrites the slot and its record and keeps the map, the stack, the size and every other record |
| `Instances.RemoveSpec` | src/wgpu_engine/instance.rs:149-158 | remove fails exactly on an unmapped id and then changes nothing; otherwise it returns the stored instance, unmaps the id, pushes the slot, and leaves the vector and the whole buffer untouched |
| `Instances.RemovedIdIsGone` | src/wgpu_engine/instance.rs:149-158 | after a removal, update and remove of the same id fail |
| `Instances.ReaddReusesSlot` | src/wgpu_engine/instance.rs:110-115 | re-adding an id right after removing it reuses its old slot, which then holds the new instance and record |
| `Instances.DuplicateAddOrphansSlot` | src/wgpu_engine/instance.rs:109-135 | adding an already-mapped id remaps it to the popped freed slot, or to `len` when none is free; the old slot is then neither mapped nor free and still holds the old instance |
| `Instances.InstanceManager.constructor` | src/wgpu_engine/instance.rs:92-106 | empty vector, map and stack, a 4-byte buffer, invariant established |
| `Instances.InstanceManager.AddInstance` | src/wgpu_engine/instance.rs:109-136 | the new state is `Added` of the old one, and the invariant is kept |
| `Instances.InstanceManager.UpdateInstance` | src/wgpu_engine/instance.rs:138-147 | the new state and the result are `Updated` of the old state; well-formedness and the invariant are kept |
| `Instances.InstanceManager.RemoveInstance` | src/wgpu_engine/instance.rs:149-158 | the new state and the result are `Removed` of the old state, and the invariant is kept |
| `CameraControl.KeyMotion` | src/wgpu_engine/camera.rs:223-249 | a key maps to a motion exactly when a key is present and it is one of the ten named keys |
| `CameraControl.Next` | src/wgpu_engine/camera.rs:221-283 | a handled event sets its motion's flag to true on key-down and false on key-up; every other flag, and every flag on an unhandled event, is unchanged |
| `CameraControl.KeyMapping` | src/wgpu_engine/camera.rs:223-249 | Space means up, LShift down, W or Up forward, A or Left left, S or Down backward, D or Right right, in both directions; no other key maps |
| `CameraControl.Flags.Set` | src/wgpu_engine/camera.rs:225-247 | setting a motion's flag sets that flag and no other |
| `CameraControl.KeyDownPressesOne` | src/wgpu_engine/camera.rs:223-248 | a mapped key-down is handled and sets exactly its flag |
| `CameraControl.KeyUpReleasesOne` | src/wgpu_engine/camera.rs:252-277 | a mapped key-up is handled and clears exactly its flag |
| `CameraControl.UnhandledChangesNothing` | src/wgpu_engine/camera.rs:249-281 | an event is unhandled exactly when it is no key event or its key is unmapped, and then no flag changes |
| `CameraControl.NextIdempotent` | src/wgpu_engine/camera.rs:221-283 | processing an event twice gives the same flags as once |
| `CameraControl.PressThenRelease` | src/wgpu_engine/camera.rs:221-283 | key-down then key-up of one key clears its flag and restores all others |
| `CameraControl.PlannedOps` | src/wgpu_engine/camera.rs:289-303 | one operation per pressed forward/backward/right/left flag; all translations come before all rotations; forward by `speed`, then by `-speed`, then rotation by `speed`, then by `-speed` |
| `CameraControl.PlanIgnoresVertical` | src/wgpu_engine/camera.rs:289-303 | the up and down flags do not change the planned operations |
| `CameraControl.ApplyOpsSnoc` | src/wgpu_engine/camera.rs:289-303 | applying one more operation at the end applies it to the view reached so far |
| `CameraControl.Camera.constructor` | src/wgpu_engine/camera.rs:76-82 | the camera holds the given view |
| `CameraControl.CameraController.constructor` | src/wgpu_engine/camera.rs:209-219 | the given speed with all six flags released |
| `CameraControl.CameraController.SetKeyFlag` | src/wgpu_engine/camera.rs:223-249 | the key match both event arms share: the result says whether the key maps, and exactly the mapped key's flag takes the given value |
| `CameraControl.CameraController.ProcessEvents` | src/wgpu_engine/camera.rs:221-283 | returns whether the event is handled, and the flags become `Next` of the old flags |
| `CameraControl.CameraController.UpdateCamera` | src/wgpu_engine/camera.rs:285-304 | the camera's view becomes the old view with the planned operations applied in order |
| `CameraControl.OrthographicProjection.constructor` | src/wgpu_engine/camera.rs:150-159 | left = bottom = 0, right = width, top = height, with the given depth range |
| `CameraControl.OrthographicProjection.Resize` | src/wgpu_engine/camera.rs:174-177 | sets right and top; left, bottom, znear and zfar are unchanged |

## Left out

- GPU device, queue, buffer destruction and creation calls: the buffer is a value, and `destroy` plus `create_buffer` is a fresh empty buffer of the new size. Buffer usages and labels are not modelled. Device limits are not modelled either (see `Instances.Added` below).
- The `model: Arc<Model>` field of `InstanceManager`: shared geometry the registry never reads.
- `Instance::to_raw` and `InstanceAble`: float matrix arithmetic, kept as the uninterpreted parameter `toRaw`.
- `InstanceRaw::desc`: a vertex layout constant for the GPU pipeline.
- `Instances.Added`: the model does not capture creating a buffer larger than the device's `max_buffer_size`. The device is requested with `Limits::default()`, or `downlevel_webgl2_defaults()` on wasm (src/wgpu_engine/context.rs:57-60), and both allow 256 MiB. A larger buffer is a validation error, and the default error handler panics. The model's sizes are unbounded, so this failure is not modelled. It first happens when `len = 2^22`, on an append with no freed slot: `raw_size = 2^28 + 64`, and the loop doubles the size to 2^29.
- u64 overflow of `InstanceRaw::SIZE * (len + 1)` and of `buffer_size *= 2`: sizes are unbounded naturals. `buffer_size *= 2` overflows first, once `raw_size > 2^63`, that is with about 2^57 instances. Without overflow checks the size then wraps to 0 and the doubling loop never ends. The product overflows at about 2^58 instances. Both happen long after the device limit above is reached.
- Drawing: how many slots a frame draws is decided outside these files. Removed slots keep their records, as `RemoveSpec` states.
- `LookAt::go_forward`, `rotate_eye`, `rotate_target` and `view_mat`: float geometry, kept as the camera's uninterpreted `move`. This includes the double step of `go_forward` when the target is farther than `speed`.
- `Camera::new` beyond its view, `Camera::update`, `build_view_proj_matrix`, `CameraUniform`: matrix math and uniform buffer upload.
- `PerspectiveProjection` and `proj_matrix` of both projections: degree/radian conversion, `width / height` and matrix math in floats.
- `OrthographicProjection.constructor`: `u32 as f32` is modelled as an exact conversion. f32 rounds widths above 2^24.
- The boxed `dyn Projection` of the camera: only the orthographic variant's field updates are modelled.
- `WgpuEngine::resize` is not part of this model. It forwards a size to `Resize` only when width and height are both non-zero.
- Surface, pipeline, texture, shader and render-pass code; the SDL event loop and window; the transform conversions. These are I/O or float library calls.
