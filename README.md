# CurtainGame bullets, modelled in Dafny

This project models the bullet core of CurtainGame, a bullet-hell game built on
the Bevy engine (`src/bullet/`). It covers four parts.

- **Patterns** (`src/bullet/pattern.rs`)
  - A `*.pattern.json` file is a chain of nodes linked through `"child"`.
  - `parse` compiles the chain into `ring`, `arc` and `bullet` operations.
  - `Pattern::fire` starts from one default seed and threads the seed list
    through the operations. `ring` and `arc` fan every seed out into `count`
    seeds. A `bullet` operation adds one bullet per seed to the bullet pool.
- **Bullet systems** (`src/bullet/mod.rs`): spawning a radial burst, moving
  bullets, copying them into their transforms, and despawning every bullet
  strictly inside a player's radius.
- **Modifiers** (`src/bullet/modifiers.rs`): per-frame angular velocity,
  acceleration and a delay countdown.
- **Render batching** (`src/bullet/render.rs`)
  - `extract_bullets` snapshots the pools.
  - `prepare_bullets` sorts the pools by texture handle, packs
    `(x, y, rotation, 0)` entries into one buffer, and spawns a batch of vertex
    ranges (six vertices per bullet) at every texture change.
  - `queue_bullets` refuses to bind an empty buffer.

## Modelling choices

- **Numbers.** `f32` values are `real`s, and rounding is not modelled.
  - `f32 as u32` is written out as a saturating, truncating cast.
  - `u64 as u32` is written out as keeping the low 32 bits.
- **Trigonometry.** `Vec2::from_angle` is a parameter `fromAngle` of every
  operation that needs it; its trigonometry is not modelled.
- **Expressions.** A compiled fasteval expression is a function `real -> real`.
- **Parsing.** The decoded JSON is an abstract tree (`Json.Json`). Compiling
  the text of a field is a parameter `compile`, whose `None` is fasteval's
  parse failure.
- **Panics.** The panics of `parse` are the error values of `PatternParse.PatternError`.
- **The ECS world.** It is a sequence or array of `Components.Entity` records,
  each with optional components.
  - Systems that update components in place are methods over an
    `array<Entity>`.
  - `collide_bullets` returns the despawn commands it issues, and
    `Bullets.ApplyDespawns` removes the named entities.
- **The bullet pool.** `BulletPool` is imported by the pattern and render code,
  but its definition is not part of this model. It is a class holding the
  records its `add` receives and its texture handle. It exposes the positions
  and rotations those records give.
- **Texture handles** are naturals, ordered as `Handle<Image>` orders its ids. Pattern handles (`Handle<Pattern>`) are a separate type, `PatternParse.PatternHandle`.

## Model

| member | source | states |
|---|---|---|
| Geometry.ToRadians | src/bullet/pattern.rs:217 | Degrees to radians: 180 degrees is π and 0 stays 0. |
| Geometry.SaturatingToU32 | src/bullet/pattern.rs:164 | `f32 as u32`: the result fits in `u32`. It is 0 for a value at or below zero and `u32::MAX` at or above it. Otherwise it is the value truncated (`n <= x < n + 1`). |
| Geometry.WrapToU32 | src/bullet/pattern.rs:216 | `u64 as u32`: the result fits in `u32`, differs from the input by a multiple of 2^32, and a value that already fits is kept. |
| Geometry.DistanceSquared | src/bullet/mod.rs:118 | A squared distance is never negative. |
| Json.Index | src/bullet/pattern.rs:209 | `value[key]` is the object's field when present, and then structurally smaller than the node. It is `Null` otherwise. |
| Json.AsU64 | src/bullet/pattern.rs:216 | `as_u64` is defined exactly for non-negative integers that fit 64 bits, and yields that integer. |
| Json.AsF64 | src/bullet/pattern.rs:213 | `as_f64` is defined exactly for numbers, and yields the number's value. |
| Json.Chain | src/bullet/pattern.rs:208-232 | The nodes the `"child"` walk visits: empty exactly for a `Null` start, and never containing `Null`. |
| Json.ChainStep | src/bullet/pattern.rs:231 | The walk visits a non-null node, then its child's chain. |
| Pool.BulletPool.Positions | src/bullet/render.rs:225 | One position per record, index by index. |
| Pool.BulletPool.Rotations | src/bullet/render.rs:226 | One rotation per record, index by index. |
| Pool.BulletPool.Add | src/bullet/pattern.rs:170-182 | `pool.add` appends exactly the given record; earlier records are unchanged. |
| PatternOps.Constant | src/bullet/pattern.rs:84-91 | A constant expression (`IConst`) has the same value at every time. |
| PatternOps.DefaultContext | src/bullet/pattern.rs:80-96 | Default seed: lifetime 10, position at the origin, rotation 0, speed and angular velocity 0 at every time. |
| PatternOps.NewContext | src/bullet/pattern.rs:98-105 | `BulletContext::new(speed)` is the default seed with a constant speed `speed`. |
| PatternOps.FanOut | src/bullet/pattern.rs:125-137 | A `flat_map` over `0..count` yields exactly `count` results per input. |
| PatternOps.FanOutAt | src/bullet/pattern.rs:127-128 | Output index `j * count + i` holds seed `i` of input `j`: grouped by input, in input order, `i` ascending. |
| PatternOps.ApplyRing | src/bullet/pattern.rs:124-138 | A ring of count 0 yields no seeds. |
| PatternOps.RingLength | src/bullet/pattern.rs:124-138 | A ring yields `|bullets| * count` seeds. |
| PatternOps.RingAt | src/bullet/pattern.rs:128-134 | Seed `i` of input `b` has rotation `b.rotation + i/count·2π` and position `b.position + from_angle(rotation)·radius`. Its lifetime, speed and angular velocity are those of `b`. |
| PatternOps.RingSpacing | src/bullet/pattern.rs:129 | Within a group, the first seed keeps the input's heading and consecutive seeds are `2π/count` apart. |
| PatternOps.ApplyArc | src/bullet/pattern.rs:141-143 | An arc of count 1 returns its input unchanged. |
| PatternOps.ArcLength | src/bullet/pattern.rs:140-155 | An arc yields `|bullets| * count` seeds; with count 1 there is one per input. |
| PatternOps.ArcAt | src/bullet/pattern.rs:145-152 | For count ≠ 1, seed `i` of input `b` has rotation `b.rotation - angle/2 + i·angle/(count-1)`. Its position, lifetime and expressions are those of `b`. |
| PatternOps.ArcEnds | src/bullet/pattern.rs:145-150 | For count ≥ 2, the first seed of a group is at `-angle/2` and the last at `+angle/2` relative to its input. |
| PatternFire.Emit | src/bullet/pattern.rs:169-183 | A bullet operation makes one `add` per seed, in seed order. Each gets the operation's lifetime, the seed's position and rotation, and the operation's speed and angular velocity at `t = 0`. |
| PatternFire.Step | src/bullet/pattern.rs:161-186 | Ring and arc add nothing to the pool. A bullet operation keeps the seeds and appends its `add` calls. |
| PatternFire.AddAll | src/bullet/pattern.rs:169-183 | The `for_each` of a bullet operation leaves the pool holding its old records followed by that operation's `add` calls. |
| PatternFire.ApplyOp | src/bullet/pattern.rs:161-186 | One iteration of `fire`'s loop: the next seeds, and the pool extended by exactly what that operation adds. |
| PatternFire.Fire | src/bullet/pattern.rs:157-188 | `fire` starts from the single `BulletContext::new(60.)` seed. The pool ends holding its old records followed by everything the operations add, applied in order. |
| PatternFire.RunSplit | src/bullet/pattern.rs:160 | Operations apply strictly in order. Running `a + b` runs `a`, then `b` on the seeds `a` left, and the spawns concatenate. |
| PatternFire.RunFromNothing | src/bullet/pattern.rs:160-187 | With no seed left, no operation adds anything. |
| PatternFire.RingOfNoneSilences | src/bullet/pattern.rs:162-166 | A ring whose count evaluates below one (truncated or saturated to 0 by the cast) leaves no seeds. Nothing after it is added. |
| PatternFire.NoBulletNoSpawn | src/bullet/pattern.rs:168-185 | A pattern without bullet operations adds nothing. |
| PatternFire.RunCounts | src/bullet/pattern.rs:160-187 | Seed and bullet counts: seeds multiply by each operation's factor. Each bullet operation adds one bullet per seed in hand. |
| PatternFire.FireCount | src/bullet/pattern.rs:157-188 | A firing adds exactly `Emitted(ops)` bullets. |
| PatternFire.RingOfFourExample | src/bullet/pattern.rs:157-188 | A ring of 4 at radius 10, then a bullet operation, gives four bullets. They sit at quarter turns, each 10 out along its heading, and carry the operation's lifetime and expressions at `t = 0`. |
| PatternParse.CompileNode | src/bullet/pattern.rs:209-228 | Per node: a node without a string `"type"` adds no operation. An unknown type is an error. `ring` compiles `count` and defaults `radius` to 0. `arc` requires `count` (a `u64`, cast to `u32`) and `angle` (degrees to radians). `bullet` compiles `speed`, then `angular_velocity`, and defaults `lifetime` to 10. |
| PatternParse.ParseChainOk | src/bullet/pattern.rs:208-232 | `parse` succeeds exactly when every chain node compiles. It then yields one operation per node with a string `"type"`. |
| PatternParse.ParseChainFirstError | src/bullet/pattern.rs:208-232 | A failing `parse` reports the error of the first chain node that fails. Every node before it compiles. |
| PatternParse.ParseChainOrder | src/bullet/pattern.rs:208-232 | The typed nodes' operations appear in chain order. The `k`-th node's operation follows those of the typed nodes before it, and untyped nodes are skipped while the walk continues. |
| PatternParse.Parse | src/bullet/pattern.rs:198-235 | Malformed JSON is an error. Otherwise the `while` walk over `"child"` yields the chain's operations or the chain's error. |
| PatternParse.Get | src/bullet/pattern.rs:110-114 | `PatternDatabase::get` is defined exactly for registered names and returns their pattern handle. |
| Bullets.RadialBullet | src/bullet/mod.rs:90-106 | A radial bullet: rotation `percent·2π`, position at the origin, speed 0.2, angular velocity 0. |
| Bullets.SpawnBullets | src/bullet/mod.rs:31-55 | Without E just pressed, nothing is spawned. Otherwise exactly 10 entities are spawned. The `i`-th is a radial bullet at percent `i/10` with an `AngularVelocity` of 0.5 and a default transform. |
| Bullets.SpawnEvenlySpaced | src/bullet/mod.rs:47-54 | The burst starts at heading 0, steps by a tenth of a turn and stays below a full turn. |
| Bullets.Move | src/bullet/mod.rs:141-145 | The bullet first turns by `angular_velocity·dt`, then advances by `from_angle(new rotation)·speed`. Speed and angular velocity are unchanged. |
| Bullets.MoveBullets | src/bullet/mod.rs:139-147 | Every entity with a `Bullet` is moved in place; every other entity is unchanged. |
| Bullets.MoveFramesKeepsVelocity | src/bullet/mod.rs:141-145 | Over any run of frames, speed and angular velocity keep their values. The heading turns by `angular_velocity` times the elapsed time. |
| Bullets.MoveIgnoresFrameTime | src/bullet/mod.rs:145 | The step is not scaled by `dt`: a bullet that does not turn moves the same whatever the frame time. |
| Bullets.TransformBullets | src/bullet/mod.rs:125-137 | Each bullet's transform is rebuilt from its position and heading; every other entity is unchanged. |
| Bullets.TransformFollowsBullet | src/bullet/mod.rs:125-137 | For an entity with a `Transform` and a `Bullet`, the translation is `(x, y, 0)` of the bullet's position and the rotation about z is the heading minus π/2. Only the transform changes, so every other field and component (`Player` included) is kept. An entity outside the query is unchanged, and rebuilding again changes nothing. |
| Bullets.CollideBullets | src/bullet/mod.rs:108-123 | The nested loops issue, player by player, a despawn for each bullet strictly closer than 5. |
| Bullets.HitsOfIff | src/bullet/mod.rs:117-120 | One player's commands name an id exactly when a bullet with that id is strictly inside the player's radius. |
| Bullets.DespawnsSound | src/bullet/mod.rs:116-122 | Every despawned id belongs to a bullet some player touches. |
| Bullets.DespawnsComplete | src/bullet/mod.rs:116-122 | Every bullet some player touches is despawned. |
| Bullets.DespawnsIff | src/bullet/mod.rs:116-122 | An id is despawned if and only if some player touches a bullet with that id. |
| Bullets.ApplyDespawns | src/bullet/mod.rs:119 | Despawning keeps exactly the entities whose id was not named, and never adds any. |
| Bullets.CollideSurvivors | src/bullet/mod.rs:108-123 | With unique ids, a bullet is removed exactly when some player touches it. Non-bullets and untouched bullets survive unchanged, and nothing new appears. |
| Bullets.NoPlayerNoDespawn | src/bullet/mod.rs:116 | Without a player, nothing is despawned. |
| Bullets.HitBoundary | src/bullet/mod.rs:113-118 | The threshold is strict: a bullet at distance 4 is hit, and one at exactly 5 or at 6 survives. |
| Modifiers.NewAngularVelocity | src/bullet/modifiers.rs:69-73 | `AngularVelocity::new(a)` stores exactly `a`. |
| Modifiers.AngularVelocitySystem | src/bullet/modifiers.rs:32-40 | Every entity is updated by the angular velocity step in place. |
| Modifiers.AngularVelocityFrame | src/bullet/modifiers.rs:36-39 | Only the rotation of a bullet with an `AngularVelocity` changes, by `amount·dt`. All other fields and components are unchanged. |
| Modifiers.AngularVelocityOverTime | src/bullet/modifiers.rs:36-39 | Over many frames the heading turns by `amount` times the elapsed time, and nothing else changes. |
| Modifiers.AccelerationSystem | src/bullet/modifiers.rs:75-80 | Every entity is updated by the acceleration step in place. |
| Modifiers.AccelerationFrame | src/bullet/modifiers.rs:75-79 | Only the speed of a bullet with an `Acceleration` changes, by `amount·dt`. All other fields and components are unchanged. |
| Modifiers.ModifiersCommute | src/bullet/modifiers.rs:11-14 | The angular velocity and acceleration systems give the same result in either order, so their unordered scheduling is harmless. |
| Modifiers.DelayedSystem | src/bullet/modifiers.rs:18-30 | Every `Delayed` wait decreases by `dt`; nothing else changes. |
| Modifiers.DelayNeverFires | src/bullet/modifiers.rs:23-28 | Over any frames, the wait falls by the elapsed time. The delayed component is never inserted, and the entity is otherwise unchanged. |
| Modifiers.NoTimeNoChange | src/bullet/modifiers.rs:23-79 | With `dt = 0`, the three time-driven steps change nothing: the delay countdown (lines 23-28), angular velocity (36-39) and acceleration (75-79). |
| RenderExtract.ExtractBullets | src/bullet/render.rs:217-230 | The previous extraction is discarded. There is one entry per pool, in query order, with positions, rotations and handle copied verbatim. |
| RenderExtract.Insert | src/bullet/render.rs:285-287 | Inserting into a handle-sorted list keeps it sorted and adds exactly the one pool. |
| RenderExtract.SortByHandle | src/bullet/render.rs:285-287 | `sort_by` handle yields a permutation of the pools in ascending handle order. |
| RenderExtract.SortSortedIsIdentity | src/bullet/render.rs:285-287 | Sorting pools already in handle order leaves them as they are. |
| Render.Pack | src/bullet/render.rs:313-315 | The zip stops at the shorter list. Entry `i` is `(x, y, rotation, 0)` of position `i` and rotation `i`. |
| Render.Scan | src/bullet/render.rs:300-321 | After the loop, `handle` is `None` exactly when there were no pools, and otherwise is the last pool's handle. `range` starts at `0..0` and never has its start past its end. |
| Render.PushPacked | src/bullet/render.rs:313-315 | The buffer grows by exactly the pool's packed entries. |
| Render.PrepareOne | src/bullet/render.rs:303-321 | One iteration of the pool loop, on the loop's variables. |
| Render.PrepareBullets | src/bullet/render.rs:260-331 | The pools end sorted by handle. The buffer holds the packed entries of every pool in that order, and the batches are the flushes plus a non-empty final range. |
| Render.BindBufferSize | src/bullet/render.rs:337 | The binding size is `size_of::<T>()·count`. The zero-size panic of the `NonZeroU64` conversion (`None`) happens exactly when that is zero. |
| Render.QueueBullets | src/bullet/render.rs:355-358 | `queue_bullets` never reaches the zero-size panic of `bind_buffer` (render.rs:337). It returns early exactly when there is no view binding or the buffer is empty, and otherwise binds 16 bytes per entry. |
| BatchProperties.TilesDisjoint | src/bullet/render.rs:307 | Tiling ranges lie inside their span and never overlap. |
| BatchProperties.ScanLayout | src/bullet/render.rs:289-321 | After the loop, the buffer holds `TotalPacked(pools)` entries (one per zipped pair over all pools) and `range.end` is 6 × the total positions. The flushed batches tile `0..range.start`. |
| BatchProperties.BufferEntries | src/bullet/render.rs:303-321 | The buffer's contents: pool `k`'s `i`-th zipped pair is the entry `(x, y, rotation, 0)` at offset `TotalPacked(pools[..k]) + i`, so pools appear in order, each as its zip. |
| BatchProperties.BatchesTile | src/bullet/render.rs:300-325 | All spawned batches tile `0..6·total` contiguously, without overlap. |
| BatchProperties.MatchedPoolsRange | src/bullet/render.rs:313-319 | When every pool has as many rotations as positions, the vertex count is six per buffer entry. |
| BatchProperties.ScanFlushes | src/bullet/render.rs:304-308 | A batch is flushed at every handle change, even for an empty range. |
| BatchProperties.BatchCount | src/bullet/render.rs:323-325 | When the last pool holds bullets, the final range is spawned as well: one batch per run of equal handles. |
| BatchProperties.ScanSortedHandles | src/bullet/render.rs:303-321 | Over handle-sorted pools, flushed batch handles strictly increase and stay below the current handle. |
| BatchProperties.SortedBatchHandles | src/bullet/render.rs:285-325 | After sorting, each texture is drawn by at most one batch: batch handles strictly increase. |
| BatchProperties.EmptyRanges | src/bullet/render.rs:304-325 | An empty pool followed by another texture still flushes an empty batch. An empty final range is not spawned. |

## Left out

- Asset loading: the asynchronous `PatternLoader` and the directory scan of `init_database` are file I/O through the engine's asset server.
- Decoding: turning pattern text into a JSON tree (`serde_json::from_str`) is not modelled. `Parse` receives the decoded tree, or `None` for malformed text.
- Expressions: parsing and evaluating fasteval expressions (`parse_expression`, `ExpressionSlab`) are not modelled.
  - A compiled expression is an arbitrary `real -> real`, and compiling is a parameter.
  - An evaluation error (the `unwrap` in `ExpressionSlab::eval`) is not modelled.
  - `BulletContext::new` formats its speed as text and compiles it back; the model takes the constant directly.
- `PatternFire.Fire`: `bullet_pools.single_mut()` panics unless exactly one pool exists. The model passes that one pool in.
- Floating point: `f32` rounding, NaN and infinities are not modelled. Neither is the `f64` to `f32` narrowing of parsed numbers, nor the trigonometry of `Vec2::from_angle` (a parameter).
- `aimed_system` is not modelled: it needs `atan2`, and `single()` on the player query.
- `transform_bullets`: the rotation is kept as the angle about z, not as a quaternion. The default scale of the rebuilt transform is not modelled.
- Sprite bundles, textures and entity allocation in `spawn_bullets` are not modelled. Entity ids are a parameter.
- The run criterion `is_ui_unfocused` of `spawn_bullets` is not modelled; E being just pressed is a parameter.
- `Bullets.CollideBullets`: a bullet inside two players' radii gets two despawn commands. The model keeps both in the list, and `ApplyDespawns` treats them as one.
- `Render.Scan`: ranges are unbounded naturals. The `u32` arithmetic of `range.end` (`len as u32 * 6`) is not checked for overflow.
- `RenderExtract.SortByHandle` states sortedness and permutation but not stability: the relative order of pools that share a handle is not stated.
- `Render.BindBufferSize`: the `expect("missing buffer")` of `bind_buffer` (render.rs:335) is not modelled. Whether the GPU buffer exists depends on the engine's `write_buffer` allocation, which is outside this model. So `Render.QueueBullets` rules out only the zero-size panic.
- GPU work is not modelled:
  - the `reserve` of the buffer and its `write_buffer`;
  - bind groups, pipelines and shaders;
  - the draw phase of `queue_bullets` after its guards.
- The definition of `BulletPool` is not part of this model. Only `add`, the positions and rotations, and the handle are represented.
