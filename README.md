# border: per-field replay store and training records, in Dafny

This project models two small stores from the border reinforcement-learning library.

- **`TchTensorBuffer`** (module `TchReplayBuffer`, file `replay_buffer.dfy`) is the store for one field of a transition. It is a single tensor of shape `[capacity] ++ S`, zero-filled when it is built. `push(index, item)` overwrites one slot. `batch(indices)` gathers slots in the order of the index list.
  - A tensor is modelled as a value: an element kind, a shape and its elements in row-major order.
  - There is one kind per `ZeroTensor` implementation (u8, i32, f32, i64). Element payloads are opaque bit patterns.
  - The store itself is a class over an `array` of rows, one row per slot. Its ghost view `AsTensor` flattens the rows back into the single tensor of the source.
- **`Record`** and the recorders (module `CoreRecord`, file `record.dfy`).
  - A `Record` is a string-keyed map that `insert` updates in place.
  - `get`, `get_scalar`, `keys`, `merge` and `from_slice` are modelled. `get_scalar` has its two error kinds.
  - `FromPairs` and `Merged` are the value-level specifications of collecting a slice and of chaining two maps.
  - `BufferedRecorder` keeps records in write order. `NullRecorder` discards them.

In the source, wrong shapes and out-of-range indices are caught by `debug_assert`s or by panics inside the tensor library. They are not returned as errors, so the model states them as preconditions of `Push` and `Batch`.

## Model

| member | source | states |
|---|---|---|
| `TchReplayBuffer.ZeroOf` | border-tch-agent/src/replay_buffer.rs:14-36 | the zero element of each element type has that type's kind |
| `TchReplayBuffer.Zeros` | border-tch-agent/src/replay_buffer.rs:14-36 | `zeros(shape)` is a well-formed tensor of the requested kind and shape in which every element is the kind's zero |
| `TchReplayBuffer.Squeeze0` | border-tch-agent/src/replay_buffer.rs:83 | squeezing dimension 0 of a `[1] ++ S` tensor gives a well-formed tensor of shape `S`, of the same kind, with the same elements |
| `TchReplayBuffer.Select` | border-tch-agent/src/replay_buffer.rs:88 | picking rows by an index list gives one row per index, and row `j` is the row at `indices[j]` |
| `TchReplayBuffer.FlatBlock` | border-tch-agent/src/replay_buffer.rs:88 | in a row-major tensor built from rows of `n` elements, the `j`-th block of `n` elements is row `j` |
| `TchReplayBuffer.FlatZeros` | border-tch-agent/src/replay_buffer.rs:66-69 | `capacity` zero rows of length `n`, laid out row-major, are exactly `capacity * n` zeros, so the row view agrees with `zeros([capacity] ++ S)` |
| `TchReplayBuffer.TchTensorBuffer.constructor` | border-tch-agent/src/replay_buffer.rs:66-75 | the new store has exactly `capacity` slots, every slot is the zero row of shape `S`, and the whole store equals `zeros([capacity] ++ S)`; the process count is ignored |
| `TchReplayBuffer.TchTensorBuffer.Push` | border-tch-agent/src/replay_buffer.rs:77-84 | requires the item's trailing shape to be `S`, its leading dimension to be 1 and `index` to be in `[0, capacity)`; afterwards slot `index` holds the item's elements, every other slot is unchanged and the store stays well-formed |
| `TchReplayBuffer.TchTensorBuffer.Batch` | border-tch-agent/src/replay_buffer.rs:86-89 | for indices all in `[0, capacity)`, the result is a well-formed tensor of shape `[len(indices)] ++ S` whose row `j` is slot `indices[j]`, keeping order and duplicates; being a function, it changes nothing |
| `TchReplayBuffer.LastWriteWins` | border-tch-agent/src/replay_buffer.rs:83 | after two pushes to the same slot, the slot and a batch of it hold the second item, and every other slot is unchanged |
| `TchReplayBuffer.OverwriteScenario` | border-tch-agent/src/replay_buffer.rs:77-89 | on a capacity-3 float store with scalar slots, writing 0.0, 1.0 and 2.0 and then 3.0 to slot 0 makes the batch `[0, 1, 2]` equal `[3.0, 1.0, 2.0]` |
| `CoreRecord.FromPairs` | src/core/record.rs:37-39 | collecting a slice of pairs gives a map whose keys are exactly the keys in the slice |
| `CoreRecord.FromPairsLastWins` | src/core/record.rs:37-39 | for a repeated key, the collected map keeps the value of the last pair with that key |
| `CoreRecord.Merged` | src/core/record.rs:67-69 | chaining map `b` after map `a` gives the union of their keys; a shared key takes `b`'s value, and any other key keeps its value from `a` |
| `CoreRecord.FromPairsAppend` | src/core/record.rs:67-69 | chain-then-collect agrees with `Merged`: collecting `p ++ q` equals merging the record of `p` with the record of `q` |
| `CoreRecord.Record.Empty` | src/core/record.rs:32-34 | an empty record has no keys |
| `CoreRecord.Record.FromSlice` | src/core/record.rs:37-39 | inserting the pairs in slice order yields `FromPairs(s)`, whose keys are those of the slice |
| `CoreRecord.Record.Keys` | src/core/record.rs:42-44 | a key is listed exactly when `get` finds it |
| `CoreRecord.Record.Get` | src/core/record.rs:62-64 | returns `Some` exactly when the key is present, and then the stored value |
| `CoreRecord.Record.Insert` | src/core/record.rs:47-49 | afterwards `get(k)` is `Some(v)`, replacing any earlier value; `k` joins the keys, and every other key keeps its value |
| `CoreRecord.Record.Merge` | src/core/record.rs:67-69 | returns a new record holding `Merged(self, other)`, whose keys are the union of both key sets |
| `CoreRecord.Record.GetScalar` | src/core/record.rs:72-82 | `Ok(x)` when the key holds `Scalar(x)`, `RecordValueTypeError("Scalar")` when it holds another variant, and `RecordKeyError(k)` when the key is absent |
| `CoreRecord.NullRecorder.Write` | src/core/record.rs:96-99 | writing changes neither the recorder nor the record |
| `CoreRecord.BufferedRecorder.constructor` | src/core/record.rs:153 | a new recorder yields no records |
| `CoreRecord.BufferedRecorder.Iter` | src/core/record.rs:156-158 | the records written so far, in write order; what it yields is fixed by the constructor's and Write's contracts |
| `CoreRecord.BufferedRecorder.Write` | src/core/record.rs:165-167 | the record's contents at the time of the write are appended at the end, so `iter` grows by exactly one and keeps the earlier records in order |
| `CoreRecord.WriteOrder` | src/core/record.rs:153-167 | two writes to a new recorder come back from `iter` in write order, and a later insert into a written record does not change what `iter` yields |

## Left out

- The aggregate replay buffer (`ReplayBuffer`, `TchBatch` and the `TchBuffer` trait, re-exported from the `base` module at border-tch-agent/src/replay_buffer.rs:4-5) is not part of this model. Its cursor, wrap-around and random sampling are not modelled.
- `TchReplayBuffer.TchTensorBuffer.Push`: requires the item to have the store's element kind. The dtype conversion that `copy_` would perform on a mismatch is not modelled.
- `TchReplayBuffer.TchTensorBuffer.Push`: requires `index` in `[0, capacity)`. The tensor library's wrapping of negative indices on `get` is not modelled.
- `TchReplayBuffer.TchTensorBuffer.Push`: the shape checks hold as preconditions in every build. In the source they are `debug_assert`s, so release builds skip them, and what the tensor library then does with a mismatched shape is not modelled.
- `TchReplayBuffer.TchTensorBuffer.Batch`: takes the indices as a sequence of integers. The 1-D index tensor that `index_select` reads, and its integer dtype, are not modelled.
- The conversion `T: Into<Tensor>` of a pushed item is not modelled: `Push` receives the tensor itself.
- The device (`Device::Cpu`) is not modelled. The `capacity as i64` and `usize as i64` conversions are not modelled either, since they only matter above 2^63.
- Element values, `f32` scalars, `Array1<f32>` and `DateTime<Local>` are opaque. No floating-point semantics is modelled.
- `Record::iter` and `Record::into_iter_in_record` are not modelled as sequences, because hash-map iteration order is unspecified. The `entries` map stands for their contents.
- `merge` consumes its inputs in the source; the model returns a fresh record and leaves the inputs in place. `BufferedRecorder` models the move of a written record by keeping a snapshot of its contents.
- The `Recorder` trait is not modelled as a trait. Each recorder has its own `Write` method.
- `TensorboardRecorder` is left out because it writes to a file sink (I/O). It also panics or hits `unimplemented!` on unexpected values.
- The Python gym environment adapter (src/py_gym_env/base.rs) is left out: it drives a foreign simulator. The example program (examples/random_cartpole.rs) is left out too: it uses a random policy, rendering and CSV output.
- `LrrError` is defined outside these files. Only its two variants that `Record` raises are modelled.
