# Dynamixel bus controller: sync write, sync read and torque enable

This project models the bus-facing core of `DynamixelController`, the
Python driver for a chain of Dynamixel XL servos on one half-duplex serial
bus, and proves properties of that model in Dafny.

It covers three operations:

- `enable_torque` issues one single-device write per id. Each write puts the
  value 1 into the torque-enable register (address 64). Each reply is
  classified as comm failure, device error or success, and the batch always
  runs to its end.
- `sync_write_goal_position` builds one sync-write transaction. Each id is
  paired with its goal position, encoded as 4 little-endian bytes. The first
  refused `addParam` aborts the call before anything is sent, and so does
  the `IndexError` of a `goal_positions` list shorter than `ids`. Otherwise
  the table is transmitted once, and the call returns true only when the
  comm result is `COMM_SUCCESS` (0).
- `sync_read_data` builds one sync read of 10 bytes from the present-load
  register (126) for every id. Each device's 10-byte reply is split into
  load (2 bytes at 126), speed (4 bytes at 128) and position (4 bytes at
  132), and the result is a map from id to reading.

Files and modules:

- `registers.dfy` (module `Registers`): the register constants, the goal
  payload encoding, little-endian decoding, and the layout of the read span.
- `group_sync.dfy` (module `GroupSync`): the parts of the SDK's
  `GroupSyncWrite` and `GroupSyncRead` that the controller relies on. Each
  class keeps a parameter table filled by `addParam` and emptied by
  `clearParam`. It records each exchange it puts on the bus, and offers
  `getData` over the per-device reply.
- `controller.dfy` (module `Controller`): the class `DynamixelController`
  with its three methods.

## What the SDK contributes, and how it is modelled

The Dynamixel SDK is not part of this model. Its answers are inputs to the
controller methods:

- `accepts(table, entry)` says whether `addParam` takes the entry. It is a
  function of the table built so far and the new entry. No rule is assumed.
  If the SDK rejects ids it already holds, that is one such function, and
  `GroupSync.AllAcceptedIffDistinct` states what it implies.
- `comm` is the integer comm result of the single `txPacket` /
  `txRxPacket`.
- `reply(id)` is the 10-byte slice device `id` returns to the sync read, and
  `reply(i, id)` is the `(comm_result, error)` pair that the `i`-th torque
  write receives.
- The meanings of `DXL_LOWORD`, `DXL_HIWORD`, `DXL_LOBYTE` and `DXL_HIBYTE`
  are assumptions: `v & 0xFFFF`, `(v >> 16) & 0xFFFF`, `w & 0xFF` and
  `(w >> 8) & 0xFF` on Python's unbounded integers. Dafny's `%` and `/` by a
  positive constant compute the same values, negative goal positions
  included. The same goes for `getData`, which is modelled as little-endian
  decoding of the requested bytes of the reply.

The two sync methods return the source's own result; `EnableTorque` returns
the classified outcomes that the source only prints. Alongside it, each
method returns `sent`, the exchanges the call put on the bus. The two sync
methods also return `pending`, the group's parameter table at the moment the
call returns. With these, "nothing was transmitted", "exactly one
transmission" and "the table was cleared" can be stated.

Two points about the code that the model makes explicit:

- `sync_write_goal_position` does not check that `goal_positions` is as long
  as `ids`. Extra goal positions are ignored. When the list is shorter, the
  lookup `goal_positions[i]` raises an `IndexError` once every earlier entry
  has been added; the model returns this as the outcome `RaisedIndexError`.
- `enable_torque` only prints each outcome and returns `None`. The model
  returns the classified outcomes so that the classification can be stated.

## Model

| member | source | states |
|---|---|---|
| `Registers.GoalBytes` | dynamixel_controller.py:77-82 | the goal payload always has exactly 4 bytes, each in 0..255 |
| `Registers.LittleEndian` | dynamixel_controller.py:115-117 | a little-endian value of n bytes is below 256^n |
| `Registers.GoalBytesRoundTrip` | dynamixel_controller.py:77-82 | decoding the payload b0 + 256·b1 + 65536·b2 + 16777216·b3 gives the goal position modulo 2^32 |
| `Registers.GoalBytesOfLittleEndian` | dynamixel_controller.py:77-82 | every 4-byte string is the payload of its own little-endian value, so the encoding is onto |
| `Registers.GoalBytesInjective` | dynamixel_controller.py:77-82 | two goal positions have the same payload exactly when they agree modulo 2^32 |
| `Registers.GoalBytesExamples` | dynamixel_controller.py:77-82 | 0x01020304 is sent as [0x04, 0x03, 0x02, 0x01], and -1 as four 0xFF bytes |
| `Registers.ReadSpanTiled` | dynamixel_controller.py:7-9 | load (126, 2 bytes), speed (128, 4 bytes) and position (132, 4 bytes) are contiguous and end at 126 + 10, so they fill the read span exactly |
| `Registers.ReadingOf` | dynamixel_controller.py:115-118 | the reference reading of a 10-byte reply has a 2-byte load and a 4-byte speed and position |
| `Registers.PositionEchoesGoal` | dynamixel_controller.py:117 | a device whose position bytes hold the payload of goal v reports position v modulo 2^32, so the write encoding and the read decoding agree |
| `Registers.ReadingOfExample` | dynamixel_controller.py:115-118 | the reply for load 100, speed 200, position 3000 decodes to exactly that reading |
| `GroupSync.AcceptedCount` | dynamixel_controller.py:83-86 | the count is the first position whose entry addParam refuses on the table of the entries before it; every entry before it is accepted |
| `GroupSync.AcceptedCountIsFirstRefusal` | dynamixel_controller.py:83-86 | any position with all predecessors accepted and itself refused (or at the end) is the count |
| `GroupSync.AllAcceptedIffDistinct` | dynamixel_controller.py:102-105 | if addParam refuses ids already in the table, a whole batch is accepted exactly when its ids are distinct |
| `GroupSync.SyncWriteGroup.constructor` | dynamixel_controller.py:74 | a new sync-write group holds its address and data length, an empty table and no exchanges |
| `GroupSync.SyncWriteGroup.AddParam` | dynamixel_controller.py:83 | the entry is appended exactly when the SDK accepts it; nothing is sent |
| `GroupSync.SyncWriteGroup.TxPacket` | dynamixel_controller.py:89 | one sync-write exchange carrying the whole table is sent; the result is the comm code; the table is kept |
| `GroupSync.SyncWriteGroup.ClearParam` | dynamixel_controller.py:95 | the table is emptied and nothing is sent |
| `GroupSync.SyncReadGroup.constructor` | dynamixel_controller.py:100 | a new sync-read group holds its start address and length, an empty table, no exchanges and no replies |
| `GroupSync.SyncReadGroup.AddParam` | dynamixel_controller.py:103 | the id is appended exactly when the SDK accepts it; nothing is sent |
| `GroupSync.SyncReadGroup.TxRxPacket` | dynamixel_controller.py:108 | one sync-read exchange for all ids in the table is sent; on success each id's reply is what the device returned |
| `GroupSync.SyncReadGroup.GetData` | dynamixel_controller.py:115-117 | a field of length n read from a device's reply is below 256^n |
| `GroupSync.SyncReadGroup.ClearParam` | dynamixel_controller.py:121 | the table and its replies are emptied and nothing is sent |
| `Controller.Classify` | dynamixel_controller.py:65-70 | a reply is a comm failure exactly when its comm result is not 0. It is a device error exactly when the comm result is 0 and the error is not 0. It is a success exactly when both are 0. The failure codes are carried along |
| `Controller.Payloads` | dynamixel_controller.py:75-82 | the sync-write table reaches as far as both lists do (as many entries as the shorter of ids and goal_positions), and entry i pairs ids[i] with the payload of goal_positions[i] |
| `Controller.PayloadsDecode` | dynamixel_controller.py:76-83 | for every index both lists have, the data added for ids[i] is 4 bytes and decodes to goal_positions[i] modulo 2^32 |
| `Controller.DynamixelController.constructor` | dynamixel_controller.py:16-18 | the controller keeps the device name and baud rate it was given |
| `Controller.DynamixelController.EnableTorque` | dynamixel_controller.py:59-70 | exactly &#124;ids&#124; writes, in order, each a 1-byte write of 1 to address 64 on ids[i] (none for empty ids). Outcome i is the classification of the i-th reply, so a failure never stops the loop |
| `Controller.DynamixelController.SyncWriteGoalPosition` | dynamixel_controller.py:72-96 | returns true exactly when every addParam succeeded and the comm result is 0. It raises the IndexError exactly when goal_positions is shorter than ids and every entry before index &#124;goal_positions&#124; was accepted. After a refusal or the IndexError nothing is sent and the table holds only the entries added before it. Otherwise exactly one exchange carries the whole table, cleared on success and left in place on comm failure |
| `Controller.DynamixelController.AddPayloads` | dynamixel_controller.py:75-86 | the loop adds entries in order and stops at the first refusal or missing goal position; the number added is the accepted count of the table, and the group holds exactly those entries with nothing sent |
| `Controller.DynamixelController.SyncReadData` | dynamixel_controller.py:98-122 | returns readings exactly when every addParam succeeded and the comm result is 0. After a refusal nothing is sent. Otherwise exactly one 10-byte read at 126 is sent for all ids. A comm failure gives no result. On success the keys are exactly the ids, each mapped to the reading decoded from that device's reply, and the table is cleared |
| `Controller.DynamixelController.CollectReadings` | dynamixel_controller.py:113-119 | the demultiplexed map has exactly the ids as keys, and each id's load, speed and position come from bytes 0-1, 2-5 and 6-9 of its own reply |

## Left out

- `setup_port` (opening the serial device, setting the baud rate, catching the serial exceptions) is transport I/O and is not modelled.
- `port_lock`, the module-level lock, is concurrency and is not modelled. In the source every exit path of the three methods, the early returns included, lies inside its `with` block.
- All `print` diagnostics and the `getTxRxResult` / `getRxPacketError` text lookups are logging only and are left out.
- The SDK's `PortHandler`, `PacketHandler(2.0)`, packet framing, checksums and wire timing are foreign code. An exchange is recorded only by what it asks of the bus, and the SDK's answers are inputs (see above).
- `Controller.DynamixelController.constructor`: the port and packet handlers it creates are not modelled. Dafny parameters with default values are not used, so the default baud rate 1000000 and the default `data_length=4` of the sync write must be passed explicitly.
- `GroupSync.SyncReadGroup.GetData` requires the requested field to lie inside the device's reply and its id to have replied. The SDK's zero for an unavailable field is not modelled. The controller's three calls are proved to meet this requirement.
- `Controller.DynamixelController.SyncReadData`: the result is a Dafny `map`, so the insertion order of the Python dict is not represented. The device reply is fixed at the 10 bytes the controller requests.
- `Controller.DynamixelController.SyncWriteGoalPosition` records the `data_length` argument in the transmitted exchange. The payload is always 4 bytes, whatever `data_length` says. Whether the SDK refuses a payload longer than `data_length` is part of the `accepts` input.
- `Controller.DynamixelController.SyncWriteGoalPosition`: the `IndexError` is returned as an outcome, not propagated as an exception; the lock release on the way out is covered by the `port_lock` line above.
