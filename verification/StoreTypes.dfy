/**
 Stores, tasks and their requests. An enum that is read from a byte may hold any byte, so the enums are
 bytes with named values.
 */
module StoreTypes {
  import opened Common

  type StoreId = nat
  type TaskId = Bytes

  const STORE_RUNNING: Byte := 0
  const STORE_FAILED: Byte := 2

  const TASK_CREATE: Byte := 0
  const TASK_CUSTOM: Byte := 3

  const WAITING: Byte := 0
  const RUNNING: Byte := 1
  const SUCCESS: Byte := 2
  const FAILED: Byte := 3

  const MAX_HOST_BYTES: nat := 4 * 1024
  const MAX_TASK_ID_BYTES: nat := 4 * 1024
  const MAX_TASK_PAYLOAD_BYTES: nat := 4 * 1024 * 1024

  datatype StoreAddress = StoreAddress(host: Bytes, port: nat)

  /** The persistent form of a store is the same without the heartbeat: here, with heartbeat 0. */
  datatype StoreInfo = StoreInfo(
    id: StoreId,
    address: StoreAddress,
    capacity: nat,
    used: nat,
    state: Byte,
    generation: nat,
    heartbeat: int
  )

  datatype StoreUpdate = StoreUpdate(
    id: StoreId,
    expected: Option<nat>,
    capacity: Option<nat>,
    used: Option<nat>,
    state: Option<Byte>
  )

  datatype TaskRecord = TaskRecord(
    taskId: TaskId,
    kind: Byte,
    state: Byte,
    target: Bytes,
    owner: StoreId,
    result: Bytes,
    generation: nat,
    sequence: nat
  )

  datatype TaskRequest = TaskRequest(taskId: TaskId, kind: Byte, target: Bytes)

  datatype TaskReport = TaskReport(
    storeId: StoreId,
    taskId: TaskId,
    finalState: Byte,
    result: Bytes,
    expected: Option<nat>
  )

  predicate Terminal(state: Byte) {
    state == SUCCESS || state == FAILED
  }

  const NO_STORE := StoreInfo(0, StoreAddress([], 0), 0, 0, STORE_RUNNING, 0, 0)
}
