/**
 * The DynamixelController's three bus operations: the torque-enable batch,
 * the goal-position sync write and the load/speed/position sync read.
 *
 * Each operation is a method that changes nothing outside itself: the SDK
 * group objects it builds are local, and what an SDK call answers is an
 * input (see module GroupSync). The sync methods return the source's
 * own result (with the IndexError of a short goal list as an outcome);
 * EnableTorque returns the classified outcomes the source only prints.
 * Each method also returns what the call placed on the bus (`sent`) and,
 * for the sync engines, what was left in the group's parameter table when the
 * call returned (`pending`), so that "nothing was transmitted" and "the
 * table was cleared" can be stated.
 */
module Controller {
  import opened Registers
  import opened GroupSync

  /** The pair write1ByteTxRx answers: the comm result and the device's error byte. */
  datatype Status = Status(comm: int, error: int)

  /** How one torque-enable write turned out, tested in this order. */
  datatype TorqueOutcome =
    | CommFailure(comm: int)
    | DeviceError(error: int)
    | Enabled

  /**
   * How sync_write_goal_position ends: it returns True or False, or the
   * lookup goal_positions[i] raises an IndexError.
   */
  datatype WriteOutcome =
    | Returned(ok: bool)
    | RaisedIndexError

  /** The sync read's result: False, or the map from id to reading. */
  datatype ReadResult =
    | ReadFailed
    | Readings(values: map<Id, Reading>)

  /** Classification of one torque-enable reply: comm failure first, then device error, else success. */
  function Classify(s: Status): (o: TorqueOutcome)
    ensures o.CommFailure? <==> s.comm != CommSuccess
    ensures o.DeviceError? <==> s.comm == CommSuccess && s.error != 0
    ensures o.Enabled? <==> s.comm == CommSuccess && s.error == 0
    ensures o.CommFailure? ==> o.comm == s.comm
    ensures o.DeviceError? ==> o.error == s.error
  {
    if s.comm != CommSuccess then CommFailure(s.comm)
    else if s.error != 0 then DeviceError(s.error)
    else Enabled
  }

  /**
   * The sync-write table the controller builds, as far as both lists reach:
   * ids[i] paired with the payload of goals[i].
   */
  function Payloads(ids: seq<Id>, goals: seq<int>): (ps: seq<Param>)
    ensures |ps| == if |goals| < |ids| then |goals| else |ids|
    ensures forall i :: 0 <= i < |ps| ==> ps[i] == Param(ids[i], GoalBytes(goals[i]))
  {
    if ids == [] || goals == [] then []
    else [Param(ids[0], GoalBytes(goals[0]))] + Payloads(ids[1..], goals[1..])
  }

  /** Every entry of the table decodes to its goal position modulo 2^32. */
  lemma PayloadsDecode(ids: seq<Id>, goals: seq<int>, i: nat)
    requires i < |ids| && i < |goals|
    ensures |Payloads(ids, goals)[i].data| == GoalLength
    ensures LittleEndian(Payloads(ids, goals)[i].data) == goals[i] % 0x1_0000_0000
  {
    GoalBytesRoundTrip(goals[i]);
  }

  class DynamixelController {
    /** The serial device the port handler was created for, and its baud rate. */
    const deviceName: string
    const baudrate: int

    constructor(deviceName: string, baudrate: int)
      ensures this.deviceName == deviceName && this.baudrate == baudrate
    {
      this.deviceName := deviceName;
      this.baudrate := baudrate;
    }

    /**
     * enable_torque: one 1-byte write of TorqueEnable to AddrTorqueEnable
     * per id, in order, and the classified outcome of each; a failure
     * never ends the batch early. reply(i, id) is the answer to the i-th
     * write.
     */
    method EnableTorque(ids: seq<Id>, reply: (nat, Id) -> Status)
      returns (outcomes: seq<TorqueOutcome>, sent: seq<Exchange>)
      ensures |sent| == |ids| && |outcomes| == |ids|
      ensures forall i :: 0 <= i < |ids| ==> sent[i] == Write1(ids[i], AddrTorqueEnable, TorqueEnable)
      ensures forall i :: 0 <= i < |ids| ==> outcomes[i] == Classify(reply(i, ids[i]))
    {
      outcomes, sent := [], [];
      for i := 0 to |ids|
        invariant |sent| == i && |outcomes| == i
        invariant forall j :: 0 <= j < i ==> sent[j] == Write1(ids[j], AddrTorqueEnable, TorqueEnable)
        invariant forall j :: 0 <= j < i ==> outcomes[j] == Classify(reply(j, ids[j]))
      {
        sent := sent + [Write1(ids[i], AddrTorqueEnable, TorqueEnable)];
        var status := reply(i, ids[i]);
        var outcome;
        if status.comm != CommSuccess {
          outcome := CommFailure(status.comm);
        } else if status.error != 0 {
          outcome := DeviceError(status.error);
        } else {
          outcome := Enabled;
        }
        outcomes := outcomes + [outcome];
      }
    }

    /**
     * sync_write_goal_position: the ids are added with their payloads in
     * order; the first refused addParam ends the call with false before
     * anything is sent and before any later id is added. Reaching an index
     * that goalPositions does not have raises an IndexError, also before
     * anything is sent. Otherwise the whole table goes out in one exchange,
     * and the call returns true, with the table cleared, exactly when that
     * exchange succeeded.
     */
    method SyncWriteGoalPosition(ids: seq<Id>, goalPositions: seq<int>, address: int, dataLength: int, accepts: (seq<Param>, Param) -> bool, comm: int)
      returns (outcome: WriteOutcome, sent: seq<Exchange>, pending: seq<Param>)
      ensures outcome == Returned(true) <==>
        AcceptedCount(Payloads(ids, goalPositions), accepts) == |ids| && comm == CommSuccess
      ensures outcome == RaisedIndexError <==>
        AcceptedCount(Payloads(ids, goalPositions), accepts) == |goalPositions| < |ids|
      ensures var ps := Payloads(ids, goalPositions); var k := AcceptedCount(ps, accepts);
        k < |ids| ==> sent == [] && pending == ps[..k]
      ensures var ps := Payloads(ids, goalPositions);
        AcceptedCount(ps, accepts) == |ids| ==> sent == [SyncWrite(address, dataLength, ps)]
      ensures var ps := Payloads(ids, goalPositions);
        AcceptedCount(ps, accepts) == |ids| ==> pending == if outcome == Returned(true) then [] else ps
    {
      var group := new SyncWriteGroup(address, dataLength);
      var k := AddPayloads(group, ids, goalPositions, accepts);
      ghost var ps := Payloads(ids, goalPositions);
      if k < |ids| {
        // The loop stopped early: at the lookup goal_positions[k], or at a refusal.
        if k == |goalPositions| {
          return RaisedIndexError, group.sent, group.params;
        }
        return Returned(false), group.sent, group.params;
      }
      assert group.params == ps[..|ps|] == ps;
      var result := group.TxPacket(comm);
      if result != CommSuccess {
        return Returned(false), group.sent, group.params;
      }
      group.ClearParam();
      return Returned(true), group.sent, group.params;
    }

    /**
     * The loop of sync_write_goal_position: for each index in order, the
     * goal position is looked up and the id is added with its payload. The
     * loop stops at the first refusal, or at an index goalPositions does not
     * have; k is how many entries were added.
     */
    method AddPayloads(group: SyncWriteGroup, ids: seq<Id>, goalPositions: seq<int>, accepts: (seq<Param>, Param) -> bool)
      returns (k: nat)
      modifies group
      requires group.params == [] && group.sent == []
      ensures k == AcceptedCount(Payloads(ids, goalPositions), accepts)
      ensures group.params == Payloads(ids, goalPositions)[..k] && group.sent == []
    {
      ghost var ps := Payloads(ids, goalPositions);
      for i := 0 to |ids|
        invariant i <= |goalPositions|
        invariant group.params == ps[..i] && group.sent == []
        invariant forall j :: 0 <= j < i ==> accepts(ps[..j], ps[j])
      {
        if i >= |goalPositions| {
          assert ps[..i] == ps;
          AcceptedCountIsFirstRefusal(ps, accepts, i);
          return i;
        }
        var goalPosition := goalPositions[i];
        var data := GoalBytes(goalPosition);
        assert ps[i] == Param(ids[i], data);
        var added := group.AddParam(ids[i], data, accepts);
        if !added {
          AcceptedCountIsFirstRefusal(ps, accepts, i);
          return i;
        }
        assert ps[..i + 1] == ps[..i] + [ps[i]];
      }
      assert ps[..|ids|] == ps;
      AcceptedCountIsFirstRefusal(ps, accepts, |ids|);
      return |ids|;
    }

    /**
     * sync_read_data: the ids are added in order; the first refused
     * addParam ends the call with ReadFailed before any exchange. Otherwise
     * one 10-byte read from AddrPresentLoad goes out for all of them; a
     * failed exchange gives ReadFailed and no partial result, a successful
     * one gives one reading per id, decoded from that device's reply.
     */
    method SyncReadData(ids: seq<Id>, accepts: (seq<Id>, Id) -> bool, comm: int, reply: Id -> Slice)
      returns (results: ReadResult, sent: seq<Exchange>, pending: seq<Id>)
      ensures var k := AcceptedCount(ids, accepts);
        && (results.Readings? <==> k == |ids| && comm == CommSuccess)
        && (k < |ids| ==> sent == [] && pending == ids[..k])
        && (k == |ids| ==> sent == [SyncRead(AddrPresentLoad, ReadLength, ids)])
        && (k == |ids| && !results.Readings? ==> pending == ids)
      ensures results.Readings? ==> pending == []
      ensures results.Readings? ==> forall id :: id in results.values <==> id in ids
      ensures results.Readings? ==>
        forall id :: id in results.values ==> results.values[id] == ReadingOf(reply(id))
    {
      var group := new SyncReadGroup(AddrPresentLoad, ReadLength);
      for i := 0 to |ids|
        invariant group.params == ids[..i] && group.sent == []
        invariant forall j :: 0 <= j < i ==> accepts(ids[..j], ids[j])
      {
        var added := group.AddParam(ids[i], accepts);
        if !added {
          AcceptedCountIsFirstRefusal(ids, accepts, i);
          return ReadFailed, group.sent, group.params;
        }
        assert ids[..i + 1] == ids[..i] + [ids[i]];
      }
      assert ids[..|ids|] == ids;
      AcceptedCountIsFirstRefusal(ids, accepts, |ids|);
      var bytes: Id -> seq<Byte> := id => reply(id);
      var result := group.TxRxPacket(comm, bytes);
      if result != CommSuccess {
        return ReadFailed, group.sent, group.params;
      }
      var table := CollectReadings(group, ids, reply);
      group.ClearParam();
      return Readings(table), group.sent, group.params;
    }

    /**
     * The demultiplexing loop of sync_read_data: for each id in order, its
     * load, speed and position are fetched with getData from the group's
     * replies and stored in the result map under that id.
     */
    method CollectReadings(group: SyncReadGroup, ids: seq<Id>, reply: Id -> Slice)
      returns (table: map<Id, Reading>)
      requires group.startAddress == AddrPresentLoad
      requires forall id :: id in ids ==> id in group.rx && group.rx[id] == reply(id)
      ensures forall id :: id in table <==> id in ids
      ensures forall id :: id in table ==> table[id] == ReadingOf(reply(id))
    {
      ReadSpanTiled();
      table := map[];
      for i := 0 to |ids|
        invariant forall id :: id in table <==> id in ids[..i]
        invariant forall id :: id in table ==> table[id] == ReadingOf(reply(id))
      {
        var id := ids[i];
        assert |group.rx[id]| == ReadLength;
        var load := group.GetData(id, AddrPresentLoad, LoadLength);
        var speed := group.GetData(id, AddrPresentSpeed, SpeedLength);
        var position := group.GetData(id, AddrPresentPosition, PositionLength);
        table := table[id := Reading(load, speed, position)];
        assert ids[..i + 1] == ids[..i] + [id];
      }
      assert ids[..|ids|] == ids;
    }
  }
}
