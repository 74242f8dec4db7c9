/**
 * The bookkeeping surface of the SDK's GroupSyncWrite and GroupSyncRead,
 * as far as the controller depends on it: a parameter table filled by
 * addParam and emptied by clearParam, one bus exchange per txPacket or
 * txRxPacket, and getData over the per-device reply.
 *
 * The SDK itself is not part of this model. What it decides is an input:
 * whether addParam accepts an entry is a function of the table built so
 * far and the new entry (so a rule such as "reject an id already in the
 * table" can be supplied, but none is assumed); the comm result of an
 * exchange is an integer code; the bytes a device returns are a function
 * of its id. Packet framing and checksums are not modelled: an exchange
 * is recorded by what it asks of the bus.
 */
module GroupSync {
  import opened Registers

  /** Device ids are whatever integers the caller passes. */
  type Id = int

  /** One entry of a sync-write parameter table. */
  datatype Param = Param(id: Id, data: seq<Byte>)

  /** One exchange placed on the bus. */
  datatype Exchange =
    | Write1(id: Id, address: int, value: Byte)
    | SyncWrite(address: int, dataLength: int, params: seq<Param>)
    | SyncRead(address: int, dataLength: int, ids: seq<Id>)

  /**
   * How many of the entries, added in order, are accepted before the first
   * refusal: every entry before the count is accepted on the table of the
   * entries before it, and the entry at the count (if any) is refused.
   */
  function AcceptedCount<T>(items: seq<T>, accepts: (seq<T>, T) -> bool): (k: nat)
    ensures k <= |items|
    ensures forall j :: 0 <= j < k ==> accepts(items[..j], items[j])
    ensures k < |items| ==> !accepts(items[..k], items[k])
  {
    AcceptedFrom(items, accepts, 0)
  }

  /** AcceptedCount, scanning on from an index all of whose predecessors were accepted. */
  function AcceptedFrom<T>(items: seq<T>, accepts: (seq<T>, T) -> bool, from: nat): (k: nat)
    requires from <= |items|
    requires forall j :: 0 <= j < from ==> accepts(items[..j], items[j])
    ensures from <= k <= |items|
    ensures forall j :: 0 <= j < k ==> accepts(items[..j], items[j])
    ensures k < |items| ==> !accepts(items[..k], items[k])
    decreases |items| - from
  {
    if from == |items| || !accepts(items[..from], items[from]) then from
    else AcceptedFrom(items, accepts, from + 1)
  }

  /** A characterisation of AcceptedCount: the first refused position. */
  lemma AcceptedCountIsFirstRefusal<T>(items: seq<T>, accepts: (seq<T>, T) -> bool, k: nat)
    requires k <= |items|
    requires forall j :: 0 <= j < k ==> accepts(items[..j], items[j])
    requires k < |items| ==> !accepts(items[..k], items[k])
    ensures AcceptedCount(items, accepts) == k
  {
  }

  /** No id occurs twice. */
  predicate Distinct(ids: seq<Id>)
  {
    forall i, j :: 0 <= i < j < |ids| ==> ids[i] != ids[j]
  }

  /** One possible addParam rule: refuse an id that is already in the table. */
  predicate IsNewId(table: seq<Id>, id: Id)
  {
    id !in table
  }

  /**
   * Under the rule IsNewId, every id of a batch is accepted exactly when
   * the batch has no duplicate ids.
   */
  lemma AllAcceptedIffDistinct(ids: seq<Id>)
    ensures AcceptedCount(ids, IsNewId) == |ids| <==> Distinct(ids)
  {
  }

  /** The GroupSyncWrite object: a parameter table for one register span. */
  class SyncWriteGroup {
    const address: int
    const dataLength: int
    /** The parameter table, in the order the entries were added. */
    var params: seq<Param>
    /** The exchanges this group has placed on the bus. */
    var sent: seq<Exchange>

    constructor(address: int, dataLength: int)
      ensures this.address == address && this.dataLength == dataLength
      ensures params == [] && sent == []
    {
      this.address := address;
      this.dataLength := dataLength;
      params := [];
      sent := [];
    }

    /** addParam: the entry joins the table exactly when the SDK accepts it. */
    method AddParam(id: Id, data: seq<Byte>, accepts: (seq<Param>, Param) -> bool) returns (ok: bool)
      modifies this
      ensures ok == accepts(old(params), Param(id, data))
      ensures params == if ok then old(params) + [Param(id, data)] else old(params)
      ensures sent == old(sent)
    {
      ok := accepts(params, Param(id, data));
      if ok {
        params := params + [Param(id, data)];
      }
    }

    /** txPacket: one sync-write exchange carrying the whole table; its result is the comm code. */
    method TxPacket(comm: int) returns (result: int)
      modifies this
      ensures result == comm
      ensures sent == old(sent) + [SyncWrite(address, dataLength, params)]
      ensures params == old(params)
    {
      sent := sent + [SyncWrite(address, dataLength, params)];
      result := comm;
    }

    /** clearParam: the table is emptied. */
    method ClearParam()
      modifies this
      ensures params == [] && sent == old(sent)
    {
      params := [];
    }
  }

  /** The GroupSyncRead object: the ids to read and, after a successful exchange, their replies. */
  class SyncReadGroup {
    const startAddress: int
    const dataLength: int
    /** The ids to read, in the order they were added. */
    var params: seq<Id>
    /** The exchanges this group has placed on the bus. */
    var sent: seq<Exchange>
    /** The reply bytes of each device, from the last successful exchange. */
    var rx: map<Id, seq<Byte>>

    constructor(startAddress: int, dataLength: int)
      ensures this.startAddress == startAddress && this.dataLength == dataLength
      ensures params == [] && sent == [] && rx == map[]
    {
      this.startAddress := startAddress;
      this.dataLength := dataLength;
      params := [];
      sent := [];
      rx := map[];
    }

    /** addParam: the id joins the table exactly when the SDK accepts it. */
    method AddParam(id: Id, accepts: (seq<Id>, Id) -> bool) returns (ok: bool)
      modifies this
      ensures ok == accepts(old(params), id)
      ensures params == if ok then old(params) + [id] else old(params)
      ensures sent == old(sent) && rx == old(rx)
    {
      ok := accepts(params, id);
      if ok {
        params := params + [id];
      }
    }

    /**
     * txRxPacket: one sync-read exchange for every id in the table; on
     * success each id's reply is what the device returned.
     */
    method TxRxPacket(comm: int, reply: Id -> seq<Byte>) returns (result: int)
      modifies this
      ensures result == comm
      ensures sent == old(sent) + [SyncRead(startAddress, dataLength, params)]
      ensures params == old(params)
      ensures comm == CommSuccess ==> rx == map id | id in params :: reply(id)
    {
      sent := sent + [SyncRead(startAddress, dataLength, params)];
      if comm == CommSuccess {
        rx := map id | id in params :: reply(id);
      }
      result := comm;
    }

    /** getData: the little-endian value of length bytes at address, inside one device's reply. */
    function GetData(id: Id, address: int, length: nat): (n: nat)
      reads this
      requires id in rx
      requires startAddress <= address && address + length <= startAddress + |rx[id]|
      ensures n < Pow256(length)
    {
      LittleEndian(rx[id][address - startAddress..address - startAddress + length])
    }

    /** clearParam: the table and the replies held for it are emptied. */
    method ClearParam()
      modifies this
      ensures params == [] && rx == map[] && sent == old(sent)
    {
      params := [];
      rx := map[];
    }
  }
}
