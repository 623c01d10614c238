/** The principal-variation table of src/pvtable.cpp and src/pvtable.h: a
    direct-mapped cache of one move per slot, indexed by the position key
    modulo the number of slots. A slot remembers the key it was stored
    under, so a probe for another key that maps to the same slot misses. */
module PvTable {
  import opened Types

  /** A 64-bit position key (`Key`, an unsigned 64-bit integer). */
  type Key = k: int | 0 <= k < 0x1_0000_0000_0000_0000

  datatype PVNode = PVNode(posKey: Key, move: Move)

  /** The contents of a cleared slot. */
  const EMPTY_NODE: PVNode := PVNode(0, NoMove)

  /** The table's size in bytes, `PVSize`. */
  const PV_SIZE: int := 0x100000 * 2

  /** The slot of `key` in a table of `numNodes` slots: `posKey % numNodes`,
      computed on unsigned 64-bit values, so never negative. */
  function SlotOf(key: Key, numNodes: int): (i: int)
    requires numNodes > 0
    ensures 0 <= i < numNodes
  {
    key % numNodes
  }

  // ---------------------------------------------------------------------
  // The table's contents as a sequence of slots

  /** What `probe` answers for `key` on a table holding `nodes`. */
  function ProbeIn(nodes: seq<PVNode>, key: Key): Move
    requires |nodes| > 0
  {
    var node := nodes[SlotOf(key, |nodes|)];
    if node.posKey == key then node.move else NoMove
  }

  /** The table after `store` of `move` under `key`: the slot of `key`
      holds the pair and every other slot is as before. */
  function StoreIn(nodes: seq<PVNode>, key: Key, move: Move): (r: seq<PVNode>)
    requires |nodes| > 0
    ensures |r| == |nodes|
    ensures r[SlotOf(key, |nodes|)] == PVNode(key, move)
    ensures forall j :: 0 <= j < |nodes| && j != SlotOf(key, |nodes|) ==> r[j] == nodes[j]
  {
    nodes[SlotOf(key, |nodes|) := PVNode(key, move)]
  }

  /** A table of `n` cleared slots. */
  function Cleared(n: nat): (r: seq<PVNode>)
    ensures |r| == n
    ensures forall j :: 0 <= j < n ==> r[j] == EMPTY_NODE
  {
    seq(n, _ => EMPTY_NODE)
  }

  // ---------------------------------------------------------------------
  // PVTable

  class PVTable {
    var pvTable: array<PVNode>
    var numNodes: int

    ghost predicate Valid()
      reads this
    {
      numNodes == pvTable.Length && numNodes > 0
    }

    function Contents(): seq<PVNode>
      reads this, pvTable
    {
      pvTable[..]
    }

    /** `PVTable()`: as many slots as fit in `PVSize` bytes at `nodeSize`
        bytes a slot (`sizeof(PVNode)`), all cleared. */
    constructor (nodeSize: int)
      requires 0 < nodeSize <= PV_SIZE
      ensures Valid() && fresh(pvTable)
      ensures numNodes == PV_SIZE / nodeSize
      ensures Contents() == Cleared(numNodes)
    {
      numNodes := PV_SIZE / nodeSize;
      pvTable := new PVNode[PV_SIZE / nodeSize];
      new;
      ClearTable();
    }

    /** `clear_table()`: every slot gets key 0 and `Move::none()`. */
    method ClearTable()
      requires Valid()
      modifies pvTable
      ensures Valid()
      ensures Contents() == Cleared(numNodes)
    {
      var node := 0;
      while node < numNodes
        invariant 0 <= node <= numNodes
        invariant forall j :: 0 <= j < node ==> pvTable[j] == EMPTY_NODE
      {
        pvTable[node] := pvTable[node].(posKey := 0);
        pvTable[node] := pvTable[node].(move := NoMove);
        node := node + 1;
      }
    }

    /** `store(board, move)`: writes the move, then the key, into the slot
        of `key`; no other slot changes. */
    method Store(key: Key, move: Move)
      requires Valid()
      modifies pvTable
      ensures Valid()
      ensures Contents() == StoreIn(old(Contents()), key, move)
    {
      var i := key % numNodes;
      pvTable[i] := pvTable[i].(move := move);
      pvTable[i] := pvTable[i].(posKey := key);
    }

    /** `probe(board)`: the move in the slot of `key` when that slot was
        stored under `key`, else `Move::none()`. */
    method Probe(key: Key) returns (m: Move)
      requires Valid()
      ensures m == ProbeIn(Contents(), key)
    {
      var i := key % numNodes;
      if pvTable[i].posKey == key {
        return pvTable[i].move;
      }
      return NoMove;
    }
  }

  // ---------------------------------------------------------------------
  // What a probe reports

  /** A probe hits only on the key its slot holds, and then reports that
      slot's move; it misses, with `Move::none()`, otherwise. */
  lemma ProbeHitIff(nodes: seq<PVNode>, key: Key)
    requires |nodes| > 0
    ensures nodes[SlotOf(key, |nodes|)].posKey == key ==> ProbeIn(nodes, key) == nodes[SlotOf(key, |nodes|)].move
    ensures nodes[SlotOf(key, |nodes|)].posKey != key ==> ProbeIn(nodes, key) == NoMove
  {
  }

  /** A probe right after a store under the same key finds the stored move. */
  lemma ProbeAfterStore(nodes: seq<PVNode>, key: Key, move: Move)
    requires |nodes| > 0
    ensures ProbeIn(StoreIn(nodes, key, move), key) == move
  {
  }

  /** A store under a different key that maps to the same slot evicts the
      earlier entry: a later probe for the earlier key misses. */
  lemma ProbeAfterCollision(nodes: seq<PVNode>, k1: Key, k2: Key, m1: Move, m2: Move)
    requires |nodes| > 0
    requires k1 != k2 && SlotOf(k1, |nodes|) == SlotOf(k2, |nodes|)
    ensures ProbeIn(StoreIn(StoreIn(nodes, k1, m1), k2, m2), k1) == NoMove
  {
  }

  /** A store into another slot does not change what a probe reports. */
  lemma ProbeAfterStoreElsewhere(nodes: seq<PVNode>, k1: Key, k2: Key, m2: Move)
    requires |nodes| > 0
    requires SlotOf(k1, |nodes|) != SlotOf(k2, |nodes|)
    ensures ProbeIn(StoreIn(nodes, k2, m2), k1) == ProbeIn(nodes, k1)
  {
  }

  /** A cleared table answers `Move::none()` for every key, key 0 included. */
  lemma ProbeCleared(n: nat, key: Key)
    requires n > 0
    ensures ProbeIn(Cleared(n), key) == NoMove
  {
  }
}
