/**
 * The memory bus of src/memory.js: a flat, zero-initialised 64 KiB byte array
 * (a `Uint8Array`) with byte reads, byte writes and a bulk copy used to
 * install ROM images.
 */
module Bus {

  /** Number of addressable bytes. */
  const MEMORY_SIZE := 0x10000

  /** A value a `Uint8Array` cell can hold. */
  type Byte = b: int | 0 <= b < 0x100

  /** An index into the backing array. */
  type Address = a: int | 0 <= a < MEMORY_SIZE

  /**
   * `mem` with `data` copied over it starting at `address`: the effect of a
   * typed-array `set(data, address)` that fits.
   */
  function Installed(mem: seq<Byte>, data: seq<Byte>, address: nat): (r: seq<Byte>)
    requires address + |data| <= |mem|
    ensures |r| == |mem|
    ensures forall i :: 0 <= i < |data| ==> r[address + i] == data[i]
    ensures forall k :: 0 <= k < |mem| && !(address <= k < address + |data|) ==> r[k] == mem[k]
  {
    mem[..address] + data + mem[address + |data|..]
  }

  /**
   * Two installs into disjoint regions commute: the order in which the two
   * ROM fetches complete does not matter.
   */
  lemma InstallsCommute(mem: seq<Byte>, d1: seq<Byte>, a1: nat, d2: seq<Byte>, a2: nat)
    requires a1 + |d1| <= |mem| && a2 + |d2| <= |mem|
    requires a1 + |d1| <= a2 || a2 + |d2| <= a1
    ensures Installed(Installed(mem, d1, a1), d2, a2) == Installed(Installed(mem, d2, a2), d1, a1)
  {
    var left := Installed(Installed(mem, d1, a1), d2, a2);
    var right := Installed(Installed(mem, d2, a2), d1, a1);
    forall k | 0 <= k < |mem|
      ensures left[k] == right[k]
    {
      if a1 <= k < a1 + |d1| {
        assert left[a1 + (k - a1)] == d1[k - a1];
        assert right[a1 + (k - a1)] == d1[k - a1];
      } else if a2 <= k < a2 + |d2| {
        assert left[a2 + (k - a2)] == d2[k - a2];
        assert right[a2 + (k - a2)] == d2[k - a2];
      }
    }
  }

  class Memory {
    /** The backing `Uint8Array`; the array object itself is never replaced. */
    const cells: array<Byte>

    ghost predicate Valid()
    {
      cells.Length == MEMORY_SIZE
    }

    /** A fresh memory holds 0 at every address. */
    constructor ()
      ensures Valid() && fresh(cells)
      ensures forall a :: 0 <= a < cells.Length ==> cells[a] == 0
    {
      cells := new Byte[MEMORY_SIZE](_ => 0);
    }

    /**
     * Copies `data` into memory from `address` on. A typed-array `set` whose
     * target range does not fit throws a RangeError before writing anything;
     * that case is `ok == false` with memory unchanged.
     */
    method InitializeRegion(data: seq<Byte>, address: int) returns (ok: bool)
      requires Valid()
      modifies cells
      ensures ok <==> 0 <= address && address + |data| <= MEMORY_SIZE
      ensures ok ==> cells[..] == Installed(old(cells[..]), data, address)
      ensures !ok ==> cells[..] == old(cells[..])
    {
      ok := 0 <= address && address + |data| <= cells.Length;
      if ok {
        forall i | 0 <= i < |data| {
          cells[address + i] := data[i];
        }
        assert cells[..] == Installed(old(cells[..]), data, address);
      }
    }

    method ReadByte(address: Address) returns (value: Byte)
      requires Valid()
      ensures value == cells[address]
    {
      value := cells[address];
    }

    /**
     * Stores `data` at `address`; every other cell keeps its value. A
     * `Uint8Array` cell keeps the number modulo 256.
     */
    method WriteByte(address: Address, data: int)
      requires Valid()
      modifies cells
      ensures cells[..] == old(cells[..])[address := data % 0x100]
      ensures 0 <= data < 0x100 ==> cells[address] == data
    {
      cells[address] := data % 0x100;
    }
  }
}
