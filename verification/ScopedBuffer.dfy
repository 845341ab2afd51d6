/** The scope-bound buffer of cpcl: a fixed array inside the object, replaced by a heap block when more is asked for. */
module ScopedBuffer {

  class ScopedBuf {
    const count: nat
    const own: array<char>
    var heap: array?<char>
    var owner: bool
    var size: nat
    var capacity: nat

    ghost predicate Valid()
      reads this
    {
      && own.Length == count
      && size <= capacity
      && heap != own
      && (if heap == null then capacity == count && owner else capacity == heap.Length)
    }

    constructor (count: nat)
      ensures Valid() && fresh(own) && this.count == count && size == 0 && heap == null
    {
      this.count, own, heap, owner, size, capacity := count, new char[count], null, true, 0, count;
    }

    function Data(): (d: array<char>)
      requires Valid()
      reads this
      ensures size <= d.Length == capacity
    {
      if heap != null then heap else own
    }

    method Release()
      requires Valid()
      modifies this
      ensures Valid() && size == 0 && heap == null && owner && capacity == count
    {
      heap, owner, size, capacity := null, true, 0, count;
    }

    /** Room for `v` characters: where they were if they fit the capacity, else in a new block, unless
        the array inside the object will do after a larger attached or smaller heap block is dropped. */
    method Alloc(v: nat) returns (d: array<char>)
      requires Valid() && 0 < v
      modifies this
      ensures Valid() && size == v && d == Data() && v <= d.Length
      ensures old(capacity) >= v ==> d == old(Data()) && capacity == old(capacity)
      ensures old(capacity) < v ==> owner && if v > count then fresh(d) && d.Length == v else d == own
    {
      if capacity < v {
        Release();
        if v > count {
          heap := new char[v];
          capacity := v;
        }
      }
      size := v;
      d := Data();
    }

    method Attach(p: array<char>)
      requires Valid() && p != own
      modifies this
      ensures Valid() && Data() == p && size == p.Length && !owner
    {
      Release();
      heap := p;
      capacity, size := p.Length, p.Length;
      owner := false;
    }

    /** Blocks change hands, the arrays inside the objects do not: so a buffer that takes over an object
        without a block is sound afterwards exactly if both objects have the same fixed size. */
    method Swap(r: ScopedBuf)
      requires r != this && Valid() && r.Valid() && own != r.own && heap != r.own && own != r.heap
      requires (heap != null || size == 0) && (r.heap != null || r.size == 0)
      modifies this, r
      ensures heap == old(r.heap) && owner == old(r.owner) && size == old(r.size) && capacity == old(r.capacity)
      ensures r.heap == old(heap) && r.owner == old(owner) && r.size == old(size) && r.capacity == old(capacity)
      ensures Valid() <==> (heap != null || count == r.count)
      ensures r.Valid() <==> (r.heap != null || count == r.count)
    {
      heap, r.heap := r.heap, heap;
      owner, r.owner := r.owner, owner;
      size, r.size := r.size, size;
      capacity, r.capacity := r.capacity, capacity;
    }
  }
}
