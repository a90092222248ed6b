/** prevector: a byte vector that keeps up to N bytes in itself and says so in its size field. */
module Prevector {
  import opened Bytes

  /** Sizes are 32-bit; beyond this the size field would wrap. */
  const SIZE_LIMIT := 0x1_0000_0000

  class Prevector {
    const N: nat
    var direct: array<byte>
    var sizeField: nat
    var indirect: array?<byte>

    ghost function Repr(): set<object>
      reads this
    {
      var own: set<object> := {this, direct};
      if indirect == null then own else own + {indirect as object}
    }

    /** The size field is at most N exactly when the bytes are kept directly; elsewhere it is off by N + 1,
        and the allocated storage is larger than N. */
    ghost predicate Valid()
      reads Repr()
    {
      && direct.Length == N < SIZE_LIMIT && sizeField < SIZE_LIMIT && indirect != direct
      && (sizeField <= N <==> indirect == null)
      && (indirect != null ==> indirect.Length > N && sizeField - N - 1 <= indirect.Length)
    }

    predicate IsDirect()
      reads this
    { sizeField <= N }

    function Size(): nat
      requires Valid()
      reads Repr()
    { if IsDirect() then sizeField else sizeField - N - 1 }

    function Capacity(): nat
      requires Valid()
      reads Repr()
    { if IsDirect() then N else indirect.Length }

    /** Where the elements are. */
    function Items(): (a: array<byte>)
      requires Valid()
      reads Repr()
      ensures a in Repr() && a.Length == Capacity() && Size() <= a.Length
    { if IsDirect() then direct else indirect }

    ghost function Contents(): Bytes
      requires Valid()
      reads Repr()
    { Items()[..Size()] }

    constructor (n: nat)
      requires n < SIZE_LIMIT
      ensures Valid() && fresh(Repr()) && N == n && Contents() == []
    {
      N, sizeField, indirect := n, 0, null;
      direct := new byte[n](_ => 0);
    }

    /** change_capacity: move the elements to storage of the wanted capacity, direct if N will do. */
    method ChangeCapacity(capacity: nat)
      requires Valid() && Size() <= capacity && Size() + N + 1 < SIZE_LIMIT
      modifies Repr()
      ensures Valid() && fresh(Repr() - old(Repr()))
      ensures Contents() == old(Contents())
      ensures capacity <= N ==> Capacity() == N
      ensures capacity > N ==> Capacity() == capacity
    {
      var size := Size();
      if capacity <= N {
        if !IsDirect() {
          forall i | 0 <= i < size { direct[i] := indirect[i]; }
          indirect := null;
          sizeField := sizeField - (N + 1);
        }
      } else {
        var items := Items();
        var fresh' := new byte[capacity](i requires 0 <= i < capacity reads items => if i < items.Length then items[i]
            else 0);
        if IsDirect() { sizeField := sizeField + N + 1; }
        indirect := fresh';
      }
    }

    /** A new size fits the size field, and the storage for it, if it has to grow, the capacity field. */
    ghost predicate Fits(size: nat)
      requires Valid()
      reads Repr()
    {
      (!IsDirect() || Capacity() < size ==> size + N + 1 < SIZE_LIMIT)
          && (Capacity() < size ==> size + size / 2 < SIZE_LIMIT)
    }

    /** Make room for a new size, with half as much again to spare. */
    method Grow(size: nat)
      requires Valid() && Size() <= size && Fits(size)
      modifies Repr()
      ensures Valid() && fresh(Repr() - old(Repr()))
      ensures Contents() == old(Contents()) && size <= Capacity() && (!IsDirect() ==> size + N + 1 < SIZE_LIMIT)
    {
      if Capacity() < size { ChangeCapacity(size + size / 2); }
    }

    method Insert(p: nat, values: Bytes)
      requires Valid() && p <= Size() && Fits(Size() + |values|)
      modifies Repr()
      ensures Valid() && fresh(Repr() - old(Repr()))
      ensures Contents() == old(Contents()[..p]) + values + old(Contents()[p..])
    {
      var n, count := Size(), |values|;
      Grow(n + count);
      var a := Items();
      ghost var was := a[..n];
      InsertAt(a, n, p, values);
      sizeField := sizeField + count;
      assert was[..p] == old(Contents()[..p]) && was[p..] == old(Contents()[p..]);
    }

    method Erase(first: nat, last: nat)
      requires Valid() && first <= last <= Size()
      modifies Repr()
      ensures Valid() && Repr() == old(Repr()) && Capacity() == old(Capacity())
      ensures Contents() == old(Contents()[..first]) + old(Contents()[last..])
    {
      var n := Size();
      var a := Items();
      ghost var was := a[..n];
      sizeField := sizeField - (last - first);
      forall i | last <= i < n { a[i - (last - first)] := a[i]; }
      assert a[..n - (last - first)] == was[..first] + was[last..];
    }

    method PushBack(value: byte)
      requires Valid() && Fits(Size() + 1)
      modifies Repr()
      ensures Valid() && fresh(Repr() - old(Repr()))
      ensures Contents() == old(Contents()) + [value]
    {
      var n := Size();
      Grow(n + 1);
      var a := Items();
      ghost var was := a[..n];
      a[n] := value;
      sizeField := sizeField + 1;
      assert a[..n + 1] == was + [value];
    }

    method Resize(size: nat)
      requires Valid() && size + N + 1 < SIZE_LIMIT
      modifies Repr()
      ensures Valid() && fresh(Repr() - old(Repr()))
      ensures Contents() == if size <= |old(Contents())| then old(Contents())[..size]
                            else old(Contents()) + seq(size - |old(Contents())|, _ => 0)
    {
      var n := Size();
      if size == n {
      } else if size < n {
        Erase(size, n);
      } else {
        if size > Capacity() { ChangeCapacity(size); }
        var a := Items();
        Fill(a, n, size);
        sizeField := sizeField + (size - n);
      }
    }

    /** swap: the storage and the size field change places, of an object with itself too. */
    method Swap(other: Prevector)
      requires Valid() && other.Valid() && N == other.N
      modifies this, other
      ensures Valid() && other.Valid()
      ensures Contents() == old(other.Contents()) && other.Contents() == old(Contents())
      ensures Capacity() == old(other.Capacity()) && other.Capacity() == old(Capacity())
    {
      direct, other.direct := other.direct, direct;
      indirect, other.indirect := other.indirect, indirect;
      sizeField, other.sizeField := other.sizeField, sizeField;
    }

    method ShrinkToFit()
      requires Valid() && Size() + N + 1 < SIZE_LIMIT
      modifies Repr()
      ensures Valid() && fresh(Repr() - old(Repr()))
      ensures Contents() == old(Contents()) && (IsDirect() <==> |Contents()| <= N)
    {
      ChangeCapacity(Size());
    }

    method Assign(values: Bytes)
      requires Valid() && |values| + N + 1 < SIZE_LIMIT
      modifies Repr()
      ensures Valid() && fresh(Repr() - old(Repr()))
      ensures Contents() == values
    {
      Resize(0);
      if Capacity() < |values| { ChangeCapacity(|values|); }
      sizeField := sizeField + |values|;
      var a := Items();
      forall i | 0 <= i < |values| { a[i] := values[i]; }
      assert a[..|values|] == values;
    }
  }

  /** Zeros from n up to size. */
  method Fill(a: array<byte>, n: nat, size: nat)
    requires n <= size <= a.Length
    modifies a
    ensures a[..size] == old(a[..n]) + seq(size - n, _ => 0)
  {
    ghost var was := a[..n];
    forall i | n <= i < size { a[i] := 0; }
    Filled(was, size, a[..size]);
  }

  /** Move the tail up and copy the new bytes into the gap. */
  method InsertAt(a: array<byte>, n: nat, p: nat, values: Bytes)
    requires p <= n && n + |values| <= a.Length
    modifies a
    ensures a[..n + |values|] == old(a[..n][..p]) + values + old(a[..n][p..])
  {
    ghost var was := a[..n];
    var count := |values|;
    forall i | p <= i < n { a[i + count] := a[i]; }
    forall i | 0 <= i < count { a[p + i] := values[i]; }
    Inserted(was, values, p, a[..n + count]);
  }

  lemma Inserted(was: Bytes, values: Bytes, p: nat, now: Bytes)
    requires p <= |was| && |now| == |was| + |values|
    requires forall i :: 0 <= i < p ==> now[i] == was[i]
    requires forall i :: 0 <= i < |values| ==> now[p + i] == values[i]
    requires forall i :: p <= i < |was| ==> now[i + |values|] == was[i]
    ensures now == was[..p] + values + was[p..]
  {
    assert now[..p] == was[..p] && now[p..p + |values|] == values;
    forall i | 0 <= i < |was| - p ensures now[p + |values| + i] == was[p..][i] {
      assert now[(p + i) + |values|] == was[p + i];
    }
    assert now[p + |values|..] == was[p..];
    assert now == now[..p] + now[p..p + |values|] + now[p + |values|..];
  }

  lemma Filled(was: Bytes, size: nat, now: Bytes)
    requires |was| <= size == |now| && now[..|was|] == was
    requires forall i :: |was| <= i < size ==> now[i] == 0
    ensures now == was + seq(size - |was|, _ => 0)
  {}
}
