/** The tensor core over a subtensor engine: a shape (extents), the strides the
    layout derives from it, and a flat backing container that the class owns. */
module Subtensors {
  import opened Errors

  // ---------------------------------------------------------------------------
  // Leaf utilities the class consumes

  /** product(extents): the number of elements of a non-empty shape. It is zero
      exactly when one of the sizes is zero. */
  function Product(e: seq<nat>): (n: nat)
    requires |e| > 0
    ensures n == 0 <==> exists r :: 0 <= r < |e| && e[r] == 0
    decreases |e|
  {
    if |e| == 1 then e[0]
    else
      var rest := Product(e[1..]);
      assert forall r :: 0 < r < |e| ==> e[r] == e[1..][r - 1];
      assert rest == 0 ==> exists r :: 0 < r < |e| && e[r] == 0;
      e[0] * rest
  }

  /** to_index(strides, i...): the stride-weighted sum of a multi-index. The all-zero
      multi-index lands on offset 0 whatever the layout. */
  function ToIndex(strides: seq<nat>, idx: seq<nat>): (n: nat)
    requires |strides| == |idx|
    ensures (forall r :: 0 <= r < |idx| ==> idx[r] == 0) ==> n == 0
    decreases |idx|
  {
    if idx == [] then 0
    else
      strides[0] * idx[0] + ToIndex(strides[1..], idx[1..])
  }

  /** The backing container's checked access, std::vector::at. */
  function Lookup<T>(c: seq<T>, k: nat): (r: Result<T>)
    ensures r.Ok? <==> k < |c|
    ensures r.Ok? ==> r.value == c[k]
    ensures r.Err? ==> r.error == OutOfRange
  {
    if k < |c| then Ok(c[k]) else Err(OutOfRange)
  }

  /** strides[r] is the offset delta of one step along dimension r. */
  lemma {:induction false} ToIndexUnitStep(strides: seq<nat>, idx: seq<nat>, r: nat)
    requires |strides| == |idx| && r < |idx|
    ensures ToIndex(strides, idx[r := idx[r] + 1]) == ToIndex(strides, idx) + strides[r]
  {
    var moved := idx[r := idx[r] + 1];
    if r == 0 {
      assert moved[1..] == idx[1..];
    } else {
      assert moved[1..] == idx[1..][r - 1 := idx[r] + 1];
      ToIndexUnitStep(strides[1..], idx[1..], r - 1);
    }
  }

  /** For a rank-3 multi-index the offset is strides[0]*i + strides[1]*j + strides[2]*k. */
  lemma ToIndexRank3(strides: seq<nat>, i: nat, j: nat, k: nat)
    requires |strides| == 3
    ensures ToIndex(strides, [i, j, k]) == strides[0] * i + strides[1] * j + strides[2] * k
  {
    var s1, s2 := strides[1..], strides[2..];
    assert [i, j, k][1..] == [j, k] && [j, k][1..] == [k] && [k][1..] == [];
    assert s1[1..] == s2 && s2[1..] == [];
    assert ToIndex(s2, [k]) == strides[2] * k;
    assert ToIndex(s1, [j, k]) == strides[1] * j + strides[2] * k;
  }

  /** A checked write followed by a checked read of the same position gives the value
      written; reads elsewhere see the old contents. */
  lemma LookupAfterUpdate<T>(c: seq<T>, k: nat, v: T, j: nat)
    requires k < |c|
    ensures Lookup(c[k := v], k) == Ok(v)
    ensures j != k ==> Lookup(c[k := v], j) == Lookup(c, j)
  {
  }

  // ---------------------------------------------------------------------------
  // The class

  /** The Einstein-notation descriptor: the tensor and the placeholder tags, in order. */
  datatype Contraction<T(0)> = Contraction(tensor: TensorCore<T>, tags: seq<nat>)

  class TensorCore<T(0)> {
    var extents: seq<nat>
    var strides: seq<nat>
    var container: array<T>

    /** Extents and strides have one entry per dimension, and the container holds
        product(extents) elements. */
    ghost predicate Valid()
      reads this
    {
      |extents| > 0 && |strides| == |extents| && container.Length == Product(extents)
    }

    /** tensor_core(is...): the layout's stride rule is the parameter toStrides, and
        init stands for the value-initialised element T{}. */
    constructor (shape: seq<nat>, toStrides: seq<nat> -> seq<nat>, init: T)
      requires |shape| > 0
      requires |toStrides(shape)| == |shape|
      ensures Valid() && fresh(container)
      ensures extents == shape && strides == toStrides(shape)
      ensures container.Length == Product(shape)
      ensures forall k :: 0 <= k < container.Length ==> container[k] == init
    {
      extents := shape;
      strides := toStrides(shape);
      container := new T[Product(shape)](_ => init);
    }

    /** The implicit copy constructor, used for the by-value argument of copy assignment. */
    constructor Copy(other: TensorCore<T>)
      requires other.Valid()
      ensures Valid() && fresh(container)
      ensures extents == other.extents && strides == other.strides
      ensures container[..] == other.container[..]
    {
      extents := other.extents;
      strides := other.strides;
      var src := other.container;
      container := new T[src.Length](i reads src requires 0 <= i < src.Length => src[i]);
    }

    // -------------------------------------------------------------------------
    // Shape queries

    /** size(): the element count, which is the product of the extents. */
    function Size(): (n: nat)
      reads this
      requires Valid()
      ensures n == Product(extents)
    {
      container.Length
    }

    /** size(r): extents.at(r), which throws out_of_range past the rank. */
    function SizeOf(r: nat): (res: Result<nat>)
      reads this
      requires Valid()
      ensures res.Ok? <==> r < Rank()
      ensures res.Ok? ==> res.value == extents[r]
      ensures res.Err? ==> res.error == OutOfRange
    {
      Lookup(extents, r)
    }

    /** rank(): the number of dimensions, shared by extents and strides. */
    function Rank(): (n: nat)
      reads this
      requires Valid()
      ensures n == |extents| && n == |strides| && n > 0
    {
      |extents|
    }

    /** order(): another name for rank(). */
    function Order(): (n: nat)
      reads this
      requires Valid()
      ensures n == |extents| && n == |strides|
    {
      Rank()
    }

    /** empty(): the container is empty, i.e. some dimension has size zero. */
    function Empty(): (b: bool)
      reads this
      requires Valid()
      ensures b <==> Size() == 0
      ensures b <==> exists r :: 0 <= r < |extents| && extents[r] == 0
    {
      container.Length == 0
    }

    // -------------------------------------------------------------------------
    // Reads

    /** at(i): checked linear access to the container, no stride resolution. */
    function AtLinear(i: nat): (r: Result<T>)
      reads this, container
      requires Valid()
      ensures r.Ok? <==> i < Size()
      ensures r.Ok? ==> r.value == container[i]
      ensures r.Err? ==> r.error == OutOfRange
    {
      Lookup(container[..], i)
    }

    /** at(i1, i2, is...): the index count must equal the order; the stride-weighted
        offset is then looked up with bounds checking. Individual indices are not
        compared with their extents. */
    function AtMulti(idx: seq<nat>): (r: Result<T>)
      reads this, container
      requires Valid()
      requires |idx| >= 2
      ensures r == Err(InvalidArgument) <==> |idx| != Order()
      ensures r == Err(OutOfRange) <==> |idx| == Order() && ToIndex(strides, idx) >= Size()
      ensures r.Ok? ==> |idx| == Order() && r.value == container[ToIndex(strides, idx)]
      ensures |idx| == Order() ==> r == AtLinear(ToIndex(strides, idx))
    {
      if |idx| != Order() then Err(InvalidArgument)
      else AtLinear(ToIndex(strides, idx))
    }

    /** operator()(is...): forwards to at(is...). One index picks the linear overload,
        which has no order check; two or more pick the multi-index overload. */
    function Call(idx: seq<nat>): (r: Result<T>)
      reads this, container
      requires Valid()
      requires |idx| >= 1
      ensures |idx| == 1 ==> r == AtLinear(idx[0])
      ensures |idx| == 1 ==> (r.Ok? <==> idx[0] < Size())
      ensures |idx| == 1 && r.Ok? ==> r.value == container[idx[0]]
      ensures |idx| >= 2 ==> r == AtMulti(idx)
    {
      if |idx| == 1 then AtLinear(idx[0]) else AtMulti(idx)
    }

    /** operator[](i): unchecked access; the caller guarantees i < size(). */
    function Get(i: nat): (v: T)
      reads this, container
      requires Valid()
      requires i < Size()
      ensures AtLinear(i) == Ok(v)
    {
      container[i]
    }

    /** operator()(p, ps...) with placeholders: the tag count must equal the order;
        then the tensor itself is paired with the tags in the order given. */
    function Einstein(tags: seq<nat>): (r: Result<Contraction<T>>)
      reads this
      requires Valid()
      requires |tags| >= 1
      ensures r.Err? <==> |tags| != Order()
      ensures r.Err? ==> r.error == InvalidArgument
      ensures r.Ok? ==> r.value.tensor == this && r.value.tags == tags
    {
      if |tags| != Order() then Err(InvalidArgument) else Ok(Contraction(this, tags))
    }

    // -------------------------------------------------------------------------
    // Writes through the mutable references

    /** at(i) = v: a checked write of one container element. */
    method SetLinear(i: nat, v: T) returns (r: Outcome)
      requires Valid()
      modifies container
      ensures Valid()
      ensures r.Fail? <==> old(AtLinear(i)).Err?
      ensures r.Fail? ==> r.error == OutOfRange && container[..] == old(container[..])
      ensures r.Pass? ==> container[..] == old(container[..])[i := v]
    {
      if i < container.Length {
        container[i] := v;
        r := Pass;
      } else {
        r := Fail(OutOfRange);
      }
    }

    /** at(i1, i2, is...) = v: the order check, then a checked write at the offset. */
    method SetMulti(idx: seq<nat>, v: T) returns (r: Outcome)
      requires Valid()
      requires |idx| >= 2
      modifies container
      ensures Valid()
      ensures r.Fail? <==> old(AtMulti(idx)).Err?
      ensures r.Fail? ==> r.error == old(AtMulti(idx)).error && container[..] == old(container[..])
      ensures r.Pass? ==> container[..] == old(container[..])[ToIndex(strides, idx) := v]
    {
      if |idx| != |extents| {
        r := Fail(InvalidArgument);
      } else {
        r := SetLinear(ToIndex(strides, idx), v);
      }
    }

    /** operator()(is...) = v: the write overload of the call operator. */
    method SetCall(idx: seq<nat>, v: T) returns (r: Outcome)
      requires Valid()
      requires |idx| >= 1
      modifies container
      ensures Valid()
      ensures r.Fail? <==> old(Call(idx)).Err?
      ensures r.Fail? ==> r.error == old(Call(idx)).error && container[..] == old(container[..])
      ensures r.Pass? && |idx| == 1 ==> container[..] == old(container[..])[idx[0] := v]
      ensures r.Pass? && |idx| >= 2 ==> container[..] == old(container[..])[ToIndex(strides, idx) := v]
    {
      if |idx| == 1 {
        r := SetLinear(idx[0], v);
      } else {
        r := SetMulti(idx, v);
      }
    }

    /** operator[](i) = v: an unchecked write; the caller guarantees i < size(). */
    method Put(i: nat, v: T)
      requires Valid()
      requires i < Size()
      modifies container
      ensures Valid()
      ensures container[..] == old(container[..])[i := v]
    {
      container[i] := v;
    }

    // -------------------------------------------------------------------------
    // Whole-tensor assignment

    /** t = v: fill_n over the whole container; the shape is not touched. */
    method Fill(v: T)
      requires Valid()
      modifies container
      ensures Valid() && unchanged(this)
      ensures forall k :: 0 <= k < container.Length ==> container[k] == v
    {
      var k := 0;
      while k < container.Length
        invariant 0 <= k <= container.Length
        invariant forall j :: 0 <= j < k ==> container[j] == v
      {
        container[k] := v;
        k := k + 1;
      }
    }

    /** t = other: copy the argument (it is taken by value), then swap with the copy. */
    method Assign(other: TensorCore<T>)
      requires Valid() && other.Valid()
      modifies this
      ensures Valid() && fresh(container)
      ensures extents == old(other.extents) && strides == old(other.strides)
      ensures container[..] == old(other.container[..])
      ensures other.extents == old(other.extents) && other.strides == old(other.strides)
      ensures other.container[..] == old(other.container[..])
    {
      var tmp := new TensorCore.Copy(other);
      Swap(this, tmp);
    }
  }

  /** swap(lhs, rhs): exchanges extents, strides and the container handles. */
  method Swap<T(0)>(lhs: TensorCore<T>, rhs: TensorCore<T>)
    requires lhs.Valid() && rhs.Valid()
    modifies lhs, rhs
    ensures lhs.Valid() && rhs.Valid()
    ensures lhs.extents == old(rhs.extents) && rhs.extents == old(lhs.extents)
    ensures lhs.strides == old(rhs.strides) && rhs.strides == old(lhs.strides)
    ensures lhs.container == old(rhs.container) && rhs.container == old(lhs.container)
  {
    lhs.extents, rhs.extents := rhs.extents, lhs.extents;
    lhs.strides, rhs.strides := rhs.strides, lhs.strides;
    lhs.container, rhs.container := rhs.container, lhs.container;
  }

  /** Swapping two tensors twice gives both back their own state. */
  method SwapTwice<T(0)>(a: TensorCore<T>, b: TensorCore<T>)
    requires a.Valid() && b.Valid()
    modifies a, b
    ensures a.Valid() && b.Valid()
    ensures a.extents == old(a.extents) && a.strides == old(a.strides) && a.container == old(a.container)
    ensures b.extents == old(b.extents) && b.strides == old(b.strides) && b.container == old(b.container)
  {
    Swap(a, b);
    Swap(a, b);
  }

  // ---------------------------------------------------------------------------
  // Properties of the access paths

  /** A single index given to operator() reaches the linear at(i), so a tensor of
      order two or more is read without the order check. */
  lemma CallWithOneIndexIsLinear<T(0)>(t: TensorCore<T>, i: nat)
    requires t.Valid()
    ensures t.Call([i]) == t.AtLinear(i)
    ensures t.Order() >= 2 && i < t.Size() ==> t.Call([i]).Ok?
  {
  }

  /** Multi-index access of a rank-3 tensor reads the container at
      i*strides[0] + j*strides[1] + k*strides[2]. */
  lemma MultiIndexIsLinearAtOffset<T(0)>(t: TensorCore<T>, i: nat, j: nat, k: nat)
    requires t.Valid() && t.Order() == 3
    ensures t.AtMulti([i, j, k]) == t.AtLinear(t.strides[0] * i + t.strides[1] * j + t.strides[2] * k)
  {
    ToIndexRank3(t.strides, i, j, k);
  }

  /** Stepping one index along dimension r moves the element read by strides[r]. */
  lemma MultiIndexNeighbour<T(0)>(t: TensorCore<T>, idx: seq<nat>, r: nat)
    requires t.Valid() && |idx| >= 2 && |idx| == t.Order() && r < |idx|
    ensures t.AtMulti(idx[r := idx[r] + 1])
         == t.AtLinear(ToIndex(t.strides, idx) + t.strides[r])
  {
    var moved := idx[r := idx[r] + 1];
    ToIndexUnitStep(t.strides, idx, r);
    assert |moved| == t.Order();
    assert t.AtMulti(moved) == t.AtLinear(ToIndex(t.strides, moved));
  }

  /** Indices are not compared with their extents: with extents (2, 3) and
      column-major strides (1, 2), at(2, 0) lies past size(0) and still succeeds. */
  lemma IndicesAreNotCheckedPerDimension<T(0)>(t: TensorCore<T>)
    requires t.Valid() && t.extents == [2, 3] && t.strides == [1, 2]
    ensures t.Size() == 6 && t.SizeOf(0) == Ok(2)
    ensures t.AtMulti([2, 0]) == Ok(t.container[2])
  {
    assert [2, 3][1..] == [3];
    assert [2, 0][1..] == [0];
  }

  // ---------------------------------------------------------------------------
  // Scenarios

  /** A tensor of shape (3, 4, 2) has 24 elements, rank 3 and sizes 3, 4, 2; a fourth
      size does not exist. */
  method ShapeScenario(toStrides: seq<nat> -> seq<nat>) returns (size: nat, rank: nat, sizes: seq<Result<nat>>)
    requires |toStrides([3, 4, 2])| == 3
    ensures size == 24 && rank == 3
    ensures sizes == [Ok(3), Ok(4), Ok(2), Err(OutOfRange)]
  {
    var t := new TensorCore<int>([3, 4, 2], toStrides, 0);
    size := t.Size();
    rank := t.Rank();
    sizes := [t.SizeOf(0), t.SizeOf(1), t.SizeOf(2), t.SizeOf(3)];
  }

  /** Two indices on a tensor of shape (2, 3, 4) raise invalid-argument, as does a
      wrong number of Einstein tags. */
  method WrongArityScenario(toStrides: seq<nat> -> seq<nat>, i: nat, j: nat)
    returns (read: Result<int>, einstein: bool)
    requires |toStrides([2, 3, 4])| == 3
    ensures read == Err(InvalidArgument)
    ensures einstein
  {
    var t := new TensorCore<int>([2, 3, 4], toStrides, 0);
    read := t.AtMulti([i, j]);
    einstein := t.Einstein([0, 1]) == Err(InvalidArgument) && t.Einstein([0, 1, 2]).Ok?;
  }

  /** Assigning v to a tensor of shape (2, 2) makes all four elements v. */
  method FillScenario(toStrides: seq<nat> -> seq<nat>, v: int) returns (elements: seq<int>)
    requires |toStrides([2, 2])| == 2
    ensures elements == [v, v, v, v]
  {
    var t := new TensorCore<int>([2, 2], toStrides, 0);
    t.Fill(v);
    elements := [t.Get(0), t.Get(1), t.Get(2), t.Get(3)];
  }

  /** On any tensor, writing v through at(is...) and reading at(is...) back gives v;
      the write fails exactly when the read afterwards does. */
  method WriteThenRead<T(0)>(t: TensorCore<T>, idx: seq<nat>, v: T) returns (write: Outcome, read: Result<T>)
    requires t.Valid() && |idx| >= 2
    modifies t.container
    ensures write.Pass? ==> read == Ok(v)
    ensures write.Fail? <==> read.Err?
  {
    write := t.SetMulti(idx, v);
    read := t.AtMulti(idx);
  }
}
