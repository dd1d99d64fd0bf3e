/** The contiguity check of tensor arguments, for any rank, and what it buys: positions of a
    contiguous tensor are numbered without gaps or clashes. */
module Contiguous {
  import opened IntMath

  function Product(shape: seq<int>): int {
    if |shape| == 0 then 1 else shape[0] * Product(shape[1..])
  }

  /** Element address of an index, in elements from the start. */
  function Address(index: seq<int>, stride: seq<int>): int
    requires |index| == |stride|
  {
    if |index| == 0 then 0 else index[0] * stride[0] + Address(index[1..], stride[1..])
  }

  predicate Positive(shape: seq<int>) { forall i :: 0 <= i < |shape| ==> shape[i] > 0 }

  predicate RowMajor(shape: seq<int>, stride: seq<int>) {
    |shape| == |stride| && forall i :: 0 <= i < |shape| ==> stride[i] == Product(shape[i + 1..])
  }

  predicate InRange(index: seq<int>, shape: seq<int>) {
    |index| == |shape| && forall i :: 0 <= i < |index| ==> 0 <= index[i] < shape[i]
  }

  /** `require_contiguous`, given the rank: positive dimensions, then strides from the last dimension
      forward. */
  method RequireContiguous(shape: seq<int>, stride: seq<int>) returns (ok: bool)
    requires |shape| == |stride|
    ensures ok <==> Positive(shape) && RowMajor(shape, stride)
  {
    for i := 0 to |shape|
      invariant forall j :: 0 <= j < i ==> shape[j] > 0
    {
      if shape[i] <= 0 {
        return false;
      }
    }
    var expectedStride := 1;
    var index := |shape| - 1;
    while index >= 0
      invariant -1 <= index < |shape|
      invariant expectedStride == Product(shape[index + 1..])
      invariant forall j :: index < j < |shape| ==> stride[j] == Product(shape[j + 1..])
    {
      if stride[index] != expectedStride {
        return false;
      }
      assert shape[index..][1..] == shape[index + 1..];
      expectedStride := expectedStride * shape[index];
      index := index - 1;
    }
    return true;
  }

  lemma RowMajorTail(shape: seq<int>, stride: seq<int>)
    requires RowMajor(shape, stride) && |shape| > 0
    ensures RowMajor(shape[1..], stride[1..]) && stride[0] == Product(shape[1..])
  {
    forall i | 0 <= i < |shape[1..]|
      ensures stride[1..][i] == Product(shape[1..][i + 1..])
    {
      assert shape[1..][i + 1..] == shape[i + 1 + 1..];
    }
  }

  lemma {:induction false} AddressInRange(index: seq<int>, shape: seq<int>, stride: seq<int>)
    requires Positive(shape) && RowMajor(shape, stride) && InRange(index, shape)
    ensures 0 <= Address(index, stride) < Product(shape)
  {
    if |shape| > 0 {
      RowMajorTail(shape, stride);
      AddressInRange(index[1..], shape[1..], stride[1..]);
      RowMajorBound(index[0], Address(index[1..], stride[1..]), shape[0], Product(shape[1..]));
    }
  }

  /** Different indices have different addresses. */
  lemma {:induction false} AddressUnique(a: seq<int>, b: seq<int>, shape: seq<int>, stride: seq<int>)
    requires Positive(shape) && RowMajor(shape, stride) && InRange(a, shape) && InRange(b, shape)
    requires Address(a, stride) == Address(b, stride)
    ensures a == b
  {
    if |shape| > 0 {
      RowMajorTail(shape, stride);
      AddressInRange(a[1..], shape[1..], stride[1..]);
      AddressInRange(b[1..], shape[1..], stride[1..]);
      RowMajorUnique(a[0], Address(a[1..], stride[1..]), b[0], Address(b[1..], stride[1..]), Product(shape[1..]));
      AddressUnique(a[1..], b[1..], shape[1..], stride[1..]);
      assert a == [a[0]] + a[1..] && b == [b[0]] + b[1..];
    }
  }

  /** Every address below the element count belongs to an index. */
  lemma {:induction false} AddressOnto(address: int, shape: seq<int>, stride: seq<int>) returns (index: seq<int>)
    requires Positive(shape) && RowMajor(shape, stride) && 0 <= address < Product(shape)
    ensures InRange(index, shape) && Address(index, stride) == address
  {
    if |shape| == 0 {
      index := [];
    } else {
      RowMajorTail(shape, stride);
      ProductPositive(shape[1..]);
      var width := Product(shape[1..]);
      var q, r := address / width, address % width;
      assert address == q * width + r;
      DivNonNegative(address, width);
      if q >= shape[0] { MulMonotone(shape[0], q, width); }
      var rest := AddressOnto(r, shape[1..], stride[1..]);
      index := [q] + rest;
      assert index[1..] == rest;
    }
  }

  lemma {:induction false} ProductPositive(shape: seq<int>)
    requires Positive(shape)
    ensures Product(shape) > 0
  {
    if |shape| > 0 {
      ProductPositive(shape[1..]);
      MulMonotone(1, shape[0], Product(shape[1..]));
    }
  }
}
