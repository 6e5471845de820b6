/** Notions that several models share. */
module Common {

  datatype Option<+T> = None | Some(value: T)

  function Min(a: int, b: int): int {
    if a < b then a else b
  }

  lemma Associative<T>(a: seq<T>, b: seq<T>, c: seq<T>)
    ensures a + b + c == a + (b + c)
  {
  }

  /** Slicing a slice is slicing the whole. */
  lemma Slice<T>(data: seq<T>, from: nat, end: nat, i: nat, j: nat)
    requires from <= end <= |data| && i <= j <= end - from
    ensures data[from..end][i..j] == data[from + i..from + j]
    ensures data[from..end][i..] == data[from + i..end]
    ensures data[from..end][j..] == data[from + j..end]
  {
    var a, b := data[from..end][i..j], data[from + i..from + j];
    assert |a| == |b| && forall k :: 0 <= k < |a| ==> a[k] == b[k];
  }
}
