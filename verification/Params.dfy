/** The kernel's parameters (param.h, fs.h) and small notions that several models share. */
module Params {

  const BSIZE: nat := 512
  const MAXOPBLOCKS: nat := 10
  const LOGSIZE: nat := 30

  /** One more than the largest unsigned int. */
  const UINT: nat := 0x1_0000_0000

  datatype Option<T> = None | Some(value: T)

  function Min(a: nat, b: nat): nat { if a < b then a else b }

  ghost predicate Distinct<T(!new)>(s: seq<T>) {
    forall i, j :: 0 <= i < j < |s| ==> s[i] != s[j]
  }

  function RemoveAt<T>(s: seq<T>, i: nat): (r: seq<T>)
    requires i < |s|
    ensures |r| == |s| - 1 && forall k :: 0 <= k < |r| ==> r[k] == if k < i then s[k] else s[k + 1]
  {
    s[..i] + s[i + 1..]
  }
}
