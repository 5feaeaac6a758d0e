/** Bytes, and copying them into arrays. */
module Bytes {

  newtype byte = x: int | 0 <= x < 256

  /** `std::copy` towards the front of an array; source and destination may overlap. */
  method MoveDown(a: array<byte>, from: nat, len: nat)
    requires from + len <= a.Length
    modifies a
    ensures a[..len] == old(a[from..from + len])
  {
    for i := 0 to len
      invariant forall k :: 0 <= k < i ==> a[k] == old(a[from + k])
      invariant forall k :: from + i <= k < from + len ==> a[k] == old(a[k])
    {
      a[i] := a[from + i];
    }
  }

  /** `s` with `data` written over it at `at`. */
  function Overwritten(s: seq<byte>, at: nat, data: seq<byte>): (r: seq<byte>)
    requires at + |data| <= |s|
    ensures |r| == |s|
  {
    s[..at] + data + s[at + |data|..]
  }

  /** `std::copy` from elsewhere. */
  method CopyIn(a: array<byte>, at: nat, data: seq<byte>)
    requires at + |data| <= a.Length
    modifies a
    ensures a[..] == Overwritten(old(a[..]), at, data)
  {
    for i := 0 to |data|
      invariant forall k :: 0 <= k < i ==> a[at + k] == data[k]
      invariant forall k :: 0 <= k < a.Length && !(at <= k < at + i) ==> a[k] == old(a[k])
    {
      a[at + i] := data[i];
    }
  }

  // ---- strncpy ----

  function Zeros(n: nat): seq<byte> { seq(n, _ => 0) }

  /** What `strncpy` of the whole length leaves: everything from the first NUL on is zero. */
  function Truncated(data: seq<byte>): (r: seq<byte>)
    ensures |r| == |data|
  {
    if data == [] then [] else if data[0] == 0 then Zeros(|data|) else [data[0]] + Truncated(data[1..])
  }

  /** Nothing but NULs follows a NUL. */
  ghost predicate NulsLast(data: seq<byte>) {
    forall i, j :: 0 <= i < j < |data| && data[i] == 0 ==> data[j] == 0
  }

  /** `strncpy` keeps data just when nothing but NULs follows a NUL. */
  lemma {:induction false} TruncatedExact(data: seq<byte>)
    ensures Truncated(data) == data <==> NulsLast(data)
  {
    if data != [] {
      var rest := data[1..];
      TruncatedExact(rest);
      assert data == [data[0]] + rest;
      if data[0] != 0 {
        assert forall i, j :: 0 <= i < j < |data| && data[i] == 0 ==>
          i > 0 && data[i] == rest[i - 1] && data[j] == rest[j - 1];
        assert forall i :: 0 <= i < |rest| ==> rest[i] == data[i + 1];
      }
    }
  }

  method StrNCpy(a: array<byte>, at: nat, data: seq<byte>)
    requires at + |data| <= a.Length
    modifies a
    ensures a[..] == Overwritten(old(a[..]), at, Truncated(data))
  {
    CopyIn(a, at, Truncated(data));
  }
}
