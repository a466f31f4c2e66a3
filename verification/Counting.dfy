/** Counting the positions of a sequence at which something holds. */
module Counting {

  function Trues(flags: seq<bool>): nat {
    if flags == [] then 0 else (if flags[0] then 1 else 0) + Trues(flags[1..])
  }

  lemma {:induction false} TruesUpdate(flags: seq<bool>, i: nat, b: bool)
    requires i < |flags|
    ensures Trues(flags[i := b]) == Trues(flags) - (if flags[i] then 1 else 0) + (if b then 1 else 0)
  {
    if i == 0 {
      assert flags[0 := b][1..] == flags[1..];
    } else {
      assert flags[i := b][1..] == flags[1..][i - 1 := b];
      TruesUpdate(flags[1..], i - 1, b);
    }
  }

  lemma {:induction false} TruesBound(flags: seq<bool>)
    ensures Trues(flags) <= |flags|
    ensures Trues(flags) == 0 <==> forall i :: 0 <= i < |flags| ==> !flags[i]
  {
    if flags != [] {
      TruesBound(flags[1..]);
      assert forall i :: 0 < i < |flags| ==> flags[i] == flags[1..][i - 1];
    }
  }

  /** Distinct positions that all hold are at most as many as there are. */
  lemma {:induction false} Pigeons(flags: seq<bool>, at: seq<nat>)
    requires forall k :: 0 <= k < |at| ==> at[k] < |flags| && flags[at[k]]
    requires forall k, l :: 0 <= k < l < |at| ==> at[k] != at[l]
    ensures |at| <= Trues(flags)
    decreases at
  {
    if at != [] {
      TruesUpdate(flags, at[0], false);
      Pigeons(flags[at[0] := false], at[1..]);
    }
  }

  /** Two conditions that exclude each other, and each imply a third. */
  lemma {:induction false} TruesApart(a: seq<bool>, b: seq<bool>, c: seq<bool>)
    requires |a| == |b| == |c|
    requires forall i: nat :: i < |a| ==> (a[i] ==> c[i] && !b[i]) && (b[i] ==> c[i])
    ensures Trues(a) + Trues(b) <= Trues(c)
  {
    if a != [] {
      forall i: nat | i < |a| - 1 ensures (a[1..][i] ==> c[1..][i] && !b[1..][i]) && (b[1..][i] ==> c[1..][i]) {
        assert a[1..][i] == a[i + 1] && b[1..][i] == b[i + 1] && c[1..][i] == c[i + 1];
      }
      TruesApart(a[1..], b[1..], c[1..]);
    }
  }
}
