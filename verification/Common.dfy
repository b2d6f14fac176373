/** What several of the models share. */
module Common {

  datatype Option<T> = None | Some(value: T)

  // ---- sums over the threads, cores or queues of a system of which one step changes one ----

  function Sum(parts: seq<nat>): nat {
    if parts == [] then 0 else Sum(parts[..|parts| - 1]) + parts[|parts| - 1]
  }

  lemma {:induction false} SumUpdate(parts: seq<nat>, i: nat, part: nat)
    requires i < |parts|
    ensures Sum(parts[i := part]) + parts[i] == Sum(parts) + part
    decreases |parts|
  {
    var n := |parts| - 1;
    var parts' := parts[i := part];
    if i == n {
      assert parts'[..n] == parts[..n];
    } else {
      assert parts'[..n] == parts[..n][i := part];
      SumUpdate(parts[..n], i, part);
    }
  }

  lemma {:induction false} SumAtLeast(parts: seq<nat>, i: nat)
    requires i < |parts|
    ensures Sum(parts) >= parts[i]
    ensures forall j | 0 <= j < |parts| && j != i :: Sum(parts) >= parts[i] + parts[j]
    decreases |parts|
  {
    var n := |parts| - 1;
    forall j | 0 <= j < |parts| && j != i ensures Sum(parts) >= parts[i] + parts[j] {
      if i < n {
        SumAtLeast(parts[..n], i);
        assert j < n ==> parts[..n][j] == parts[j];
      } else {
        SumAtLeast(parts[..n], j);
      }
    }
    if i < n {
      SumAtLeast(parts[..n], i);
    }
  }

  lemma {:induction false} AllZero(parts: seq<nat>)
    requires forall i | 0 <= i < |parts| :: parts[i] == 0
    ensures Sum(parts) == 0
    decreases |parts|
  {
    if parts != [] {
      AllZero(parts[..|parts| - 1]);
    }
  }

  // ---- counting ----

  /** Distinct numbers below n are at most n. */
  lemma {:induction false} FewDistinct(q: seq<int>, n: nat)
    requires forall i | 0 <= i < |q| :: 0 <= q[i] < n
    requires forall i, j | 0 <= i < j < |q| :: q[i] != q[j]
    ensures |q| <= n
    decreases n
  {
    if q == [] {
      return;
    }
    assert 0 <= q[0] < n;
    if i :| 0 <= i < |q| && q[i] == n - 1 {
      var r := q[..i] + q[i + 1..];
      forall j | 0 <= j < |r| ensures 0 <= r[j] < n - 1 {
        assert r[j] == q[if j < i then j else j + 1];
      }
      forall j, k | 0 <= j < k < |r| ensures r[j] != r[k] {
        assert r[j] == q[if j < i then j else j + 1] && r[k] == q[if k < i then k else k + 1];
      }
      FewDistinct(r, n - 1);
    } else {
      FewDistinct(q, n - 1);
    }
  }
}
