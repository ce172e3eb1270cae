/**
 * Error lists built by a run of independent checks, each pushing its error
 * when it fails: the shape shared by the request validators.
 */
module ErrorLists {
  /** What one check contributes. */
  function When<E>(failed: bool, e: E): seq<E> {
    if failed then [e] else []
  }

  /** The errors of the failing checks, in the order the checks run. */
  function Failures<E(!new)>(checks: seq<(bool, E)>): (r: seq<E>)
    ensures |r| <= |checks|
    ensures forall e :: e in r <==> exists i :: 0 <= i < |checks| && checks[i].0 && checks[i].1 == e
    ensures r == [] <==> forall i :: 0 <= i < |checks| ==> !checks[i].0
  {
    if checks == [] then []
    else
      var last := |checks| - 1;
      var rest := Failures(checks[..last]);
      assert forall i :: 0 <= i < last ==> checks[i] == checks[..last][i];
      rest + When(checks[last].0, checks[last].1)
  }

  /** The checks before the last one, then the last one's contribution. */
  lemma Unfold<E(!new)>(c: seq<(bool, E)>)
    requires c != []
    ensures Failures(c) == Failures(c[..|c| - 1]) + When(c[|c| - 1].0, c[|c| - 1].1)
  {
  }

  /** Strictly increasing by `rank`. */
  predicate Ascending<E>(s: seq<E>, rank: E -> nat) {
    forall i, j :: 0 <= i < j < |s| ==> rank(s[i]) < rank(s[j])
  }

  /** Each check's error ranks above the error of the check before it. */
  predicate RankedInOrder<E>(checks: seq<(bool, E)>, rank: E -> nat) {
    forall i :: 0 < i < |checks| ==> rank(checks[i - 1].1) < rank(checks[i].1)
  }

  /** Ranks that rise from each check to the next rise from any check to any later one. */
  lemma {:induction false} RanksRise<E>(checks: seq<(bool, E)>, rank: E -> nat, i: nat, j: nat)
    requires RankedInOrder(checks, rank) && i < j < |checks|
    ensures rank(checks[i].1) < rank(checks[j].1)
    decreases j - i
  {
    if i + 1 < j {
      RanksRise(checks, rank, i, j - 1);
    }
  }

  /** A run of checks ranked in order reports its errors in increasing order. */
  lemma {:induction false} FailuresSorted<E(!new)>(checks: seq<(bool, E)>, rank: E -> nat)
    requires RankedInOrder(checks, rank)
    ensures Ascending(Failures(checks), rank)
  {
    if checks != [] {
      var last := |checks| - 1;
      var front := checks[..last];
      assert forall i :: 0 <= i < last ==> front[i] == checks[i];
      FailuresSorted(front, rank);
      var rest := Failures(front);
      forall e | e in rest
        ensures rank(e) < rank(checks[last].1)
      {
        var k :| 0 <= k < |front| && front[k].0 && front[k].1 == e;
        assert front[k] == checks[k];
        RanksRise(checks, rank, k, last);
      }
      Unfold(checks);
      if checks[last].0 {
        AscendingAppend(rest, checks[last].1, rank);
      }
    }
  }

  /** An element ranked above all of an ascending sequence extends it. */
  lemma AscendingAppend<E>(s: seq<E>, x: E, rank: E -> nat)
    requires Ascending(s, rank)
    requires forall e :: e in s ==> rank(e) < rank(x)
    ensures Ascending(s + [x], rank)
  {
    var r := s + [x];
    forall i, j | 0 <= i < j < |r|
      ensures rank(r[i]) < rank(r[j])
    {
      assert r[i] == s[i] && s[i] in s;
      if j < |s| {
        assert r[j] == s[j];
      }
    }
  }

  /** When the checks report distinct errors, an error is listed exactly when its check fails. */
  lemma FailedExactly<E(!new)>(checks: seq<(bool, E)>, rank: E -> nat)
    requires RankedInOrder(checks, rank)
    ensures forall k :: 0 <= k < |checks| ==> (checks[k].1 in Failures(checks) <==> checks[k].0)
  {
    forall k | 0 <= k < |checks|
      ensures checks[k].1 in Failures(checks) <==> checks[k].0
    {
      if checks[k].1 in Failures(checks) {
        var i :| 0 <= i < |checks| && checks[i].0 && checks[i].1 == checks[k].1;
        if i < k {
          RanksRise(checks, rank, i, k);
        } else if k < i {
          RanksRise(checks, rank, k, i);
        }
      }
    }
  }

  /** The error of check `k` is listed exactly when that check fails. */
  lemma Reported<E(!new)>(checks: seq<(bool, E)>, rank: E -> nat, k: nat, failed: bool, e: E)
    requires RankedInOrder(checks, rank) && k < |checks| && checks[k] == (failed, e)
    ensures e in Failures(checks) <==> failed
  {
    FailedExactly(checks, rank);
  }

  /** An error no check reports is never listed. */
  lemma NeverReported<E(!new)>(checks: seq<(bool, E)>, e: E)
    requires forall i :: 0 <= i < |checks| ==> checks[i].1 != e
    ensures e !in Failures(checks)
  {
  }

  /** Six checks, spelled out. */
  lemma Failures6<E(!new)>(c: seq<(bool, E)>)
    requires |c| == 6
    ensures Failures(c) == When(c[0].0, c[0].1) + When(c[1].0, c[1].1) + When(c[2].0, c[2].1) +
                           When(c[3].0, c[3].1) + When(c[4].0, c[4].1) + When(c[5].0, c[5].1)
  {
    var t := c[..5];
    Failures5(t);
    assert t[0] == c[0] && t[1] == c[1] && t[2] == c[2] && t[3] == c[3] && t[4] == c[4];
    Unfold(c);
  }

  /** Five checks, spelled out. */
  lemma Failures5<E(!new)>(c: seq<(bool, E)>)
    requires |c| == 5
    ensures Failures(c) == When(c[0].0, c[0].1) + When(c[1].0, c[1].1) + When(c[2].0, c[2].1) +
                           When(c[3].0, c[3].1) + When(c[4].0, c[4].1)
  {
    var t := c[..4];
    Failures4(t);
    assert t[0] == c[0] && t[1] == c[1] && t[2] == c[2] && t[3] == c[3];
    Unfold(c);
  }

  lemma Failures4<E(!new)>(c: seq<(bool, E)>)
    requires |c| == 4
    ensures Failures(c) == When(c[0].0, c[0].1) + When(c[1].0, c[1].1) + When(c[2].0, c[2].1) +
                           When(c[3].0, c[3].1)
  {
    var t := c[..3];
    Failures3(t);
    assert t[0] == c[0] && t[1] == c[1] && t[2] == c[2];
    Unfold(c);
  }

  lemma Failures3<E(!new)>(c: seq<(bool, E)>)
    requires |c| == 3
    ensures Failures(c) == When(c[0].0, c[0].1) + When(c[1].0, c[1].1) + When(c[2].0, c[2].1)
  {
    var t := c[..2];
    Failures2(t);
    assert t[0] == c[0] && t[1] == c[1];
    Unfold(c);
  }

  lemma Failures2<E(!new)>(c: seq<(bool, E)>)
    requires |c| == 2
    ensures Failures(c) == When(c[0].0, c[0].1) + When(c[1].0, c[1].1)
  {
    var t := c[..1];
    assert t[0] == c[0] && t[..0] == [];
    assert Failures(t) == [] + When(c[0].0, c[0].1);
    Unfold(c);
  }
}
