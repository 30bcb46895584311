// List helpers shared by the services: the issue lists the checkers build
// (one message per check that holds, in check order) and the key order of a
// LinkedHashMap (first insertion wins).

module Lists {
  /** The messages of the checks that hold, in the order the checks are made. */
  function Selected(checks: seq<(bool, string)>): (r: seq<string>)
    ensures |r| <= |checks|
  {
    if checks == [] then [] else (if checks[0].0 then [checks[0].1] else []) + Selected(checks[1..])
  }

  lemma SelectedCons(b: bool, m: string, rest: seq<(bool, string)>)
    ensures Selected([(b, m)] + rest) == (if b then [m] else []) + Selected(rest)
  {
    assert ([(b, m)] + rest)[1..] == rest;
  }

  lemma SelectedFour(b0: bool, b1: bool, b2: bool, b3: bool, m0: string, m1: string, m2: string, m3: string)
    ensures Selected([(b0, m0), (b1, m1), (b2, m2), (b3, m3)]) ==
            (if b0 then [m0] else []) + (if b1 then [m1] else []) + (if b2 then [m2] else []) + (if b3 then [m3] else [])
  {
    var c3 := [(b3, m3)] + [];
    SelectedCons(b3, m3, []);
    var c2 := [(b2, m2)] + c3;
    SelectedCons(b2, m2, c3);
    var c1 := [(b1, m1)] + c2;
    SelectedCons(b1, m1, c2);
    SelectedCons(b0, m0, c1);
    assert [(b0, m0)] + c1 == [(b0, m0), (b1, m1), (b2, m2), (b3, m3)];
  }

  predicate DistinctMessages(checks: seq<(bool, string)>)
  {
    forall i, j :: 0 <= i < j < |checks| ==> checks[i].1 != checks[j].1
  }

  /** With distinct messages, a message is reported exactly when its condition holds. */
  lemma {:induction false} SelectedIff(checks: seq<(bool, string)>, k: nat)
    requires k < |checks| && DistinctMessages(checks)
    ensures checks[k].1 in Selected(checks) <==> checks[k].0
    decreases |checks|
  {
    var rest := checks[1..];
    assert DistinctMessages(rest) by {
      forall i, j | 0 <= i < j < |rest| ensures rest[i].1 != rest[j].1 {
        assert rest[i] == checks[i + 1] && rest[j] == checks[j + 1];
      }
    }
    if k == 0 {
      NotSelected(checks[0].1, rest);
    } else {
      SelectedIff(rest, k - 1);
      assert rest[k - 1] == checks[k];
    }
  }

  /** A message no later check carries is not reported by them. */
  lemma {:induction false} NotSelected(m: string, checks: seq<(bool, string)>)
    requires forall i :: 0 <= i < |checks| ==> checks[i].1 != m
    ensures m !in Selected(checks)
    decreases |checks|
  {
    if checks != [] {
      NotSelected(m, checks[1..]);
    }
  }

  /** The distinct keys in the order of their first occurrence (what a LinkedHashMap's key set keeps). */
  function FirstSeen<K(==)>(ks: seq<K>): (r: seq<K>)
    ensures |r| <= |ks|
  {
    if ks == [] then []
    else
      var prefix := FirstSeen(ks[..|ks| - 1]);
      if ks[|ks| - 1] in prefix then prefix else prefix + [ks[|ks| - 1]]
  }

  lemma FirstSeenSnoc<K>(ks: seq<K>, k: K)
    ensures FirstSeen(ks + [k]) == if k in FirstSeen(ks) then FirstSeen(ks) else FirstSeen(ks) + [k]
  {
    assert (ks + [k])[..|ks|] == ks;
  }

  /** FirstSeen keeps every key once, and no other. */
  lemma {:induction false} FirstSeenProperties<K>(ks: seq<K>)
    ensures forall x :: x in FirstSeen(ks) <==> x in ks
    ensures forall i, j :: 0 <= i < j < |FirstSeen(ks)| ==> FirstSeen(ks)[i] != FirstSeen(ks)[j]
    decreases |ks|
  {
    if ks != [] {
      var init := ks[..|ks| - 1];
      FirstSeenProperties(init);
      FirstSeenSnoc(init, ks[|ks| - 1]);
      assert ks == init + [ks[|ks| - 1]];
    }
  }
}
