/** Lists of lines captured one after another, and the lines that each has beyond the one before. */
module Screens {

  function Last<T>(screens: seq<seq<T>>): seq<T> {
    if screens == [] then [] else screens[|screens| - 1]
  }

  // How many lines the screen before the k-th had.
  function Counted<T>(screens: seq<seq<T>>, k: nat): nat
    requires k <= |screens|
  {
    if k == 0 then 0 else |screens[k - 1]|
  }

  // The lines the k-th screen has beyond those of the one before.
  function Appeared<T>(screens: seq<seq<T>>, k: nat): seq<T>
    requires k < |screens|
  {
    if Counted(screens, k) < |screens[k]| then screens[k][Counted(screens, k)..] else []
  }

  function AllAppeared<T>(screens: seq<seq<T>>, n: nat): seq<T>
    requires n <= |screens|
  {
    if n == 0 then [] else AllAppeared(screens, n - 1) + Appeared(screens, n - 1)
  }

  predicate NotShorter<T>(screens: seq<seq<T>>, k: nat)
    requires k < |screens|
  {
    Counted(screens, k) <= |screens[k]|
  }

  // No screen has fewer lines than the one before.
  predicate NeverShrinks<T>(screens: seq<seq<T>>, n: nat)
    requires n <= |screens|
  {
    forall k: nat | k < n :: NotShorter(screens, k)
  }

  predicate AppearsAt<T>(screens: seq<seq<T>>, k: nat, i: nat) {
    k < |screens| && Counted(screens, k) <= i < |screens[k]|
  }

  // Each line still reads, on the last screen, as it did when it first appeared.
  predicate LinesStay<T(==)>(screens: seq<seq<T>>) {
    forall k: nat, i: nat | k < |screens| && i < |screens[k]| && AppearsAt(screens, k, i) ::
      i < |Last(screens)| && Last(screens)[i] == screens[k][i]
  }

  lemma OneMoreScreen<T>(screens: seq<seq<T>>, k: nat)
    requires k < |screens|
    ensures NeverShrinks(screens, k + 1) <==> NeverShrinks(screens, k) && NotShorter(screens, k)
    ensures |AllAppeared(screens, k + 1)| == |AllAppeared(screens, k)| + |Appeared(screens, k)|
    ensures Counted(screens, k + 1) == |screens[k]|
    ensures |Appeared(screens, k)| >= |screens[k]| - Counted(screens, k)
    ensures |Appeared(screens, k)| == |screens[k]| - Counted(screens, k) <==> NotShorter(screens, k)
  {
  }

  lemma {:induction false} AppearedAtLeast<T>(screens: seq<seq<T>>, n: nat)
    requires n <= |screens|
    ensures |AllAppeared(screens, n)| >= Counted(screens, n)
  {
    if n > 0 {
      var m := n - 1;
      AppearedAtLeast(screens, m);
      OneMoreScreen(screens, m);
      assert n == m + 1;
      assert |AllAppeared(screens, n)| == |AllAppeared(screens, m)| + |Appeared(screens, m)|;
      assert Counted(screens, n) == |screens[m]|;
    }
  }

  lemma {:induction false} AppearedLength<T>(screens: seq<seq<T>>, n: nat)
    requires n <= |screens|
    ensures |AllAppeared(screens, n)| == Counted(screens, n) <==> NeverShrinks(screens, n)
  {
    AppearedAtLeast(screens, n);
    if n > 0 {
      var m := n - 1;
      AppearedAtLeast(screens, m);
      AppearedLength(screens, m);
      OneMoreScreen(screens, m);
      assert n == m + 1;
    }
  }

  lemma OneMoreLine<T>(screens: seq<seq<T>>, m: nat, i: nat)
    requires m < |screens| && NeverShrinks(screens, m + 1)
    ensures i < |AllAppeared(screens, m)| ==>
              i < |AllAppeared(screens, m + 1)| && AllAppeared(screens, m + 1)[i] == AllAppeared(screens, m)[i]
    ensures |AllAppeared(screens, m)| == Counted(screens, m) && |AllAppeared(screens, m + 1)| == |screens[m]|
    ensures Counted(screens, m) <= i < |screens[m]| ==> AllAppeared(screens, m + 1)[i] == screens[m][i]
  {
    AppearedLength(screens, m);
    OneMoreScreen(screens, m);
    assert AllAppeared(screens, m + 1) == AllAppeared(screens, m) + Appeared(screens, m);
  }

  // Each line that appeared is the line, at the same index, of some screen ...
  lemma {:induction false} AppearedFrom<T>(screens: seq<seq<T>>, n: nat, i: nat) returns (k: nat)
    requires n <= |screens| && NeverShrinks(screens, n) && i < |AllAppeared(screens, n)|
    ensures k < n && AppearsAt(screens, k, i)
    ensures AllAppeared(screens, n)[i] == screens[k][i]
  {
    var m := n - 1;
    assert n == m + 1;
    OneMoreScreen(screens, m);
    OneMoreLine(screens, m, i);
    if i < |AllAppeared(screens, m)| {
      k := AppearedFrom(screens, m, i);
    } else {
      k := m;
    }
  }

  lemma {:induction false} LengthsGrow<T>(screens: seq<seq<T>>, k: nat, n: nat)
    requires k < n <= |screens| && NeverShrinks(screens, n)
    ensures |screens[k]| <= Counted(screens, n)
    decreases n
  {
    var m := n - 1;
    if k < m {
      LengthsGrow(screens, k, m);
      assert NotShorter(screens, m);
    }
  }

  // ... and each new line of a screen is among them.
  lemma AppearedAt<T>(screens: seq<seq<T>>, n: nat, k: nat, i: nat)
    requires k < n <= |screens| && NeverShrinks(screens, n) && AppearsAt(screens, k, i)
    ensures i < |AllAppeared(screens, n)| && AllAppeared(screens, n)[i] == screens[k][i]
  {
    AppearedLength(screens, n);
    LengthsGrow(screens, k, n);
    var j := AppearedFrom(screens, n, i);
    if j < k {
      LengthsGrow(screens, j, k);
    } else if k < j {
      LengthsGrow(screens, k, j);
    }
  }

  lemma AppearedIsLast<T>(screens: seq<seq<T>>)
    ensures AllAppeared(screens, |screens|) == Last(screens)
            <==> NeverShrinks(screens, |screens|) && LinesStay(screens)
  {
    var n := |screens|;
    var all := AllAppeared(screens, n);
    AppearedLength(screens, n);
    if NeverShrinks(screens, n) {
      forall k: nat, i: nat | k < n && AppearsAt(screens, k, i) ensures i < |all| && all[i] == screens[k][i] {
        AppearedAt(screens, n, k, i);
      }
      if LinesStay(screens) {
        forall i: nat | i < |all| ensures all[i] == Last(screens)[i] {
          var k := AppearedFrom(screens, n, i);
        }
      }
    }
  }

  // The lines that appeared on the screens picked out.
  function PickedAppeared<T>(screens: seq<seq<T>>, picked: seq<bool>, n: nat): seq<T>
    requires n <= |screens| == |picked|
  {
    if n == 0 then []
    else PickedAppeared(screens, picked, n - 1) + if picked[n - 1] then Appeared(screens, n - 1) else []
  }

  // The lines that appeared on the k-th screen are not picked.
  predicate MissesAt<T>(screens: seq<seq<T>>, picked: seq<bool>, k: nat)
    requires k < |screens| == |picked|
  {
    !picked[k] && |Appeared(screens, k)| > 0
  }

  predicate MissesNothing<T>(screens: seq<seq<T>>, picked: seq<bool>, n: nat)
    requires n <= |screens| == |picked|
  {
    forall k: nat | k < n :: !MissesAt(screens, picked, k)
  }

  lemma OneMorePick<T>(screens: seq<seq<T>>, picked: seq<bool>, k: nat)
    requires k < |screens| == |picked|
    ensures MissesNothing(screens, picked, k + 1) <==> MissesNothing(screens, picked, k) && !MissesAt(screens, picked, k)
    ensures AllAppeared(screens, k + 1) == AllAppeared(screens, k) + Appeared(screens, k)
    ensures PickedAppeared(screens, picked, k + 1) ==
            PickedAppeared(screens, picked, k) + (if picked[k] then Appeared(screens, k) else [])
  {
  }

  lemma {:induction false} PickedAtMost<T>(screens: seq<seq<T>>, picked: seq<bool>, n: nat)
    requires n <= |screens| == |picked|
    ensures |PickedAppeared(screens, picked, n)| <= |AllAppeared(screens, n)|
    ensures |PickedAppeared(screens, picked, n)| == |AllAppeared(screens, n)| ==> MissesNothing(screens, picked, n)
  {
    if n > 0 {
      var m := n - 1;
      assert n == m + 1;
      PickedAtMost(screens, picked, m);
      OneMorePick(screens, picked, m);
    }
  }

  lemma {:induction false} NothingMissedIsAll<T>(screens: seq<seq<T>>, picked: seq<bool>, n: nat)
    requires n <= |screens| == |picked| && MissesNothing(screens, picked, n)
    ensures PickedAppeared(screens, picked, n) == AllAppeared(screens, n)
  {
    if n > 0 {
      var m := n - 1;
      assert n == m + 1;
      OneMorePick(screens, picked, m);
      NothingMissedIsAll(screens, picked, m);
      assert !picked[m] ==> Appeared(screens, m) == [];
    }
  }

  lemma PickedIsLast<T>(screens: seq<seq<T>>, picked: seq<bool>)
    requires |screens| == |picked| && NeverShrinks(screens, |screens|)
    ensures PickedAppeared(screens, picked, |screens|) == Last(screens)
            <==> MissesNothing(screens, picked, |screens|) && LinesStay(screens)
  {
    var n := |screens|;
    AppearedLength(screens, n);
    assert |AllAppeared(screens, n)| == |Last(screens)|;
    AppearedIsLast(screens);
    PickedAtMost(screens, picked, n);
    if MissesNothing(screens, picked, n) { NothingMissedIsAll(screens, picked, n); }
  }

  // Screens that extend one another lose nothing.
  lemma GrowingScreensStay<T>(screens: seq<seq<T>>)
    requires forall j: nat, k: nat | j <= k < |screens| :: screens[j] <= screens[k]
    ensures NeverShrinks(screens, |screens|) && LinesStay(screens)
  {
    forall k: nat | k < |screens| ensures NotShorter(screens, k) {
      if k > 0 {
        assert screens[k - 1] <= screens[k];
      }
    }
    forall k: nat, i: nat | k < |screens| && i < |screens[k]| && AppearsAt(screens, k, i)
      ensures i < |Last(screens)| && Last(screens)[i] == screens[k][i]
    {
      assert screens[k] <= screens[|screens| - 1];
    }
  }
}
