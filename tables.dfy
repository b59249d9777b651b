/** Order facts about the drivers' constant lookup tables. */
module Tables {

  /** Each entry exceeds the next one. */
  predicate StepsDown(s: seq<real>)
  {
    forall k :: 0 <= k < |s| - 1 ==> s[k] > s[k + 1]
  }

  /** Each entry is below the next one. */
  predicate StepsUp(s: seq<real>)
  {
    forall k :: 0 <= k < |s| - 1 ==> s[k] < s[k + 1]
  }

  predicate StrictlyDecreasing(s: seq<real>)
  {
    forall i, j :: 0 <= i < j < |s| ==> s[i] > s[j]
  }

  predicate StrictlyIncreasing(s: seq<real>)
  {
    forall i, j :: 0 <= i < j < |s| ==> s[i] < s[j]
  }

  lemma {:induction false} StepsDownIsStrict(s: seq<real>)
    requires StepsDown(s)
    ensures StrictlyDecreasing(s)
  {
    if |s| > 1 {
      var t := s[1..];
      assert StepsDown(t) by {
        forall k | 0 <= k < |t| - 1 ensures t[k] > t[k + 1] {
          assert t[k] == s[k + 1] && t[k + 1] == s[k + 2];
        }
      }
      StepsDownIsStrict(t);
      forall i, j | 0 <= i < j < |s| ensures s[i] > s[j] {
        if i > 0 {
          assert s[i] == t[i - 1] && s[j] == t[j - 1];
        } else if j > 1 {
          assert s[1] == t[0] && s[j] == t[j - 1];
        }
      }
    }
  }

  lemma {:induction false} StepsUpIsStrict(s: seq<real>)
    requires StepsUp(s)
    ensures StrictlyIncreasing(s)
  {
    if |s| > 1 {
      var t := s[1..];
      assert StepsUp(t) by {
        forall k | 0 <= k < |t| - 1 ensures t[k] < t[k + 1] {
          assert t[k] == s[k + 1] && t[k + 1] == s[k + 2];
        }
      }
      StepsUpIsStrict(t);
      forall i, j | 0 <= i < j < |s| ensures s[i] < s[j] {
        if i > 0 {
          assert s[i] == t[i - 1] && s[j] == t[j - 1];
        } else if j > 1 {
          assert s[1] == t[0] && s[j] == t[j - 1];
        }
      }
    }
  }
}
