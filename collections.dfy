/** Facts about sequences shared by the cache, the catalog and the reports. */
module Collections {
  /** No element occurs twice. */
  ghost predicate Unique(s: seq<string>) {
    forall i, j :: 0 <= i < j < |s| ==> s[i] != s[j]
  }

  /** Appending an element that is not yet present keeps a sequence free of repetitions. */
  lemma UniqueAppend(s: seq<string>, x: string)
    requires Unique(s) && x !in s
    ensures Unique(s + [x])
  {
  }

  /** A sequence is free of repetitions exactly when no element occurs in it more than once. */
  lemma {:induction false} UniqueIffSingle(s: seq<string>)
    ensures Unique(s) <==> forall x :: multiset(s)[x] <= 1
  {
    if s != [] {
      UniqueIffSingle(s[1..]);
      assert s == [s[0]] + s[1..];
      assert multiset(s) == multiset{s[0]} + multiset(s[1..]);
      if Unique(s) {
        assert s[0] !in s[1..];
      } else {
        var i, j :| 0 <= i < j < |s| && s[i] == s[j];
        if i == 0 {
          assert s[j] in s[1..];
          assert multiset(s)[s[0]] >= 2;
        } else {
          assert s[1..][i - 1] == s[1..][j - 1];
          var x :| multiset(s[1..])[x] > 1;
          assert multiset(s)[x] > 1;
        }
      }
    }
  }
}
