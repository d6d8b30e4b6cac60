/** The check that a request names exactly the locked suggestions. */
module SuggestionIds {
  import opened ReviewEdits
  import opened PageTables
  import opened PageCommands

  lemma {:induction false} CountDistinct(s: seq<int>)
    ensures |Elements(s)| <= |s|
    ensures Distinct(s) <==> |Elements(s)| == |s|
  {
    if s != [] {
      var last, rest := s[|s| - 1], s[..|s| - 1];
      CountDistinct(rest);
      assert s == rest + [last];
      assert Elements(s) == Elements(rest) + {last};
      if Distinct(rest) && last !in rest {
        assert Distinct(s);
      }
      if last in rest {
        var k :| 0 <= k < |rest| && rest[k] == last;
        assert s[k] == s[|s| - 1];
      }
      if !Distinct(rest) {
        var i, j :| 0 <= i < j < |rest| && rest[i] == rest[j];
        assert s[i] == s[j];
      }
    }
  }

  lemma SubsetOfSameSize(a: set<int>, b: set<int>)
    requires a <= b && |a| == |b|
    ensures a == b
  {
    assert b == a + (b - a);
    assert |b - a| == 0;
  }

  /**
   Compares sizes, collects the requested ids and looks the locked ones up. As locked ids are
   distinct, that amounts to: no duplicates, all positive, and the same set.
   */
  method SameReviewSuggestionIds(expected: seq<int>, actual: seq<int>) returns (same: bool)
    requires Distinct(actual)
    ensures same <==> SameIds(expected, Elements(actual))
  {
    CountDistinct(expected);
    CountDistinct(actual);
    if |expected| != |actual| {
      SameIdsSize(expected, actual);
      return false;
    }
    var seen: set<int> := {};
    var n := 0;
    while n < |expected|
      invariant 0 <= n <= |expected| && seen == Elements(expected[..n])
      invariant forall k :: 0 <= k < n ==> expected[k] > 0
    {
      if expected[n] <= 0 {
        return false;
      }
      assert expected[..n + 1] == expected[..n] + [expected[n]];
      seen := seen + {expected[n]};
      n := n + 1;
    }
    assert expected[..n] == expected;
    if |seen| != |expected| {
      return false;
    }
    n := 0;
    while n < |actual|
      invariant 0 <= n <= |actual| && forall k :: 0 <= k < n ==> actual[k] in expected
    {
      if actual[n] !in seen {
        assert actual[n] in Elements(actual);
        return false;
      }
      n := n + 1;
    }
    SubsetOfSameSize(Elements(actual), Elements(expected));
    assert forall k :: 0 <= k < |expected| ==> expected[k] in Elements(expected);
    return true;
  }

  lemma SameIdsSize(expected: seq<int>, actual: seq<int>)
    requires Distinct(actual)
    ensures SameIds(expected, Elements(actual)) ==> |expected| == |actual|
  {
    CountDistinct(expected);
    CountDistinct(actual);
    if SameIds(expected, Elements(actual)) {
      assert Elements(expected) == Elements(actual);
    }
  }

  function Without(s: seq<int>, k: nat): seq<int>
    requires k < |s|
  {
    s[..k] + s[k + 1..]
  }

  /** The edits behind a selection do not depend on the order its ids are listed in. */
  lemma {:induction false} SameEdits(feedback: Comments, a: seq<int>, b: seq<int>)
    requires Distinct(a) && Distinct(b) && Elements(a) == Elements(b)
    requires forall k :: 0 <= k < |a| ==> a[k] in feedback
    requires forall k :: 0 <= k < |b| ==> b[k] in feedback
    ensures multiset(EditsOf(feedback, a)) == multiset(EditsOf(feedback, b))
    decreases |a|
  {
    hide EditsOf, Without;
    if a == [] {
      CountDistinct(b);
    } else {
      assert a[0] in Elements(b);
      var k :| 0 <= k < |b| && b[k] == a[0];
      var rest := Without(b, k);
      WithoutOne(a, b, k);
      SameEdits(feedback, a[1..], rest);
      EditsFirst(feedback, a);
      EditsWithout(feedback, b, k);
    }
  }

  lemma EditsFirst(feedback: Comments, a: seq<int>)
    requires a != [] && forall k :: 0 <= k < |a| ==> a[k] in feedback
    ensures multiset(EditsOf(feedback, a)) == multiset{feedback[a[0]].edit} + multiset(EditsOf(feedback, a[1..]))
  {
    assert EditsOf(feedback, a) == [feedback[a[0]].edit] + EditsOf(feedback, a[1..]);
  }

  lemma WithoutOne(a: seq<int>, b: seq<int>, k: nat)
    requires Distinct(a) && Distinct(b) && Elements(a) == Elements(b) && a != [] && k < |b| && b[k] == a[0]
    ensures Distinct(a[1..]) && Distinct(Without(b, k)) && Elements(a[1..]) == Elements(Without(b, k))
    ensures forall i :: 0 <= i < |Without(b, k)| ==> Without(b, k)[i] in b
  {
    var rest := Without(b, k);
    assert forall i :: 0 <= i < |rest| ==> rest[i] == b[if i < k then i else i + 1];
    forall x
      ensures x in a[1..] <==> x in rest
    {
      if x in a[1..] {
        var i :| 0 <= i < |a[1..]| && a[1..][i] == x;
        assert a[i + 1] == x && x in Elements(a) && x != a[0];
        assert x in Elements(b);
        var j :| 0 <= j < |b| && b[j] == x;
        assert rest[if j < k then j else j - 1] == x;
      }
      if x in rest {
        var i :| 0 <= i < |rest| && rest[i] == x;
        assert x in Elements(b) && x != b[k];
        assert x in Elements(a);
        var j :| 0 <= j < |a| && a[j] == x;
        assert a[1..][j - 1] == x;
      }
    }
  }

  lemma EditsWithout(feedback: Comments, b: seq<int>, k: nat)
    requires k < |b| && (forall i :: 0 <= i < |b| ==> b[i] in feedback) && forall i :: 0 <= i < |Without(b, k)| ==> Without(b, k)[i] in b
    ensures forall i :: 0 <= i < |Without(b, k)| ==> Without(b, k)[i] in feedback
    ensures multiset(EditsOf(feedback, b)) == multiset(EditsOf(feedback, Without(b, k))) + multiset{feedback[b[k]].edit}
  {
    var rest := Without(b, k);
    assert forall i :: 0 <= i < |rest| ==> rest[i] == b[if i < k then i else i + 1];
    var e := EditsOf(feedback, b);
    assert e == e[..k] + [e[k]] + e[k + 1..];
    assert EditsOf(feedback, rest) == e[..k] + e[k + 1..];
  }

  /** A request that passed the check has the edits of the locked suggestions. */
  lemma SelectedEdits(feedback: Comments, ids: seq<int>, locked: seq<int>)
    requires Distinct(locked) && SameIds(ids, Elements(locked)) && forall k :: 0 <= k < |locked| ==> locked[k] in feedback
    ensures forall k :: 0 <= k < |ids| ==> ids[k] in feedback
    ensures multiset(EditsOf(feedback, ids)) == multiset(EditsOf(feedback, locked))
  {
    forall k | 0 <= k < |ids|
      ensures ids[k] in feedback
    {
      assert ids[k] in Elements(locked);
    }
    forall x
      ensures x in Elements(ids) <==> x in Elements(locked)
    {
      if x in ids {
        var k :| 0 <= k < |ids| && ids[k] == x;
      }
    }
    SameEdits(feedback, ids, locked);
  }

  /** Marking the requested ids marks exactly the locked suggestions. */
  lemma SelectedOpen(feedback: Comments, review: Id, ids: seq<int>, all: bool)
    requires SameIds(ids, OpenFeedback(feedback, review, ids, all))
    ensures forall f :: f in ids <==> f in OpenFeedback(feedback, review, ids, all)
  {
  }

  function Marked(feedback: Comments, review: Id, ids: seq<int>): Comments {
    map f | f in feedback :: if f in ids && feedback[f].request == review then feedback[f].(applied := true) else feedback[f]
  }

  lemma MarkedIs(db: Tables, review: Id, ids: seq<int>, open: set<Id>)
    requires forall f :: f in ids <==> f in open
    ensures Marked(db.feedback, review, ids) == MarkFeedback(db, review, open).feedback
  {
    var a, b := Marked(db.feedback, review, ids), MarkFeedback(db, review, open).feedback;
    forall f | f in db.feedback
      ensures a[f] == b[f]
    {
      assert f in ids <==> f in open;
    }
  }
}
