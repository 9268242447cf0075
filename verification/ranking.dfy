/** The `n` highest-scored keys of a table, and how they relate to a sorted listing and to a part of the table. */
module Ranking {
  import opened Wrappers

  ghost function Above<T(!new)>(scores: map<T, int>, x: T): set<T>
    requires x in scores
  {
    set y | y in scores && scores[y] > scores[x]
  }

  /** The keys that fewer than `n` others outscore. */
  ghost function Top<T(!new)>(scores: map<T, int>, n: nat): set<T> {
    set x | x in scores && |Above(scores, x)| < n
  }

  ghost predicate NoTies<T(!new)>(scores: map<T, int>) {
    forall x, y :: x in scores && y in scores && x != y ==> scores[x] != scores[y]
  }

  /** All keys, highest score first. */
  ghost predicate IsListing<T(!new)>(order: seq<T>, scores: map<T, int>) {
    && Distinct(order)
    && (forall x :: x in order <==> x in scores)
    && (forall i, j :: 0 <= i < j < |order| ==> scores[order[i]] >= scores[order[j]])
  }

  function Elements<T>(s: seq<T>): set<T> {
    set x | x in s
  }

  lemma {:induction false} DistinctCount<T(!new)>(s: seq<T>)
    requires Distinct(s)
    ensures |Elements(s)| == |s|
  {
    if |s| > 0 {
      var n := |s| - 1;
      DistinctCount(s[..n]);
      assert s == s[..n] + [s[n]];
      assert s[n] !in s[..n];
      assert Elements(s) == Elements(s[..n]) + {s[n]};
    }
  }

  lemma SmallerSet<T(!new)>(a: set<T>, b: set<T>)
    requires a <= b
    ensures |a| <= |b|
  {
    assert b == a + (b - a);
  }

  /** Without ties, the top keys are the first ones of a sorted listing. */
  lemma TopOfListing<T(!new)>(order: seq<T>, scores: map<T, int>, n: nat)
    requires IsListing(order, scores) && NoTies(scores)
    ensures Top(scores, n) == Elements(order[..if n < |order| then n else |order|])
    ensures |Top(scores, n)| == if n < |order| then n else |order|
  {
    var m := if n < |order| then n else |order|;
    forall i | 0 <= i < |order| ensures |Above(scores, order[i])| == i {
      assert Above(scores, order[i]) == Elements(order[..i]) by {
        forall j | 0 <= j < |order| ensures scores[order[j]] > scores[order[i]] <==> j < i {
        }
      }
      DistinctCount(order[..i]);
    }
    forall x ensures x in Top(scores, n) <==> x in order[..m] {
      if x in scores {
        var i :| 0 <= i < |order| && order[i] == x;
        assert |Above(scores, order[i])| == i;
        if x in order[..m] {
          var j :| 0 <= j < m && order[..m][j] == x;
          assert j == i;
        }
      }
    }
    DistinctCount(order[..m]);
  }

  lemma SplitElements<T(!new)>(s: seq<T>, n: nat)
    requires Distinct(s) && n <= |s|
    ensures Elements(s[n..]) == Elements(s) - Elements(s[..n])
  {
    forall x | x in s ensures x in s[n..] <==> x !in s[..n] {
      var i :| 0 <= i < |s| && s[i] == x;
      if i < n {
        assert s[..n][i] == x;
        assert forall j :: 0 <= j < |s[n..]| ==> s[n..][j] == s[n + j];
      } else {
        assert s[n..][i - n] == x;
      }
    }
  }

  /** So the rest of the listing is everything else. */
  lemma RestOfListing<T(!new)>(order: seq<T>, scores: map<T, int>, n: nat)
    requires IsListing(order, scores) && NoTies(scores) && n <= |order|
    ensures Elements(order[n..]) == scores.Keys - Top(scores, n)
  {
    TopOfListing(order, scores, n);
    SplitElements(order, n);
    assert Elements(order) == scores.Keys;
  }

  lemma {:induction false} ListingExists<T(!new)>(scores: map<T, int>) returns (order: seq<T>)
    ensures IsListing(order, scores)
    decreases |scores|
  {
    if |scores| == 0 {
      order := [];
    } else {
      var x := Lowest(scores);
      var rest := scores - {x};
      var before := ListingExists(rest);
      order := before + [x];
      forall k | 0 <= k < |order| ensures order[k] in scores {
        if k < |before| {
          assert order[k] in before && order[k] in rest;
        }
      }
      forall i, j | 0 <= i < j < |order| ensures scores[order[i]] >= scores[order[j]] && order[i] != order[j] {
        assert order[i] in before;
        assert order[i] in rest && (j < |before| ==> order[j] in rest);
      }
    }
  }

  lemma {:induction false} Lowest<T(!new)>(scores: map<T, int>) returns (x: T)
    requires |scores| > 0
    ensures x in scores && forall y :: y in scores ==> scores[x] <= scores[y]
    decreases |scores|
  {
    var k :| k in scores;
    x := k;
    var rest := scores - {k};
    if |rest| > 0 {
      var y := Lowest(rest);
      if scores[y] < scores[k] {
        x := y;
      }
    }
    forall y | y in scores ensures scores[x] <= scores[y] {
      if y != k {
        assert y in rest;
      }
    }
  }

  /** A part of the table that holds all its top keys has the same top keys. */
  lemma TopOfPart<T(!new)>(part: map<T, int>, all: map<T, int>, n: nat)
    requires NoTies(all)
    requires forall x :: x in part ==> x in all && part[x] == all[x]
    requires forall x :: x in Top(all, n) ==> x in part
    ensures Top(part, n) == Top(all, n)
  {
    forall x | x in Top(all, n) ensures x in Top(part, n) {
      SmallerSet(Above(part, x), Above(all, x));
    }
    forall x | x in Top(part, n) ensures x in Top(all, n) {
      if x !in Top(all, n) {
        forall y | y in Top(all, n) ensures y in Above(part, x) {
          if all[y] <= all[x] {
            SmallerSet(Above(all, x), Above(all, y));
          }
        }
        SmallerSet(Above(all, x), all.Keys);
        var order := ListingExists(all);
        TopOfListing(order, all, n);
        DistinctCount(order);
        assert Elements(order) == all.Keys;
        SmallerSet(Top(all, n), Above(part, x));
      }
    }
  }

  /** Raising one key above all others can push keys out of the top, but brings in no other key. */
  lemma TopAfterRaise<T(!new)>(scores: map<T, int>, k: T, high: int, n: nat)
    requires forall x :: x in scores ==> scores[x] < high
    ensures forall x :: x in Top(scores[k := high], n) && x != k ==> x in Top(scores, n)
  {
    var raised := scores[k := high];
    forall x | x in Top(raised, n) && x != k ensures x in Top(scores, n) {
      SmallerSet(Above(scores, x), Above(raised, x));
    }
  }
}
