/** The `[...topKFiltered].sort((a, b) => b.prob - a.prob)` step: a stable sort by
    descending probability of a fresh copy. `Array.prototype.sort` is required to be
    stable since ES2019, so tokens of equal probability keep their input order. */
module StableSort {
  import opened Tokens

  /** Non-increasing probabilities from front to back. */
  predicate Descending(s: seq<Token>)
  {
    forall i, j :: 0 <= i < j < |s| ==> s[i].prob >= s[j].prob
  }

  /** The tokens of `s` whose probability is exactly `p`, in the order of `s`.
      A sort is stable exactly when it leaves each of these runs unchanged. */
  function WithProb(s: seq<Token>, p: real): seq<Token>
  {
    if s == [] then [] else (if s[0].prob == p then [s[0]] else []) + WithProb(s[1..], p)
  }

  /** Places `t` in front of the first token of `s` whose probability is not above its own. */
  function Insert(t: Token, s: seq<Token>): seq<Token>
  {
    if s == [] then [t]
    else if t.prob >= s[0].prob then [t] + s
    else [s[0]] + Insert(t, s[1..])
  }

  lemma {:induction false} InsertPermutation(t: Token, s: seq<Token>)
    ensures multiset(Insert(t, s)) == multiset(s) + multiset{t}
  {
    if s != [] && t.prob < s[0].prob {
      InsertPermutation(t, s[1..]);
      assert s == [s[0]] + s[1..];
    }
  }

  lemma {:induction false} InsertSum(t: Token, s: seq<Token>)
    ensures Sum(Insert(t, s)) == t.prob + Sum(s)
  {
    if s == [] {
      SumSingle(t);
    } else if t.prob >= s[0].prob {
      SumCons(t, s);
    } else {
      InsertSum(t, s[1..]);
      SumCons(s[0], Insert(t, s[1..]));
      SumCons(s[0], s[1..]);
      assert s == [s[0]] + s[1..];
    }
  }

  lemma {:induction false} InsertDescending(t: Token, s: seq<Token>)
    requires Descending(s)
    ensures Descending(Insert(t, s))
  {
    if s == [] {
    } else if t.prob >= s[0].prob {
      var r := [t] + s;
      forall i, j | 0 <= i < j < |r| ensures r[i].prob >= r[j].prob {
        if i == 0 && j > 1 {
          assert s[0].prob >= s[j - 1].prob;
        }
      }
    } else {
      var rest := Insert(t, s[1..]);
      InsertDescending(t, s[1..]);
      InsertPermutation(t, s[1..]);
      var r := [s[0]] + rest;
      forall i, j | 0 <= i < j < |r| ensures r[i].prob >= r[j].prob {
        if i == 0 {
          var x := rest[j - 1];
          assert x in multiset(rest);
          if x != t {
            assert x in multiset(s[1..]);
            var k :| 0 <= k < |s[1..]| && s[1..][k] == x;
            assert s[0].prob >= s[k + 1].prob;
          }
        } else {
          assert r[i] == rest[i - 1] && r[j] == rest[j - 1];
        }
      }
    }
  }

  lemma {:induction false} InsertWithProb(t: Token, s: seq<Token>, p: real)
    ensures WithProb(Insert(t, s), p) == (if t.prob == p then [t] else []) + WithProb(s, p)
  {
    if s == [] {
      assert WithProb([t], p) == (if t.prob == p then [t] else []) + WithProb([], p);
    } else if t.prob >= s[0].prob {
      assert ([t] + s)[1..] == s;
    } else {
      var rest := Insert(t, s[1..]);
      InsertWithProb(t, s[1..], p);
      assert ([s[0]] + rest)[1..] == rest;
      assert s[0].prob == p ==> t.prob != p;
    }
  }

  /** Stable insertion sort by descending probability. */
  function SortDesc(s: seq<Token>): (r: seq<Token>)
    ensures |r| == |s|
    ensures multiset(r) == multiset(s)
    ensures Descending(r)
    ensures forall p :: WithProb(r, p) == WithProb(s, p)
    ensures Sum(r) == Sum(s)
  {
    if s == [] then []
    else
      var sorted := SortDesc(s[1..]);
      InsertPermutation(s[0], sorted);
      InsertDescending(s[0], sorted);
      InsertSum(s[0], sorted);
      assert forall p :: WithProb(Insert(s[0], sorted), p) == WithProb(s, p) by {
        forall p ensures WithProb(Insert(s[0], sorted), p) == WithProb(s, p) {
          InsertWithProb(s[0], sorted, p);
        }
      }
      assert s == [s[0]] + s[1..];
      SumCons(s[0], s[1..]);
      Insert(s[0], sorted)
  }

  lemma SortDescSameTokens(s: seq<Token>)
    ensures forall t :: t in SortDesc(s) <==> t in s
    ensures NonNegative(s) ==> NonNegative(SortDesc(s))
    ensures Positive(s) ==> Positive(SortDesc(s))
  {
    var r := SortDesc(s);
    forall t ensures t in r <==> t in s {
      assert t in r <==> t in multiset(r);
      assert t in s <==> t in multiset(s);
    }
  }

  lemma {:induction false} WithProbMember(s: seq<Token>, p: real)
    requires WithProb(s, p) != []
    ensures exists i :: 0 <= i < |s| && s[i].prob == p
  {
    if s[0].prob != p {
      WithProbMember(s[1..], p);
      var i :| 0 <= i < |s[1..]| && s[1..][i].prob == p;
      assert s[i + 1].prob == p;
    }
  }

  lemma WithProbHead(s: seq<Token>)
    ensures s != [] ==> WithProb(s, s[0].prob) != []
  {
  }

  /** Descending order plus unchanged equal-probability runs pin the result down:
      any two sequences with both properties and the same runs are equal. So every
      stable descending sort, whatever its algorithm, returns `SortDesc(s)`. */
  lemma {:induction false} StableDescendingUnique(a: seq<Token>, b: seq<Token>)
    requires Descending(a) && Descending(b)
    requires forall p :: WithProb(a, p) == WithProb(b, p)
    ensures a == b
  {
    if a == [] || b == [] {
      WithProbHead(a);
      WithProbHead(b);
    } else {
      var pa, pb := a[0].prob, b[0].prob;
      assert WithProb(a, pa) != [];
      WithProbMember(b, pa);
      assert pb >= pa;
      assert WithProb(b, pb) != [];
      WithProbMember(a, pb);
      assert pa >= pb;
      assert WithProb(a, pa) == [a[0]] + WithProb(a[1..], pa);
      assert WithProb(b, pa) == [b[0]] + WithProb(b[1..], pa);
      assert a[0] == WithProb(a, pa)[0] == WithProb(b, pa)[0] == b[0];
      forall p ensures WithProb(a[1..], p) == WithProb(b[1..], p) {
        if p == pa {
          assert WithProb(a, p)[1..] == WithProb(a[1..], p);
          assert WithProb(b, p)[1..] == WithProb(b[1..], p);
        } else {
          assert WithProb(a, p) == WithProb(a[1..], p);
          assert WithProb(b, p) == WithProb(b[1..], p);
        }
      }
      StableDescendingUnique(a[1..], b[1..]);
      assert a == [a[0]] + a[1..] && b == [b[0]] + b[1..];
    }
  }

  /** A descending sequence with no negative entries and a positive total starts
      with a positive entry: the first kept token carries mass. */
  lemma DescendingHeadPositive(s: seq<Token>)
    requires Descending(s) && NonNegative(s) && Sum(s) > 0.0
    ensures s != [] && s[0].prob > 0.0
  {
    if s != [] && s[0].prob <= 0.0 {
      forall t | t in s ensures t.prob == 0.0 {
        var i :| 0 <= i < |s| && s[i] == t;
      }
      SumAllZero(s);
    }
  }
}
