/** Filtering of request queues, for the scheduler's list comprehensions. */
module Queues {
  import opened CacheTypes

  function SetOf<T>(s: seq<T>): set<T> {
    set x | x in s
  }

  /** The elements of `s` that are not in `gone`, in order. */
  function Without<T(==)>(s: seq<T>, gone: set<T>): seq<T> {
    if s == [] then []
    else
      var last := s[|s| - 1];
      Without(s[..|s| - 1], gone) + if last in gone then [] else [last]
  }

  function Reversed<T>(s: seq<T>): (t: seq<T>)
    ensures |t| == |s|
    ensures multiset(t) == multiset(s)
  {
    if s == [] then []
    else
      assert s == s[..|s| - 1] + [s[|s| - 1]];
      [s[|s| - 1]] + Reversed(s[..|s| - 1])
  }

  lemma {:induction false} ReversedMembers<T>(s: seq<T>)
    ensures forall x :: x in s <==> x in Reversed(s)
  {
    if s != [] {
      ReversedMembers(s[..|s| - 1]);
      assert s == s[..|s| - 1] + [s[|s| - 1]];
    }
  }

  lemma {:induction false} WithoutMembers<T>(s: seq<T>, gone: set<T>)
    ensures forall x :: x in Without(s, gone) <==> x in s && x !in gone
  {
    if s != [] {
      WithoutMembers(s[..|s| - 1], gone);
      assert s == s[..|s| - 1] + [s[|s| - 1]];
    }
  }

  lemma {:induction false} WithoutAppend<T>(s: seq<T>, t: seq<T>, gone: set<T>)
    ensures Without(s + t, gone) == Without(s, gone) + Without(t, gone)
  {
    if t == [] {
      assert s + t == s;
    } else {
      assert (s + t)[..|s + t| - 1] == s + t[..|t| - 1];
      WithoutAppend(s, t[..|t| - 1], gone);
    }
  }

  lemma WithoutLast<T>(s: seq<T>, x: T, gone: set<T>)
    ensures Without(s + [x], gone) == Without(s, gone) + (if x in gone then [] else [x])
  {
    assert (s + [x])[..|s|] == s;
  }

  lemma {:induction false} WithoutNothing<T>(s: seq<T>, gone: set<T>)
    requires forall x :: x in s ==> x !in gone
    ensures Without(s, gone) == s
  {
    if s != [] {
      WithoutNothing(s[..|s| - 1], gone);
      assert s == s[..|s| - 1] + [s[|s| - 1]];
    }
  }

  lemma {:induction false} WithoutTwice<T>(s: seq<T>, a: set<T>, b: set<T>)
    ensures Without(Without(s, a), b) == Without(s, a + b)
  {
    if s != [] {
      WithoutTwice(s[..|s| - 1], a, b);
      var last := s[|s| - 1];
      if last in a {
        assert Without(s, a) == Without(s[..|s| - 1], a);
      } else {
        WithoutLast(Without(s[..|s| - 1], a), last, b);
      }
    }
  }

  lemma {:induction false} WithoutDistinct<T>(s: seq<T>, gone: set<T>)
    requires NoDuplicates(s)
    ensures NoDuplicates(Without(s, gone))
  {
    if s != [] {
      WithoutDistinct(s[..|s| - 1], gone);
      WithoutMembers(s[..|s| - 1], gone);
    }
  }

  lemma {:induction false} WithoutLength<T>(s: seq<T>, gone: set<T>)
    ensures |Without(s, gone)| <= |s|
  {
    if s != [] { WithoutLength(s[..|s| - 1], gone); }
  }

  lemma DistinctParts<T>(s: seq<T>, t: seq<T>)
    requires NoDuplicates(s + t)
    ensures NoDuplicates(s) && NoDuplicates(t) && forall x :: x in s ==> x !in t
  {
    var st := s + t;
    forall i, j | 0 <= i < j < |s| ensures s[i] != s[j] { assert st[i] != st[j]; }
    forall i, j | 0 <= i < j < |t| ensures t[i] != t[j] { assert st[|s| + i] != st[|s| + j]; }
    forall i, j | 0 <= i < |s| && 0 <= j < |t| ensures s[i] != t[j] { assert st[i] != st[|s| + j]; }
  }

  lemma DistinctJoin<T>(s: seq<T>, t: seq<T>)
    requires NoDuplicates(s) && NoDuplicates(t) && forall x :: x in s ==> x !in t
    ensures NoDuplicates(s + t)
  {
    var st := s + t;
    forall i, j | 0 <= i < j < |st| ensures st[i] != st[j] {
      if j >= |s| { assert st[j] in t; }
      if i < |s| { assert st[i] in s; }
    }
  }

  lemma {:induction false} WithoutOne<T>(s: seq<T>, x: T)
    requires NoDuplicates(s) && x in s
    ensures multiset(Without(s, {x})) + multiset{x} == multiset(s)
  {
    var init, last := s[..|s| - 1], s[|s| - 1];
    assert s == init + [last];
    if last == x {
      WithoutNothing(init, {x});
      assert Without(s, {x}) == init;
    } else {
      WithoutOne(init, x);
    }
  }

  /** Taking some elements out and counting them separately loses nothing. */
  lemma {:induction false} WithoutConserves<T>(s: seq<T>, gone: seq<T>)
    requires NoDuplicates(s) && NoDuplicates(gone) && forall x :: x in gone ==> x in s
    ensures multiset(Without(s, SetOf(gone))) + multiset(gone) == multiset(s)
  {
    hide Without;
    if gone == [] {
      WithoutNothing(s, SetOf(gone));
    } else {
      var init, last := gone[..|gone| - 1], gone[|gone| - 1];
      assert gone == init + [last];
      WithoutConserves(s, init);
      WithoutDistinct(s, SetOf(init));
      WithoutMembers(s, SetOf(init));
      WithoutOne(Without(s, SetOf(init)), last);
      WithoutTwice(s, SetOf(init), {last});
      assert SetOf(gone) == SetOf(init) + {last};
    }
  }

  lemma SetOfAppend<T>(s: seq<T>, x: T)
    ensures SetOf(s + [x]) == SetOf(s) + {x}
  {
  }

  lemma {:induction false} WithoutSet<T>(s: seq<T>, gone: set<T>)
    ensures SetOf(Without(s, gone)) == SetOf(s) - gone
    ensures forall i :: 0 <= i < |Without(s, gone)| ==> Without(s, gone)[i] in s
  {
    if s != [] {
      var init, last := s[..|s| - 1], s[|s| - 1];
      assert s == init + [last];
      WithoutSet(init, gone);
      SetOfAppend(init, last);
      SetOfAppend(Without(init, gone), last);
      assert Without(s, gone) == if last in gone then Without(init, gone) else Without(init, gone) + [last];
    }
  }

  /** One more element leaves, and goes to the front of the reversed list of those gone. */
  lemma OneMoreGone<T>(s: seq<T>, gone: seq<T>, x: T)
    requires NoDuplicates(gone) && x !in gone
    ensures NoDuplicates(gone + [x])
    ensures Without(Without(s, SetOf(gone)), {x}) == Without(s, SetOf(gone + [x]))
    ensures Reversed(gone + [x]) == [x] + Reversed(gone)
    ensures SetOf(Without(s, SetOf(gone + [x]))) == SetOf(Without(s, SetOf(gone))) - {x}
  {
    hide Without;
    SetOfAppend(gone, x);
    WithoutTwice(s, SetOf(gone), {x});
    assert (gone + [x])[..|gone|] == gone;
    WithoutSet(s, SetOf(gone + [x]));
    WithoutSet(s, SetOf(gone));
  }

  /** Two lists that agree up to what is gone still agree when more is gone. */
  lemma WithoutMore<T>(s: seq<T>, t: seq<T>, gone: seq<T>, more: seq<T>)
    requires Without(s, SetOf(gone)) == Without(t, SetOf(gone)) && gone <= more
    ensures Without(s, SetOf(more)) == Without(t, SetOf(more))
  {
    WithoutTwice(s, SetOf(gone), SetOf(more));
    WithoutTwice(t, SetOf(gone), SetOf(more));
    assert SetOf(gone) + SetOf(more) == SetOf(more) by {
      forall x | x in gone ensures x in more {
        var i :| 0 <= i < |gone| && gone[i] == x;
        assert more[i] == x;
      }
    }
  }

  /** One more element of a queue is walked, and it stays. */
  lemma WalkedStays<T>(s: seq<T>, i: nat, gone: set<T>)
    requires i < |s| && s[i] !in gone
    ensures Without(s[..i + 1], gone) == Without(s[..i], gone) + [s[i]]
  {
    assert s[..i + 1] == s[..i] + [s[i]];
    WithoutLast(s[..i], s[i], gone);
  }

  /** One more element of a queue is walked, and it leaves. */
  lemma WalkedLeaves<T>(s: seq<T>, i: nat, gone: set<T>)
    requires i < |s| && NoDuplicates(s)
    ensures Without(s[..i + 1], gone + {s[i]}) == Without(s[..i], gone)
  {
    assert s[..i + 1] == s[..i] + [s[i]];
    WithoutLast(s[..i], s[i], gone + {s[i]});
    WithoutTwice(s[..i], gone, {s[i]});
    WithoutMembers(s[..i], gone);
    WithoutNothing(Without(s[..i], gone), {s[i]});
  }

  lemma CountOfDistinct<T>(s: seq<T>, x: T)
    requires NoDuplicates(s)
    ensures multiset(s)[x] <= 1
  {
    if x in s {
      var i :| 0 <= i < |s| && s[i] == x;
      assert s == s[..i] + [x] + s[i + 1..];
      assert x !in s[..i] && x !in s[i + 1..];
    }
  }

  lemma TwiceIsCounted<T>(s: seq<T>, i: nat, j: nat)
    requires i < j < |s| && s[i] == s[j]
    ensures multiset(s)[s[i]] >= 2
  {
    assert s == s[..i] + [s[i]] + s[i + 1..j] + [s[j]] + s[j + 1..];
  }

  /** A list with no more elements than one without duplicates has none either. */
  lemma DistinctByCount<T>(s: seq<T>, t: seq<T>)
    requires NoDuplicates(t) && multiset(s) <= multiset(t)
    ensures NoDuplicates(s)
  {
    forall i, j | 0 <= i < j < |s|
      ensures s[i] != s[j]
    {
      if s[i] == s[j] {
        TwiceIsCounted(s, i, j);
        CountOfDistinct(t, s[i]);
      }
    }
  }

  /** Victims move from one queue to the front of the other. */
  lemma VictimsMove<T>(ran: seq<T>, queued: seq<T>, victims: seq<T>)
    requires NoDuplicates(ran + queued) && NoDuplicates(victims) && forall x :: x in victims ==> x in ran
    ensures
      var ran', queued' := Without(ran, SetOf(victims)), Reversed(victims) + queued;
      multiset(ran') + multiset(queued') == multiset(ran) + multiset(queued) && NoDuplicates(ran' + queued')
  {
    hide Without, Reversed;
    DistinctParts(ran, queued);
    WithoutConserves(ran, victims);
    DistinctByCount(Without(ran, SetOf(victims)) + (Reversed(victims) + queued), ran + queued);
  }

  /** Admitted elements join the other queue, rejected ones leave. */
  lemma WaitersMove<T>(ran: seq<T>, queued: seq<T>, admitted: seq<T>, rejected: seq<T>)
    requires NoDuplicates(ran + queued) && NoDuplicates(admitted) && NoDuplicates(rejected)
    requires forall x :: x in admitted ==> x in queued && x !in rejected
    requires forall x :: x in rejected ==> x in queued
    ensures
      var ran', queued' := ran + admitted, Without(queued, SetOf(admitted) + SetOf(rejected));
      && multiset(ran') + multiset(queued') + multiset(rejected) == multiset(ran) + multiset(queued)
      && NoDuplicates(ran' + queued')
  {
    hide Without;
    DistinctParts(ran, queued);
    DistinctJoin(admitted, rejected);
    assert SetOf(admitted + rejected) == SetOf(admitted) + SetOf(rejected);
    WithoutConserves(queued, admitted + rejected);
    DistinctByCount(ran + admitted + Without(queued, SetOf(admitted) + SetOf(rejected)), ran + queued);
    assert ran + admitted + Without(queued, SetOf(admitted) + SetOf(rejected))
        == (ran + admitted) + Without(queued, SetOf(admitted) + SetOf(rejected));
  }

  // ---- parts of a queue, in its order ----

  /** `s` is what is left of `t` when some of it is left out. */
  predicate PartOf<T(==)>(s: seq<T>, t: seq<T>)
    decreases |t|
  {
    s == []
    || (t != []
        && if s[|s| - 1] == t[|t| - 1] then PartOf(s[..|s| - 1], t[..|t| - 1]) else PartOf(s, t[..|t| - 1]))
  }

  lemma {:induction false} PartWeaken<T>(s: seq<T>, t: seq<T>)
    requires t != [] && PartOf(s, t[..|t| - 1])
    ensures PartOf(s, t)
    decreases |t|, 0
  {
    if s != [] && s[|s| - 1] == t[|t| - 1] { PartInit(s, t[..|t| - 1]); }
  }

  lemma {:induction false} PartInit<T>(s: seq<T>, t: seq<T>)
    requires s != [] && PartOf(s, t)
    ensures PartOf(s[..|s| - 1], t)
    decreases |t|, 1
  {
    if s[|s| - 1] == t[|t| - 1] {
      PartWeaken(s[..|s| - 1], t);
    } else {
      PartInit(s, t[..|t| - 1]);
      PartWeaken(s[..|s| - 1], t);
    }
  }

  lemma PartSkips<T>(s: seq<T>, t: seq<T>, x: T)
    requires PartOf(s, t)
    ensures PartOf(s, t + [x])
  {
    assert (t + [x])[..|t|] == t;
    PartWeaken(s, t + [x]);
  }

  lemma PartTakes<T>(s: seq<T>, t: seq<T>, x: T)
    requires PartOf(s, t)
    ensures PartOf(s + [x], t + [x])
  {
    assert (t + [x])[..|t|] == t && (s + [x])[..|s|] == s;
  }

  lemma {:induction false} PartJoin<T>(s: seq<T>, t: seq<T>, u: seq<T>)
    requires PartOf(s, t)
    ensures PartOf(s + u, t + u)
  {
    if u == [] {
      assert s + u == s && t + u == t;
    } else {
      var init, x := u[..|u| - 1], u[|u| - 1];
      PartJoin(s, t, init);
      PartTakes(s + init, t + init, x);
      assert s + u == s + init + [x] && t + u == t + init + [x];
    }
  }

  lemma {:induction false} PartLonger<T>(s: seq<T>, t: seq<T>, u: seq<T>)
    requires PartOf(s, t)
    ensures PartOf(s, t + u)
  {
    if u == [] {
      assert t + u == t;
    } else {
      PartLonger(s, t, u[..|u| - 1]);
      PartSkips(s, t + u[..|u| - 1], u[|u| - 1]);
      assert t + u == t + u[..|u| - 1] + [u[|u| - 1]];
    }
  }

  lemma {:induction false} PartSame<T>(s: seq<T>)
    ensures PartOf(s, s)
  {
    if s != [] { PartSame(s[..|s| - 1]); }
  }

  lemma {:induction false} PartInTurn<T>(s: seq<T>, t: seq<T>, u: seq<T>)
    requires PartOf(s, t) && PartOf(t, u)
    ensures PartOf(s, u)
    decreases |u|
  {
    if s != [] {
      var init := u[..|u| - 1];
      if t[|t| - 1] != u[|u| - 1] {
        PartInTurn(s, t, init);
        PartWeaken(s, u);
      } else if s[|s| - 1] == t[|t| - 1] {
        PartInTurn(s[..|s| - 1], t[..|t| - 1], init);
      } else {
        PartInTurn(s, t[..|t| - 1], init);
        PartWeaken(s, u);
      }
    }
  }

  lemma NothingIsPart<T>(s: seq<T>, t: seq<T>)
    requires s == []
    ensures PartOf(s, t)
  {
  }

  lemma {:induction false} PartWithout<T>(s: seq<T>, t: seq<T>, gone: set<T>)
    requires PartOf(s, t)
    ensures PartOf(Without(s, gone), t)
    decreases |t|
  {
    if s != [] {
      var init, last := s[..|s| - 1], s[|s| - 1];
      if last == t[|t| - 1] {
        hide Without;
        PartWithout(init, t[..|t| - 1], gone);
        WithoutLast(init, last, gone);
        assert s == init + [last] && t == t[..|t| - 1] + [last];
        if last in gone {
          assert Without(s, gone) == Without(init, gone);
          PartWeaken(Without(s, gone), t);
        } else {
          PartTakes(Without(init, gone), t[..|t| - 1], last);
        }
      } else {
        PartWithout(s, t[..|t| - 1], gone);
        PartWeaken(Without(s, gone), t);
      }
    }
  }

  /** What it means, for a queue without repetitions: the elements of `s` are elements of `t`, and
      come in the same order. */
  lemma {:induction false} PartMeans<T>(s: seq<T>, t: seq<T>, i: nat, j: nat) returns (x: nat, y: nat)
    requires PartOf(s, t) && i < j < |s|
    ensures x < y < |t| && t[x] == s[i] && t[y] == s[j]
    decreases |t|
  {
    var init := t[..|t| - 1];
    if s[|s| - 1] == t[|t| - 1] {
      if j < |s| - 1 {
        x, y := PartMeans(s[..|s| - 1], init, i, j);
      } else {
        x := PartMember(s[..|s| - 1], init, i);
        y := |t| - 1;
      }
    } else {
      x, y := PartMeans(s, init, i, j);
    }
  }

  lemma {:induction false} PartMember<T>(s: seq<T>, t: seq<T>, i: nat) returns (x: nat)
    requires PartOf(s, t) && i < |s|
    ensures x < |t| && t[x] == s[i]
    decreases |t|
  {
    var init := t[..|t| - 1];
    if s[|s| - 1] == t[|t| - 1] {
      if i < |s| - 1 { x := PartMember(s[..|s| - 1], init, i); } else { x := |t| - 1; }
    } else {
      x := PartMember(s, init, i);
    }
  }
}
