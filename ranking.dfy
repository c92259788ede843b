/** The order in which a generation ranks its networks. Generation.sortScores
    hands the (network, score) list to `Collections.sort` with a comparator
    that puts higher scores first; that library sort is stable. `SortByScore`
    is a reference definition of exactly that ordering: an insertion sort
    that places each element in front of the equal scores that came after it. */
module Ranking {
  import opened Networks

  /** A network paired with the score its task returned (a javafx `Pair`). */
  datatype Scored = Scored(network: Network, score: real)

  function NetworksOf(s: seq<Scored>): seq<Network> {
    if s == [] then [] else [s[0].network] + NetworksOf(s[1..])
  }

  /** One network per pair, and the network of every pair is among them. */
  lemma {:induction false} NetworksOfMembers(s: seq<Scored>)
    ensures |NetworksOf(s)| == |s|
    ensures forall x :: x in s ==> x.network in NetworksOf(s)
  {
    if s != [] {
      NetworksOfMembers(s[1..]);
      forall x | x in s
        ensures x.network in NetworksOf(s)
      {
        if x != s[0] {
          assert x in s[1..];
        }
      }
    }
  }

  /** Non-increasing scores: the comparator never sees a later element ranked
      before an earlier one. */
  predicate SortedDesc(s: seq<Scored>) {
    forall i, j :: 0 <= i < j < |s| ==> s[i].score >= s[j].score
  }

  /** `x` goes in front of the first element whose score it reaches. */
  function Insert(x: Scored, l: seq<Scored>): seq<Scored> {
    if l == [] || x.score >= l[0].score then [x] + l
    else [l[0]] + Insert(x, l[1..])
  }

  /** The list `Collections.sort` leaves behind, highest score first, equal
      scores in their original order. */
  function SortByScore(s: seq<Scored>): seq<Scored> {
    if s == [] then [] else Insert(s[0], SortByScore(s[1..]))
  }

  /** The elements with score `v`, in list order. */
  function WithScore(s: seq<Scored>, v: real): seq<Scored> {
    if s == [] then [] else (if s[0].score == v then [s[0]] else []) + WithScore(s[1..], v)
  }

  // ---------------------------------------------------------------------------
  // Insertion
  // ---------------------------------------------------------------------------

  lemma {:induction false} InsertPermutes(x: Scored, l: seq<Scored>)
    ensures multiset(Insert(x, l)) == multiset(l) + multiset{x}
    ensures |Insert(x, l)| == |l| + 1
  {
    if l != [] && x.score < l[0].score {
      InsertPermutes(x, l[1..]);
      assert l == [l[0]] + l[1..];
    }
  }

  /** Inserting below a bound stays below it. */
  lemma {:induction false} InsertBelow(x: Scored, l: seq<Scored>, bound: real)
    requires x.score <= bound && forall k :: 0 <= k < |l| ==> l[k].score <= bound
    ensures forall k :: 0 <= k < |Insert(x, l)| ==> Insert(x, l)[k].score <= bound
  {
    if l != [] && x.score < l[0].score {
      InsertBelow(x, l[1..], bound);
    }
  }

  lemma {:induction false} InsertSorted(x: Scored, l: seq<Scored>)
    requires SortedDesc(l)
    ensures SortedDesc(Insert(x, l))
  {
    if l != [] && x.score < l[0].score {
      InsertSorted(x, l[1..]);
      InsertBelow(x, l[1..], l[0].score);
    }
  }

  lemma WithScoreCons(a: Scored, s: seq<Scored>, v: real)
    ensures WithScore([a] + s, v) == (if a.score == v then [a] else []) + WithScore(s, v)
  {
    assert ([a] + s)[1..] == s;
  }

  lemma {:induction false} InsertWithScore(x: Scored, l: seq<Scored>, v: real)
    ensures WithScore(Insert(x, l), v) == (if x.score == v then [x] else []) + WithScore(l, v)
  {
    if l == [] || x.score >= l[0].score {
      WithScoreCons(x, l, v);
    } else {
      // l[0] scores more than x, so at most one of the two has score v
      InsertWithScore(x, l[1..], v);
      WithScoreCons(l[0], Insert(x, l[1..]), v);
      WithScoreCons(l[0], l[1..], v);
      assert l == [l[0]] + l[1..];
    }
  }

  lemma {:induction false} InsertNetworks(x: Scored, l: seq<Scored>)
    ensures multiset(NetworksOf(Insert(x, l))) == multiset(NetworksOf(l)) + multiset{x.network}
  {
    if l == [] || x.score >= l[0].score {
      assert ([x] + l)[1..] == l;
    } else {
      var r := Insert(x, l);
      assert r[0] == l[0] && r[1..] == Insert(x, l[1..]);
      InsertNetworks(x, l[1..]);
    }
  }

  // ---------------------------------------------------------------------------
  // What the sort promises
  // ---------------------------------------------------------------------------

  /** The sorted list is ordered by non-increasing score. */
  lemma {:induction false} SortSorts(s: seq<Scored>)
    ensures SortedDesc(SortByScore(s))
  {
    if s != [] {
      SortSorts(s[1..]);
      InsertSorted(s[0], SortByScore(s[1..]));
    }
  }

  /** The sorted list is a permutation of the original. */
  lemma {:induction false} SortPermutes(s: seq<Scored>)
    ensures multiset(SortByScore(s)) == multiset(s) && |SortByScore(s)| == |s|
  {
    if s != [] {
      SortPermutes(s[1..]);
      InsertPermutes(s[0], SortByScore(s[1..]));
      calc {
        multiset(s);
        { assert s == [s[0]] + s[1..]; }
        multiset([s[0]]) + multiset(s[1..]);
      }
    }
  }

  /** Sorting moves networks about but neither adds nor drops one. */
  lemma {:induction false} SortKeepsNetworks(s: seq<Scored>)
    ensures multiset(NetworksOf(SortByScore(s))) == multiset(NetworksOf(s))
  {
    if s != [] {
      SortKeepsNetworks(s[1..]);
      InsertNetworks(s[0], SortByScore(s[1..]));
    }
  }

  /** Stability: pairs with equal scores keep their relative order. */
  lemma {:induction false} SortIsStable(s: seq<Scored>, v: real)
    ensures WithScore(SortByScore(s), v) == WithScore(s, v)
  {
    if s != [] {
      SortIsStable(s[1..], v);
      InsertWithScore(s[0], SortByScore(s[1..]), v);
    }
  }

  /** A list already in order is left exactly as it is, so sorting twice is
      sorting once. */
  lemma {:induction false} SortedIsFixed(s: seq<Scored>)
    requires SortedDesc(s)
    ensures SortByScore(s) == s
  {
    if s != [] {
      SortedIsFixed(s[1..]);
      assert s == [s[0]] + s[1..];
    }
  }

  lemma SortIsIdempotent(s: seq<Scored>)
    ensures SortByScore(SortByScore(s)) == SortByScore(s)
  {
    SortSorts(s);
    SortedIsFixed(SortByScore(s));
  }

  /** Rank 0 of the sorted list holds a highest score of the original list. */
  lemma HighestFirst(s: seq<Scored>)
    requires s != []
    ensures SortByScore(s) != []
    ensures SortByScore(s)[0] in s
    ensures forall x :: x in s ==> SortByScore(s)[0].score >= x.score
  {
    var r := SortByScore(s);
    SortSorts(s);
    SortPermutes(s);
    assert r[0] in multiset(r);
    forall x | x in s
      ensures r[0].score >= x.score
    {
      assert x in multiset(r);
      var k :| 0 <= k < |r| && r[k] == x;
    }
  }
}
