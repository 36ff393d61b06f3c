/**
 * Players and their scores: the lowest score, the winners of a round (lowest
 * score wins) and the final-scores leaderboard, an ascending stable sort by score.
 */
module Scores {

  /** `{ name, score }`, one per player, in entry order. */
  datatype Player = Player(name: string, score: nat)

  /** `Math.min(...players.map(p => p.score))`: a score some player has that no
      player is below. */
  function MinScore(ps: seq<Player>): (m: nat)
    requires |ps| > 0
    ensures exists i :: 0 <= i < |ps| && ps[i].score == m
    ensures forall i :: 0 <= i < |ps| ==> m <= ps[i].score
  {
    if |ps| == 1 then ps[0].score
    else
      var rest := MinScore(ps[1..]);
      if ps[0].score <= rest then ps[0].score else rest
  }

  /** `ps.filter(p => p.score === k)`: the players with score `k`, each as often as in
      `ps`, and nothing else. */
  function WithScore(ps: seq<Player>, k: int): seq<Player>
  {
    if ps == [] then [] else (if ps[0].score == k then [ps[0]] else []) + WithScore(ps[1..], k)
  }

  /** The winners of a finished round: every player at the lowest score, in entry order. */
  function Winners(ps: seq<Player>): seq<Player>
    requires |ps| > 0
  {
    WithScore(ps, MinScore(ps))
  }

  /** The filter keeps exactly the players with score `k`, each as often as in `ps`. */
  lemma WithScoreCorrect(ps: seq<Player>, k: int)
    ensures var r := WithScore(ps, k);
      |r| <= |ps|
      && (forall i :: 0 <= i < |r| ==> r[i].score == k)
      && (forall p :: multiset(r)[p] == if p.score == k then multiset(ps)[p] else 0)
  {
    WithScoreShape(ps, k);
    forall p ensures multiset(WithScore(ps, k))[p] == if p.score == k then multiset(ps)[p] else 0 {
      WithScoreCount(ps, k, p);
    }
  }

  lemma {:induction false} WithScoreShape(ps: seq<Player>, k: int)
    ensures |WithScore(ps, k)| <= |ps|
    ensures forall i :: 0 <= i < |WithScore(ps, k)| ==> WithScore(ps, k)[i].score == k
  {
    if ps != [] {
      WithScoreShape(ps[1..], k);
    }
  }

  lemma {:induction false} WithScoreCount(ps: seq<Player>, k: int, p: Player)
    ensures multiset(WithScore(ps, k))[p] == if p.score == k then multiset(ps)[p] else 0
  {
    if ps != [] {
      WithScoreCount(ps[1..], k, p);
      assert ps == [ps[0]] + ps[1..];
      var head := if ps[0].score == k then [ps[0]] else [];
      assert WithScore(ps, k) == head + WithScore(ps[1..], k);
      assert multiset(WithScore(ps, k)) == multiset(head) + multiset(WithScore(ps[1..], k));
      assert multiset(ps) == multiset{ps[0]} + multiset(ps[1..]);
    }
  }

  /** Filtering distributes over concatenation, so it keeps entry order. */
  lemma {:induction false} WithScoreAppend(a: seq<Player>, b: seq<Player>, k: int)
    ensures WithScore(a + b, k) == WithScore(a, k) + WithScore(b, k)
  {
    if a != [] {
      assert (a + b)[0] == a[0];
      assert (a + b)[1..] == a[1..] + b;
      WithScoreAppend(a[1..], b, k);
    } else {
      assert a + b == b;
    }
  }

  /** Filtering for a score nobody has gives nothing. */
  lemma WithScoreAbsent(ps: seq<Player>, k: int)
    requires forall i :: 0 <= i < |ps| ==> ps[i].score != k
    ensures WithScore(ps, k) == []
  {
    WithScoreCorrect(ps, k);
  }

  /** The winners are never empty, all hold the lowest score, nobody scored less, and
      every player at that score is among them. */
  lemma WinnersCorrect(ps: seq<Player>)
    requires |ps| > 0
    ensures var w := Winners(ps);
      |w| > 0
      && (forall i :: 0 <= i < |w| ==> w[i].score == MinScore(ps))
      && (forall i :: 0 <= i < |ps| ==> w[0].score <= ps[i].score)
      && (forall i :: 0 <= i < |ps| && ps[i].score == MinScore(ps) ==> ps[i] in w)
  {
    var w := Winners(ps);
    var m := MinScore(ps);
    WithScoreCorrect(ps, m);
    var j :| 0 <= j < |ps| && ps[j].score == m;
    assert multiset(w)[ps[j]] == multiset(ps)[ps[j]] > 0;
    forall i | 0 <= i < |ps| && ps[i].score == m ensures ps[i] in w {
      assert multiset(w)[ps[i]] == multiset(ps)[ps[i]];
    }
  }

  /** Scores 3, 1, 1, 5 make the players at indices 1 and 2 the winners. */
  lemma WinnersExample()
    ensures var ps := [Player("A", 3), Player("B", 1), Player("C", 1), Player("D", 5)];
      Winners(ps) == [ps[1], ps[2]]
  {
  }

  predicate SortedByScore(ps: seq<Player>)
  {
    forall i, j :: 0 <= i < j < |ps| ==> ps[i].score <= ps[j].score
  }

  /** Inserts `p` into a leaderboard after every entry that does not score more than it. */
  function Insert(p: Player, ps: seq<Player>): seq<Player>
  {
    if ps == [] then [p]
    else if p.score < ps[0].score then [p] + ps
    else [ps[0]] + Insert(p, ps[1..])
  }

  /** `players.sort((a, b) => a.score - b.score)`: a stable insertion sort, taking the
      players in entry order. Its properties are the lemmas below. */
  function SortByScore(ps: seq<Player>): seq<Player>
  {
    if ps == [] then [] else Insert(ps[|ps| - 1], SortByScore(ps[..|ps| - 1]))
  }

  lemma {:induction false} InsertPermutes(p: Player, ps: seq<Player>)
    ensures multiset(Insert(p, ps)) == multiset(ps) + multiset{p}
  {
    if ps != [] && p.score >= ps[0].score {
      InsertPermutes(p, ps[1..]);
      assert ps == [ps[0]] + ps[1..];
    }
  }

  /** The leaderboard holds the same players as `ps`, each as often. */
  lemma {:induction false} SortByScorePermutes(ps: seq<Player>)
    ensures multiset(SortByScore(ps)) == multiset(ps)
  {
    if ps != [] {
      SortByScorePermutes(ps[..|ps| - 1]);
      InsertPermutes(ps[|ps| - 1], SortByScore(ps[..|ps| - 1]));
      assert ps == ps[..|ps| - 1] + [ps[|ps| - 1]];
    }
  }

  /** `Insert` puts `p` at the first place whose player scores more than `p`. */
  lemma {:induction false} InsertAt(p: Player, ps: seq<Player>, j: nat)
    requires j <= |ps|
    requires forall m :: 0 <= m < j ==> ps[m].score <= p.score
    requires j == |ps| || p.score < ps[j].score
    ensures Insert(p, ps) == ps[..j] + [p] + ps[j..]
  {
    if j == 0 {
      assert ps[j..] == ps;
    } else {
      InsertAt(p, ps[1..], j - 1);
      assert ps[..j] == [ps[0]] + ps[1..][..j - 1];
      assert ps[j..] == ps[1..][j - 1..];
    }
  }

  lemma {:induction false} InsertSorted(p: Player, ps: seq<Player>)
    requires SortedByScore(ps)
    ensures SortedByScore(Insert(p, ps))
  {
    if ps != [] && p.score >= ps[0].score {
      InsertSorted(p, ps[1..]);
      var r := Insert(p, ps);
      var t := Insert(p, ps[1..]);
      InsertPermutes(p, ps[1..]);
      forall x | x in t ensures ps[0].score <= x.score {
        assert x in multiset(t);
        assert x == p || x in multiset(ps[1..]);
      }
      assert r == [ps[0]] + t;
    }
  }

  /** The leaderboard is in ascending order of score. */
  lemma {:induction false} SortByScoreSorted(ps: seq<Player>)
    ensures SortedByScore(SortByScore(ps))
  {
    if ps != [] {
      SortByScoreSorted(ps[..|ps| - 1]);
      InsertSorted(ps[|ps| - 1], SortByScore(ps[..|ps| - 1]));
    }
  }

  /** In a sorted leaderboard, nobody before `p`'s place has `p`'s score filtered out:
      inserting `p` appends it to the players with its score and leaves the others. */
  lemma {:induction false} InsertWithScore(p: Player, ps: seq<Player>, k: int)
    requires SortedByScore(ps)
    ensures WithScore(Insert(p, ps), k) == WithScore(ps, k) + (if p.score == k then [p] else [])
  {
    var hp := if p.score == k then [p] else [];
    if ps == [] {
      assert WithScore([p], k) == hp + WithScore([], k);
    } else if p.score < ps[0].score {
      assert ([p] + ps)[0] == p && ([p] + ps)[1..] == ps;
      assert WithScore([p] + ps, k) == hp + WithScore(ps, k);
      if p.score == k {
        forall i | 0 <= i < |ps| ensures ps[i].score != k {
          assert i == 0 || ps[0].score <= ps[i].score;
        }
        WithScoreAbsent(ps, k);
      } else {
        assert WithScore(ps, k) + hp == WithScore(ps, k);
      }
    } else {
      var t := Insert(p, ps[1..]);
      var h0 := if ps[0].score == k then [ps[0]] else [];
      assert ([ps[0]] + t)[0] == ps[0] && ([ps[0]] + t)[1..] == t;
      assert SortedByScore(ps[1..]) by {
        forall i, j | 0 <= i < j < |ps| - 1 ensures ps[1..][i].score <= ps[1..][j].score {
          assert ps[1..][i] == ps[i + 1] && ps[1..][j] == ps[j + 1];
        }
      }
      InsertWithScore(p, ps[1..], k);
      assert WithScore([ps[0]] + t, k) == h0 + WithScore(t, k);
      assert WithScore(ps, k) == h0 + WithScore(ps[1..], k);
      assert h0 + (WithScore(ps[1..], k) + hp) == (h0 + WithScore(ps[1..], k)) + hp;
    }
  }


  /** The sort is stable: for every score, the players holding it appear in the
      leaderboard in the same order as in entry order. */
  lemma {:induction false} SortByScoreStable(ps: seq<Player>, k: int)
    ensures WithScore(SortByScore(ps), k) == WithScore(ps, k)
  {
    if ps != [] {
      var init, last := ps[..|ps| - 1], ps[|ps| - 1];
      SortByScoreStable(init, k);
      SortByScoreSorted(init);
      InsertWithScore(last, SortByScore(init), k);
      assert ps == init + [last];
      WithScoreAppend(init, [last], k);
      assert WithScore([last], k) == (if last.score == k then [last] else []) + WithScore([], k);
    }
  }

  /** Sequences holding the same players have the same lowest score. */
  lemma MinScorePermutation(a: seq<Player>, b: seq<Player>)
    requires |a| > 0 && multiset(a) == multiset(b)
    ensures |b| > 0 && MinScore(a) == MinScore(b)
  {
    assert |b| == |multiset(b)| == |multiset(a)| == |a|;
    var i :| 0 <= i < |a| && a[i].score == MinScore(a);
    var j :| 0 <= j < |b| && b[j].score == MinScore(b);
    assert a[i] in multiset(b);
    assert b[j] in multiset(a);
  }

  /** Sorting the leaderboard leaves the winners as they were. */
  lemma SortKeepsWinners(ps: seq<Player>)
    requires |ps| > 0
    ensures |SortByScore(ps)| > 0 && Winners(SortByScore(ps)) == Winners(ps)
  {
    SortByScorePermutes(ps);
    MinScorePermutation(ps, SortByScore(ps));
    SortByScoreStable(ps, MinScore(ps));
  }

  /** What the leaderboard keeps of the players it was sorted from: their number, each
      of them, and the winners. */
  lemma LeaderboardKeeps(ps: seq<Player>)
    requires |ps| > 0
    ensures var t := SortByScore(ps);
      |t| == |ps| && (forall q :: q in t ==> q in ps) && Winners(t) == Winners(ps)
  {
    var t := SortByScore(ps);
    SortByScorePermutes(ps);
    SortKeepsWinners(ps);
    forall q | q in t ensures q in ps {
      assert q in multiset(t);
    }
    assert |t| == |multiset(t)| == |multiset(ps)| == |ps|;
  }

  /** The head of a sorted sequence has its lowest score. */
  lemma HeadIsLowest(t: seq<Player>, x: Player)
    requires SortedByScore(t) && |t| > 0 && x in t
    ensures t[0].score <= x.score
  {
    var i :| 0 <= i < |t| && t[i] == x;
    assert i == 0 || t[0].score <= t[i].score;
  }

  /** A player the filter for their own score keeps occurs in the original. */
  lemma InWithScore(ps: seq<Player>, x: Player)
    requires x in WithScore(ps, x.score)
    ensures x in ps
  {
    WithScoreCorrect(ps, x.score);
    assert multiset(WithScore(ps, x.score))[x] > 0;
  }

  /** The filter for the first player's score keeps that player. */
  lemma HeadKept(t: seq<Player>)
    requires |t| > 0
    ensures WithScore(t, t[0].score) != []
  {
  }

  /** Two sorted sequences that agree on the players of every score start alike. */
  lemma HeadsAgree(t: seq<Player>, u: seq<Player>)
    requires SortedByScore(t) && SortedByScore(u) && t != [] && u != []
    requires forall k :: WithScore(t, k) == WithScore(u, k)
    ensures t[0] == u[0]
  {
    var a, b := t[0], u[0];
    assert WithScore(t, a.score) == [a] + WithScore(t[1..], a.score);
    assert WithScore(u, b.score) == [b] + WithScore(u[1..], b.score);
    InWithScore(u, a);
    InWithScore(t, b);
    HeadIsLowest(u, a);
    HeadIsLowest(t, b);
    assert a == WithScore(t, a.score)[0] == WithScore(u, b.score)[0] == b;
  }

  /** Sequences that start alike and agree on the players of every score still agree
      once the first player is dropped. */
  lemma TailsAgree(t: seq<Player>, u: seq<Player>)
    requires t != [] && u != [] && t[0] == u[0]
    requires forall k :: WithScore(t, k) == WithScore(u, k)
    ensures forall k :: WithScore(t[1..], k) == WithScore(u[1..], k)
  {
    forall k ensures WithScore(t[1..], k) == WithScore(u[1..], k) {
      var head := if t[0].score == k then [t[0]] else [];
      assert WithScore(t, k) == head + WithScore(t[1..], k);
      assert WithScore(u, k) == head + WithScore(u[1..], k);
      assert WithScore(t[1..], k) == WithScore(t, k)[|head|..];
      assert WithScore(u[1..], k) == WithScore(u, k)[|head|..];
    }
  }

  /** Two sorted sequences that agree on the players of every score, in order, are equal. */
  lemma {:induction false} SortedUnique(t: seq<Player>, u: seq<Player>)
    requires SortedByScore(t) && SortedByScore(u)
    requires forall k :: WithScore(t, k) == WithScore(u, k)
    ensures t == u
    decreases |t| + |u|
  {
    if t != [] && u != [] {
      HeadsAgree(t, u);
      TailsAgree(t, u);
      SortedUnique(t[1..], u[1..]);
      assert t == [t[0]] + t[1..] && u == [u[0]] + u[1..];
    } else if t != [] {
      HeadKept(t);
      assert false;
    } else if u != [] {
      HeadKept(u);
      assert false;
    }
  }

  /** The leaderboard is the only ascending arrangement of the players that keeps the
      entry order among equal scores, so it is what a stable sort by score yields. */
  lemma StableSortIsSortByScore(ps: seq<Player>, t: seq<Player>)
    requires SortedByScore(t)
    requires forall k :: WithScore(t, k) == WithScore(ps, k)
    ensures t == SortByScore(ps)
  {
    SortByScoreSorted(ps);
    forall k ensures WithScore(t, k) == WithScore(SortByScore(ps), k) {
      SortByScoreStable(ps, k);
    }
    SortedUnique(t, SortByScore(ps));
  }

  /** Names A–D with scores 3, 1, 1, 5 give the leaderboard B, C, A, D. */
  lemma LeaderboardExample()
    ensures SortByScore([Player("A", 3), Player("B", 1), Player("C", 1), Player("D", 5)])
      == [Player("B", 1), Player("C", 1), Player("A", 3), Player("D", 5)]
  {
    var a, b, c, d := Player("A", 3), Player("B", 1), Player("C", 1), Player("D", 5);
    var ps := [a, b, c, d];
    assert ps[..3] == [a, b, c] && [a, b, c][..2] == [a, b] && [a, b][..1] == [a] && [a][..0] == [];
    assert SortByScore([a]) == [a];
    assert SortByScore([a, b]) == [b, a];
    assert Insert(c, [b, a]) == [b] + Insert(c, [a]) == [b, c, a];
    assert SortByScore([a, b, c]) == [b, c, a];
    assert Insert(d, [b, c, a]) == [b] + Insert(d, [c, a]);
    assert Insert(d, [c, a]) == [c] + Insert(d, [a]);
    assert Insert(d, [a]) == [a] + Insert(d, []) == [a, d];
  }

  /** The leaderboard sort done step by step: each player in entry order is inserted
      into the sorted prefix after every entry that does not score more. */
  method SortPlayers(ps: seq<Player>) returns (sorted: seq<Player>)
    ensures sorted == SortByScore(ps)
  {
    sorted := [];
    var i := 0;
    while i < |ps|
      invariant 0 <= i <= |ps|
      invariant sorted == SortByScore(ps[..i])
    {
      var p := ps[i];
      var j := 0;
      while j < |sorted| && sorted[j].score <= p.score
        invariant 0 <= j <= |sorted|
        invariant forall m :: 0 <= m < j ==> sorted[m].score <= p.score
      {
        j := j + 1;
      }
      InsertAt(p, sorted, j);
      assert ps[..i + 1][..i] == ps[..i] && ps[..i + 1][i] == p;
      assert SortByScore(ps[..i + 1]) == Insert(p, sorted);
      sorted := sorted[..j] + [p] + sorted[j..];
      i := i + 1;
    }
    assert ps[..i] == ps;
  }
}
