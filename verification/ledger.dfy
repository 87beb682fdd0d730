/** The high-score list kept by `saveHighScore` and emptied by
    `resetHighScores`: at most five entries, best score first. */
module Ledger {

  /** An ISO-8601 date string; its content plays no part in the list's order. */
  type Timestamp = string

  datatype Entry = Entry(score: int, date: Timestamp)

  /** How many entries the list keeps. */
  const CAPACITY: nat := 5

  /** Best score first. */
  predicate SortedDesc(s: seq<Entry>) {
    forall i, j :: 0 <= i < j < |s| ==> s[i].score >= s[j].score
  }

  /** A list as the game keeps it. */
  predicate Valid(s: seq<Entry>) {
    |s| <= CAPACITY && SortedDesc(s)
  }

  /** Every entry of `kept` scores at least as much as every entry of `dropped`. */
  predicate Dominates(kept: seq<Entry>, dropped: multiset<Entry>) {
    forall x, j :: x in dropped && 0 <= j < |kept| ==> x.score <= kept[j].score
  }

  /** Places `e` after every entry that scores at least as much as it: the
      step of a stable sort on the comparator `b.score - a.score`. */
  function Insert(s: seq<Entry>, e: Entry): (r: seq<Entry>)
    ensures |r| == |s| + 1
    ensures multiset(r) == multiset(s) + multiset{e}
    ensures SortedDesc(s) ==> SortedDesc(r)
    decreases |s|
  {
    if |s| == 0 then [e]
    else if s[0].score < e.score then
      assert SortedDesc(s) ==> SortedDesc([e] + s) by {
        if SortedDesc(s) {
          SortedCons(e, s);
        }
      }
      [e] + s
    else
      var rest := Insert(s[1..], e);
      InsertBehindHead(s, e, rest);
      [s[0]] + rest
  }

  /** Putting the head back in front of the tail with `e` inserted yields
      the whole list with `e` inserted. */
  lemma InsertBehindHead(s: seq<Entry>, e: Entry, rest: seq<Entry>)
    requires |s| > 0 && e.score <= s[0].score
    requires |rest| == |s| && multiset(rest) == multiset(s[1..]) + multiset{e}
    requires SortedDesc(s[1..]) ==> SortedDesc(rest)
    ensures multiset([s[0]] + rest) == multiset(s) + multiset{e}
    ensures SortedDesc(s) ==> SortedDesc([s[0]] + rest)
  {
    assert s == [s[0]] + s[1..];
    if SortedDesc(s) {
      HeadStaysFirst(s, e, rest);
    }
  }

  /** The head of a best-first list still leads once an entry no better
      than it is inserted behind it. */
  lemma HeadStaysFirst(s: seq<Entry>, e: Entry, rest: seq<Entry>)
    requires |s| > 0 && SortedDesc(s) && e.score <= s[0].score
    requires SortedDesc(rest) && multiset(rest) == multiset(s[1..]) + multiset{e}
    ensures SortedDesc([s[0]] + rest)
  {
    forall k | 0 <= k < |rest| ensures s[0].score >= rest[k].score {
      assert rest[k] in multiset(rest);
      if rest[k] != e {
        assert rest[k] in multiset(s[1..]);
        var i :| 0 <= i < |s[1..]| && s[1..][i] == rest[k];
        assert s[i + 1] == rest[k];
      }
    }
  }

  /** Stable sort, best score first: each entry is inserted after all
      earlier entries of equal score, as `Array.prototype.sort` keeps equal
      elements in their original order. */
  function SortDesc(s: seq<Entry>): (r: seq<Entry>)
    ensures |r| == |s|
    ensures multiset(r) == multiset(s)
    ensures SortedDesc(r)
    decreases |s|
  {
    if |s| == 0 then []
    else
      assert s == s[..|s| - 1] + [s[|s| - 1]];
      Insert(SortDesc(s[..|s| - 1]), s[|s| - 1])
  }

  /** The first `n` entries, or all of them if there are fewer. */
  function Take(s: seq<Entry>, n: nat): (r: seq<Entry>)
    ensures |r| == if |s| < n then |s| else n
    ensures r <= s
  {
    if |s| <= n then s else s[..n]
  }

  /** The list `saveHighScore` computes: the old list plus the new score,
      sorted best first, cut to five entries. */
  function SaveHighScore(ledger: seq<Entry>, score: int, date: Timestamp): (r: seq<Entry>)
    ensures |r| == if |ledger| + 1 < CAPACITY then |ledger| + 1 else CAPACITY
    ensures Valid(r)
    ensures multiset(r) <= multiset(ledger) + multiset{Entry(score, date)}
    ensures Dominates(r, multiset(ledger) + multiset{Entry(score, date)} - multiset(r))
  {
    var all := ledger + [Entry(score, date)];
    var sorted := SortDesc(all);
    TakeKeepsBest(sorted, CAPACITY);
    Take(sorted, CAPACITY)
  }

  /** The list `resetHighScores` leaves behind. */
  function ResetHighScores(): (r: seq<Entry>)
    ensures Valid(r) && |r| == 0
  {
    []
  }

  /** Cutting a sorted list keeps a sorted sub-multiset whose entries beat
      every entry cut off. */
  lemma TakeKeepsBest(s: seq<Entry>, n: nat)
    requires SortedDesc(s)
    ensures SortedDesc(Take(s, n))
    ensures multiset(Take(s, n)) <= multiset(s)
    ensures Dominates(Take(s, n), multiset(s) - multiset(Take(s, n)))
  {
    if |s| > n {
      assert Take(s, n) == s[..n];
      SplitMultiset(s, n);
      CutBelowKept(s, n);
    }
  }

  /** A list's entries are those of its first `n` plus those of the rest. */
  lemma SplitMultiset(s: seq<Entry>, n: nat)
    requires n <= |s|
    ensures multiset(s[..n]) <= multiset(s)
    ensures multiset(s) - multiset(s[..n]) == multiset(s[n..])
  {
    assert s == s[..n] + s[n..];
  }

  lemma CutBelowKept(s: seq<Entry>, n: nat)
    requires SortedDesc(s) && n <= |s|
    ensures Dominates(s[..n], multiset(s[n..]))
  {
    forall x: Entry, j: int | x in multiset(s[n..]) && 0 <= j < n
      ensures x.score <= s[..n][j].score
    {
      assert x in s[n..];
      var i :| n <= i < |s| && s[i] == x;
      assert s[..n][j] == s[j];
    }
  }

  /** Putting an entry in front of a best-first list keeps it best-first
      when the entry scores at least as much as the current head. */
  lemma SortedCons(a: Entry, s: seq<Entry>)
    requires SortedDesc(s)
    requires |s| > 0 ==> a.score >= s[0].score
    ensures SortedDesc([a] + s)
  {
  }

  /** Insertion puts the entry exactly between the entries that score at
      least as much and those that score less. */
  lemma {:induction false} InsertAt(s: seq<Entry>, e: Entry, k: nat)
    requires k <= |s|
    requires forall i :: 0 <= i < k ==> s[i].score >= e.score
    requires forall i :: k <= i < |s| ==> s[i].score < e.score
    ensures Insert(s, e) == s[..k] + [e] + s[k..]
    decreases |s|
  {
    if |s| == 0 {
    } else if s[0].score < e.score {
      assert k == 0;
    } else {
      assert 0 < k;
      var t := s[1..];
      InsertAt(t, e, k - 1);
      ConsSplit(s, e, k);
    }
  }

  /** Splitting the tail at `k - 1` and putting the head back is splitting
      the whole list at `k`. */
  lemma ConsSplit(s: seq<Entry>, e: Entry, k: nat)
    requires 0 < k <= |s|
    ensures [s[0]] + (s[1..][..k - 1] + [e] + s[1..][k - 1..]) == s[..k] + [e] + s[k..]
  {
    assert s[..k] == [s[0]] + s[1..][..k - 1];
    assert s[1..][k - 1..] == s[k..];
  }

  /** Inserting an entry that scores no more than any entry appends it. */
  lemma {:induction false} InsertLowest(s: seq<Entry>, e: Entry)
    requires forall i :: 0 <= i < |s| ==> e.score <= s[i].score
    ensures Insert(s, e) == s + [e]
    decreases |s|
  {
    if |s| > 0 {
      InsertLowest(s[1..], e);
    }
  }

  /** Sorting a list that is already best-first changes nothing. */
  lemma {:induction false} SortSorted(s: seq<Entry>)
    requires SortedDesc(s)
    ensures SortDesc(s) == s
    decreases |s|
  {
    if |s| > 0 {
      var pre := s[..|s| - 1];
      SortSorted(pre);
      InsertLowest(pre, s[|s| - 1]);
      assert pre + [s[|s| - 1]] == s;
    }
  }

  /** On a list kept by the game, saving slots the new score in after every
      entry that scores at least as much and drops the lowest if six entries
      result: a tie never displaces an older entry. */
  lemma SaveIntoValid(ledger: seq<Entry>, score: int, date: Timestamp)
    requires SortedDesc(ledger)
    ensures SaveHighScore(ledger, score, date) == Take(Insert(ledger, Entry(score, date)), CAPACITY)
  {
    var all := ledger + [Entry(score, date)];
    assert all[..|all| - 1] == ledger;
    SortSorted(ledger);
  }

  /** On a list kept by the game, the new score takes the rank after every
      entry that scores at least as much, and the list is cut to five. */
  lemma SaveAtRank(ledger: seq<Entry>, score: int, date: Timestamp, k: nat)
    requires SortedDesc(ledger) && k <= |ledger|
    requires forall i :: 0 <= i < k ==> ledger[i].score >= score
    requires forall i :: k <= i < |ledger| ==> ledger[i].score < score
    ensures SaveHighScore(ledger, score, date) == Take(ledger[..k] + [Entry(score, date)] + ledger[k..], CAPACITY)
  {
    SaveIntoValid(ledger, score, date);
    InsertAt(ledger, Entry(score, date), k);
  }
}
