// Sharing items out among targets: allocate and the turn-taking cursor
// (src/db.rs, allocate and practice_brief).
module RoundRobin {
  import opened Sums

  // How many of the turns 0 .. k-1 fall to target i when n targets take turns.
  function Visits(k: nat, n: nat, i: nat): nat
    requires n > 0
  {
    if k == 0 then 0 else Visits(k - 1, n, i) + (if (k - 1) % n == i then 1 else 0)
  }

  lemma NextTurn(k: nat, n: nat)
    requires n > 0
    ensures (k + 1) / n == (if k % n == n - 1 then k / n + 1 else k / n)
    ensures (k + 1) % n == (if k % n == n - 1 then 0 else k % n + 1)
  {
    var q, r := k / n, k % n;
    assert k == q * n + r;
    if r == n - 1 {
      assert k + 1 == (q + 1) * n;
      DividesExactly(k + 1, n, q + 1, 0);
    } else {
      DividesExactly(k + 1, n, q, r + 1);
    }
  }

  lemma {:induction false} AtLeastOnce(x: nat, n: nat)
    requires x > 0
    ensures x * n >= n
  {
    if x > 1 {
      AtLeastOnce(x - 1, n);
      assert x * n == (x - 1) * n + n;
    }
  }

  lemma QuotientUnique(n: nat, q: nat, r: nat, p: nat, s: nat)
    requires r < n && s < n && q * n + r == p * n + s
    ensures q == p && r == s
  {
    if q > p {
      AtLeastOnce(q - p, n);
    } else if q < p {
      AtLeastOnce(p - q, n);
    }
  }

  lemma DividesExactly(k: nat, n: nat, q: nat, r: nat)
    requires n > 0 && k == q * n + r && r < n
    ensures k / n == q && k % n == r
  {
    assert k == (k / n) * n + k % n;
    QuotientUnique(n, q, r, k / n, k % n);
  }

  // Shares differ by at most one, and the first targets get the larger ones.
  lemma {:induction false} VisitsClosed(k: nat, n: nat, i: nat)
    requires i < n
    ensures Visits(k, n, i) == k / n + (if i < k % n then 1 else 0)
  {
    if k > 0 {
      VisitsClosed(k - 1, n, i);
      NextTurn(k - 1, n);
    } else {
      DividesExactly(0, n, 0, 0);
    }
  }

  lemma {:induction false} VisitsAscend(j: nat, k: nat, n: nat, i: nat)
    requires n > 0 && j <= k
    ensures Visits(j, n, i) <= Visits(k, n, i)
  {
    if j < k {
      VisitsAscend(j, k - 1, n, i);
    }
  }

  // Visits counts: it is the number of turns k below total with k mod n = i.
  lemma {:induction false} VisitsCount(total: nat, n: nat, i: nat)
    requires n > 0
    ensures |set k: nat | k < total && k % n == i| == Visits(total, n, i)
  {
    if total > 0 {
      VisitsCount(total - 1, n, i);
      var before := set k: nat | k < total - 1 && k % n == i;
      var now := set k: nat | k < total && k % n == i;
      assert now == if (total - 1) % n == i then before + {total - 1} else before;
    }
  }

  lemma {:induction false} SumOfUpdate(s: seq<nat>, i: nat, x: nat)
    requires i < |s|
    ensures Sum(s[i := x]) == Sum(s) - s[i] + x
  {
    if i == |s| - 1 {
      assert s[i := x][..i] == s[..i];
    } else {
      assert s[i := x][..|s| - 1] == s[..|s| - 1][i := x];
      SumOfUpdate(s[..|s| - 1], i, x);
    }
  }

  lemma {:induction false} SumOfZeros(s: seq<nat>)
    requires forall i :: 0 <= i < |s| ==> s[i] == 0
    ensures Sum(s) == 0
  {
    if s != [] {
      SumOfZeros(s[..|s| - 1]);
    }
  }

  function Shares(k: nat, n: nat): (s: seq<nat>)
    requires n > 0
    ensures |s| == n
  {
    seq(n, i requires 0 <= i < n => Visits(k, n, i))
  }

  // The shares of k items add up to k.
  lemma {:induction false} SharesAddUp(k: nat, n: nat)
    requires n > 0
    ensures Sum(Shares(k, n)) == k
  {
    if k == 0 {
      SumOfZeros(Shares(0, n));
    } else {
      SharesAddUp(k - 1, n);
      var turn := (k - 1) % n;
      assert Shares(k, n) == Shares(k - 1, n)[turn := Shares(k - 1, n)[turn] + 1];
      SumOfUpdate(Shares(k - 1, n), turn, Shares(k - 1, n)[turn] + 1);
    }
  }

  lemma {:induction false} OneEach(n: nat, k: nat, i: nat)
    requires k <= n && n > 0
    ensures Visits(k, n, i) == if i < k then 1 else 0
  {
    if k > 0 {
      OneEach(n, k - 1, i);
      DividesExactly(k - 1, n, 0, k - 1);
    }
  }

  // One item each, then the rest in rounds: with enough items this is exactly
  // what taking turns gives every target.
  method Allocate(total: nat, len: nat) returns (out: seq<nat>)
    ensures len == 0 ==> out == []
    ensures len > 0 ==> out == Shares(if total <= len then len else total, len)
  {
    if len == 0 {
      return [];
    }
    out := seq(len, i => 1);
    var rest: nat := if total <= len then 0 else total - len;
    ghost var given := len;
    forall i | 0 <= i < len ensures Visits(len, len, i) == 1 { OneEach(len, len, i); }
    while rest > 0
      invariant given + rest == if total <= len then len else total
      invariant rest > 0 ==> given % len == 0
      invariant out == Shares(given, len)
    {
      ghost var start := rest;
      var i := 0;
      while i < len && rest > 0
        invariant 0 <= i <= len && rest <= start && (i > 0 ==> rest < start)
        invariant given + rest == if total <= len then len else total
        invariant given % len == (if i == len then 0 else i)
        invariant out == Shares(given, len)
      {
        out := out[i := out[i] + 1];
        rest := rest - 1;
        NextTurn(given, len);
        given := given + 1;
        i := i + 1;
      }
    }
  }

  // Position offset steps after the cursor, going round.
  function After(cursor: nat, offset: nat, n: nat): nat
    requires n > 0
  {
    (cursor + offset) % n
  }

  lemma AfterReaches(cursor: nat, i: nat, n: nat) returns (offset: nat)
    requires cursor < n && i < n
    ensures offset < n && After(cursor, offset, n) == i
  {
    if i >= cursor {
      offset := i - cursor;
      DividesExactly(i, n, 0, i);
    } else {
      offset := i + n - cursor;
      DividesExactly(i + n, n, 1, i);
    }
  }

  // The first target from the cursor on that still has items to come.
  method NextTarget(cursor: nat, occurrences: seq<nat>, allocations: seq<nat>) returns (found: bool, index: nat)
    requires cursor < |occurrences| == |allocations|
    ensures occurrences[cursor] < allocations[cursor] ==> found && index == cursor
    ensures found ==> index < |occurrences| && occurrences[index] < allocations[index]
    ensures !found ==> forall i :: 0 <= i < |occurrences| ==> occurrences[i] >= allocations[i]
  {
    var n := |occurrences|;
    DividesExactly(cursor, n, 0, cursor);
    assert After(cursor, 0, n) == cursor;
    var offset := 0;
    while offset < n
      invariant 0 <= offset <= n
      invariant forall o :: 0 <= o < offset ==> occurrences[After(cursor, o, n)] >= allocations[After(cursor, o, n)]
    {
      index := After(cursor, offset, n);
      if occurrences[index] < allocations[index] {
        return true, index;
      }
      offset := offset + 1;
    }
    found, index := false, 0;
    forall i | 0 <= i < n
      ensures occurrences[i] >= allocations[i]
    {
      var o := AfterReaches(cursor, i, n);
    }
  }

  // The cursor loop: which target each item goes to. With allocations that
  // share out the total it never runs out of turns, and item k gets k mod n.
  method TakeTurns(total: nat, allocations: seq<nat>) returns (covered: bool, turns: seq<nat>)
    requires allocations != [] && allocations == Shares(total, |allocations|)
    ensures covered && |turns| == total
    ensures forall k :: 0 <= k < total ==> turns[k] == k % |allocations|
  {
    var n := |allocations|;
    var occurrences := seq(n, i => 0);
    var cursor := 0;
    turns := [];
    DividesExactly(0, n, 0, 0);
    while |turns| < total
      invariant |turns| <= total
      invariant occurrences == Shares(|turns|, n) && cursor == |turns| % n
      invariant forall k :: 0 <= k < |turns| ==> turns[k] == k % n
    {
      VisitsAscend(|turns| + 1, total, n, cursor);
      var found, turn := NextTarget(cursor, occurrences, allocations);
      if !found {
        return false, turns;
      }
      occurrences := occurrences[turn := occurrences[turn] + 1];
      NextTurn(|turns|, n);
      NextTurn(turn, n);
      DividesExactly(turn, n, 0, turn);
      cursor := (turn + 1) % n;
      turns := turns + [turn];
    }
    covered := true;
  }
}
