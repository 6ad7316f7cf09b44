/** The order in which the transaction list is shown: the ledger's array is
    sorted in place, newest date first, by a stable sort, so entries of the same
    day keep their relative order. */
module DisplaySort {
  import opened Entries

  /** No entry is dated strictly earlier than an entry after it. */
  predicate NewestFirst(s: seq<Transaction>) {
    forall i, j :: 0 <= i < j < |s| ==> !DateBefore(s[i].date, s[j].date)
  }

  /** The entries dated d, in the order they appear in s. */
  function OnDate(s: seq<Transaction>, d: Date): seq<Transaction>
    decreases |s|
  {
    if s == [] then []
    else OnDate(s[..|s| - 1], d) + (if s[|s| - 1].date == d then [s[|s| - 1]] else [])
  }

  lemma {:induction false} OnDateConcat(a: seq<Transaction>, b: seq<Transaction>, d: Date)
    ensures OnDate(a + b, d) == OnDate(a, d) + OnDate(b, d)
    decreases |b|
  {
    if b == [] {
      assert a + b == a;
    } else {
      var b' := b[..|b| - 1];
      assert (a + b)[..|a + b| - 1] == a + b';
      OnDateConcat(a, b', d);
    }
  }

  lemma {:induction false} OnDateAbsent(s: seq<Transaction>, d: Date)
    requires forall k :: 0 <= k < |s| ==> s[k].date != d
    ensures OnDate(s, d) == []
    decreases |s|
  {
    if s != [] {
      OnDateAbsent(s[..|s| - 1], d);
    }
  }

  /** Placing x after every entry that is not older than it and before the
      entries that are strictly older keeps the order newest first. */
  lemma InsertKeepsNewestFirst(prefix: seq<Transaction>, j: nat, x: Transaction)
    requires NewestFirst(prefix) && j <= |prefix|
    requires j > 0 ==> !DateBefore(prefix[j - 1].date, x.date)
    requires forall k :: j <= k < |prefix| ==> DateBefore(prefix[k].date, x.date)
    ensures NewestFirst(prefix[..j] + [x] + prefix[j..])
  {
    var r := prefix[..j] + [x] + prefix[j..];
    forall p, q | 0 <= p < q < |r| ensures !DateBefore(r[p].date, r[q].date) {
      if q == j {
        assert r[p] == prefix[p];
        assert !DateBefore(prefix[p].date, prefix[j - 1].date);
      } else if p == j {
        assert r[q] == prefix[q - 1];
      } else {
        assert r[p] == prefix[if p < j then p else p - 1];
        assert r[q] == prefix[if q < j then q else q - 1];
      }
    }
  }

  /** Placed before only strictly older entries, x comes last among the
      entries of its own day, as it would if appended. */
  lemma InsertKeepsDayOrder(prefix: seq<Transaction>, j: nat, x: Transaction, d: Date)
    requires j <= |prefix|
    requires forall k :: j <= k < |prefix| ==> DateBefore(prefix[k].date, x.date)
    ensures OnDate(prefix[..j] + [x] + prefix[j..], d) == OnDate(prefix + [x], d)
  {
    assert prefix == prefix[..j] + prefix[j..];
    OnDateConcat(prefix[..j] + [x], prefix[j..], d);
    OnDateConcat(prefix[..j], [x], d);
    OnDateConcat(prefix[..j], prefix[j..], d);
    OnDateConcat(prefix, [x], d);
    assert [x][..0] == [];
    if x.date == d {
      OnDateAbsent(prefix[j..], d);
    }
  }

  /** Appending the same entry to two sequences with the same per-day order
      gives two sequences with the same per-day order. */
  lemma AppendKeepsDayOrder(r: seq<Transaction>, s: seq<Transaction>, x: Transaction, d: Date)
    requires OnDate(r, d) == OnDate(s, d)
    ensures OnDate(r + [x], d) == OnDate(s + [x], d)
  {
    OnDateConcat(r, [x], d);
    OnDateConcat(s, [x], d);
  }

  /** Inserting x at a position where it stands behind every entry not older
      than it and before only strictly older ones gives a sequence sorted newest
      first that is a stable reordering of prefix + [x]. */
  lemma InsertStep(prefix: seq<Transaction>, j: nat, x: Transaction)
    requires NewestFirst(prefix) && j <= |prefix|
    requires j > 0 ==> !DateBefore(prefix[j - 1].date, x.date)
    requires forall k :: j <= k < |prefix| ==> DateBefore(prefix[k].date, x.date)
    ensures NewestFirst(prefix[..j] + [x] + prefix[j..])
    ensures forall d :: OnDate(prefix[..j] + [x] + prefix[j..], d) == OnDate(prefix + [x], d)
    ensures multiset(prefix[..j] + [x] + prefix[j..]) == multiset(prefix + [x])
  {
    InsertKeepsNewestFirst(prefix, j, x);
    forall d ensures OnDate(prefix[..j] + [x] + prefix[j..], d) == OnDate(prefix + [x], d) {
      InsertKeepsDayOrder(prefix, j, x, d);
    }
    assert prefix == prefix[..j] + prefix[j..];
  }

  /** shown is s as a stable sort puts it newest first: the same entries,
      ordered by date, those of one day in the order they have in s. */
  ghost predicate ShownAs(shown: seq<Transaction>, s: seq<Transaction>) {
    && NewestFirst(shown)
    && (forall d :: OnDate(shown, d) == OnDate(s, d))
    && multiset(shown) == multiset(s)
  }

  lemma OnDateSnoc(p: seq<Transaction>, x: Transaction, d: Date)
    ensures OnDate(p + [x], d) == OnDate(p, d) + (if x.date == d then [x] else [])
  {
    assert (p + [x])[..|p|] == p;
  }

  /** Sorted newest first with the same entries, two sequences end on the
      same date: the oldest one. */
  lemma LastDatesAgree(r1: seq<Transaction>, r2: seq<Transaction>)
    requires NewestFirst(r1) && NewestFirst(r2) && multiset(r1) == multiset(r2) && r1 != []
    ensures |r2| == |r1| && r1[|r1| - 1].date == r2[|r2| - 1].date
  {
    assert |r1| == |multiset(r1)| == |multiset(r2)| == |r2|;
    var n := |r1| - 1;
    var x1, x2 := r1[n], r2[n];
    assert x1 in multiset(r2) && x2 in multiset(r1);
    var k1 :| 0 <= k1 < |r2| && r2[k1] == x1;
    var k2 :| 0 <= k2 < |r1| && r1[k2] == x2;
    assert !DateBefore(x1.date, x2.date) by {
      if k1 < n {
        assert !DateBefore(r2[k1].date, r2[n].date);
      }
    }
    assert !DateBefore(x2.date, x1.date) by {
      if k2 < n {
        assert !DateBefore(r1[k2].date, r1[n].date);
      }
    }
  }

  /** With the same entries of the last entry's day, in the same order, two
      sequences ending on that day end on the same entry and agree on that day
      before it. */
  lemma SameLastOfDay(p1: seq<Transaction>, x1: Transaction, p2: seq<Transaction>, x2: Transaction)
    requires x1.date == x2.date
    requires OnDate(p1 + [x1], x1.date) == OnDate(p2 + [x2], x1.date)
    ensures x1 == x2 && OnDate(p1, x1.date) == OnDate(p2, x1.date)
  {
    var d := x1.date;
    OnDateSnoc(p1, x1, d);
    OnDateSnoc(p2, x2, d);
    var o := OnDate(p1 + [x1], d);
    assert o[..|o| - 1] == OnDate(p1, d) && o[|o| - 1] == x1;
    assert o[..|o| - 1] == OnDate(p2, d) && o[|o| - 1] == x2;
  }

  /** Dropping a last entry of day d leaves the other days as they were. */
  lemma OtherDaysBeforeLast(p1: seq<Transaction>, x1: Transaction, p2: seq<Transaction>, x2: Transaction)
    requires x1 == x2 && OnDate(p1, x1.date) == OnDate(p2, x1.date)
    requires forall e :: OnDate(p1 + [x1], e) == OnDate(p2 + [x2], e)
    ensures forall e :: OnDate(p1, e) == OnDate(p2, e)
  {
    forall e | e != x1.date ensures OnDate(p1, e) == OnDate(p2, e) {
      OnDateSnoc(p1, x1, e);
      OnDateSnoc(p2, x2, e);
      assert OnDate(p1, e) == OnDate(p1 + [x1], e) == OnDate(p2 + [x2], e) == OnDate(p2, e);
    }
  }

  /** Two sequences sorted newest first with the same entries and the same
      order within each day end on the same entry, and what comes before it is
      again two such sequences. */
  lemma DropLastShown(r1: seq<Transaction>, r2: seq<Transaction>)
    requires ShownAs(r1, r2) && NewestFirst(r2) && r1 != []
    ensures |r1| == |r2| && r1[|r1| - 1] == r2[|r2| - 1]
    ensures ShownAs(r1[..|r1| - 1], r2[..|r2| - 1]) && NewestFirst(r2[..|r2| - 1])
  {
    LastDatesAgree(r1, r2);
    var n := |r1| - 1;
    var p1, x1 := r1[..n], r1[n];
    var p2, x2 := r2[..n], r2[n];
    assert r1 == p1 + [x1] && r2 == p2 + [x2];
    SameLastOfDay(p1, x1, p2, x2);
    OtherDaysBeforeLast(p1, x1, p2, x2);
    SameWithoutLast(p1, x1, p2);
  }

  lemma SameWithoutLast(p1: seq<Transaction>, x: Transaction, p2: seq<Transaction>)
    requires multiset(p1 + [x]) == multiset(p2 + [x])
    ensures multiset(p1) == multiset(p2)
  {
    assert multiset(p1) == multiset(p1 + [x]) - multiset{x};
    assert multiset(p2) == multiset(p2 + [x]) - multiset{x};
  }

  /** Two sequences sorted newest first with the same entries and the same
      order within each day are equal. */
  lemma {:induction false} SortedOrderIsUnique(r1: seq<Transaction>, r2: seq<Transaction>)
    requires ShownAs(r1, r2) && NewestFirst(r2)
    ensures r1 == r2
    decreases |r1|
  {
    if r1 == [] {
      assert |r2| == |multiset(r2)| == 0;
    } else {
      DropLastShown(r1, r2);
      var n := |r1| - 1;
      SortedOrderIsUnique(r1[..n], r2[..n]);
      assert r1 == r1[..n] + [r1[n]] && r2 == r2[..n] + [r2[n]];
    }
  }

  /** A stable sort newest first has one possible outcome: any two orders
      that show the same entries as s are the same order. */
  lemma DisplayOrderIsDetermined(r1: seq<Transaction>, r2: seq<Transaction>, s: seq<Transaction>)
    requires ShownAs(r1, s) && ShownAs(r2, s)
    ensures r1 == r2
  {
    SortedOrderIsUnique(r1, r2);
  }

  /** Sorts the array newest first, in place, by insertion. */
  method SortNewestFirst(a: array<Transaction>)
    modifies a
    ensures ShownAs(a[..], old(a[..]))
  {
    ghost var original := a[..];
    for i := 0 to a.Length
      invariant NewestFirst(a[..i])
      invariant forall d :: OnDate(a[..i], d) == OnDate(original[..i], d)
      invariant multiset(a[..i]) == multiset(original[..i])
      invariant forall k :: i <= k < a.Length ==> a[k] == original[k]
    {
      ghost var before := a[..i];
      ghost var x := a[i];
      InsertNext(a, i, before, x);
      ghost var after := a[..i + 1];
      assert original[..i + 1] == original[..i] + [x];
      forall d ensures OnDate(after, d) == OnDate(original[..i + 1], d) {
        AppendKeepsDayOrder(before, original[..i], x, d);
      }
    }
    assert a[..a.Length] == a[..];
    assert original[..a.Length] == original;
  }

  /** Moves a[i] left past the entries of the sorted a[..i] that are strictly
      older than it, stopping behind the first one that is not. */
  method InsertNext(a: array<Transaction>, i: nat, ghost prefix: seq<Transaction>, ghost next: Transaction)
    requires i < a.Length && a[..i] == prefix && a[i] == next && NewestFirst(prefix)
    modifies a
    ensures NewestFirst(a[..i + 1])
    ensures forall d :: OnDate(a[..i + 1], d) == OnDate(prefix + [next], d)
    ensures multiset(a[..i + 1]) == multiset(prefix + [next])
    ensures forall k :: i < k < a.Length ==> a[k] == old(a[k])
  {
    var x := a[i];
    var j := ShiftOlder(a, i, prefix, next);
    ghost var shifted := a[..i + 1];
    a[j] := x;
    assert a[..i + 1] == shifted[j := x];
    FillGap(prefix, j, shifted[j], x);
    InsertStep(prefix, j, x);
  }

  /** Writing x into the gap left at position j puts x there. */
  lemma FillGap(prefix: seq<Transaction>, j: nat, y: Transaction, x: Transaction)
    requires j <= |prefix|
    ensures (prefix[..j] + [y] + prefix[j..])[j := x] == prefix[..j] + [x] + prefix[j..]
  {
  }

  /** Shifts one place right the run of entries before a[i] that are strictly
      older than a[i], and returns the position this frees. */
  method ShiftOlder(a: array<Transaction>, i: nat, ghost prefix: seq<Transaction>, ghost next: Transaction) returns (j: nat)
    requires i < a.Length && a[..i] == prefix && a[i] == next
    modifies a
    ensures j <= i
    ensures a[..i + 1] == prefix[..j] + [a[j]] + prefix[j..]
    ensures forall k :: j <= k < i ==> DateBefore(prefix[k].date, next.date)
    ensures j > 0 ==> !DateBefore(prefix[j - 1].date, next.date)
    ensures forall k :: i < k < a.Length ==> a[k] == old(a[k])
  {
    var x := a[i];
    j := i;
    while j > 0 && DateBefore(a[j - 1].date, x.date)
      invariant 0 <= j <= i
      invariant forall k :: 0 <= k < j ==> a[k] == prefix[k]
      invariant forall k :: j < k <= i ==> a[k] == prefix[k - 1]
      invariant forall k :: j <= k < i ==> DateBefore(prefix[k].date, x.date)
      invariant forall k :: i < k < a.Length ==> a[k] == old(a[k])
    {
      a[j] := a[j - 1];
      j := j - 1;
    }
    ghost var r := prefix[..j] + [a[j]] + prefix[j..];
    forall k | 0 <= k <= i ensures a[k] == r[k] {
      if k > j {
        assert r[k] == prefix[k - 1];
      }
    }
  }
}
