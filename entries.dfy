/** The records the ledger stores, the validation of the transaction form, and
    the per-entry rewrites (map and filter) that editing and deleting apply. */
module Entries {
  import opened Text

  datatype Option<T> = None | Some(value: T)

  /** A calendar date as the date input yields it; time of day plays no part. */
  datatype Date = Date(year: int, month: int, day: int)

  /** The month a date falls in, which keys the monthly grouping. */
  datatype Month = Month(year: int, month: int)

  function MonthOf(d: Date): Month {
    Month(d.year, d.month)
  }

  /** a is a strictly earlier day than b. */
  predicate DateBefore(a: Date, b: Date) {
    a.year < b.year || (a.year == b.year && (a.month < b.month || (a.month == b.month && a.day < b.day)))
  }

  /** a is a strictly earlier month than b. */
  predicate MonthBefore(a: Month, b: Month) {
    a.year < b.year || (a.year == b.year && a.month < b.month)
  }

  /** One stored entry. `kind` is the form's type field: "income" marks
      income and any other value is treated as an expense. */
  datatype Transaction = Transaction(id: int, name: string, amount: real, kind: string, category: string, date: Date)

  /** The fields of an entry other than its id, after validation. */
  datatype Draft = Draft(name: string, amount: real, kind: string, category: string, date: Date)

  /** What the transaction form holds on submit: the raw name, the parsed amount
      (None when parsing gives NaN), the selected type and category, and the
      date (None when the date field is empty). */
  datatype FormInput = FormInput(name: string, amount: Option<real>, kind: string, category: string, date: Option<Date>)

  predicate IsIncome(t: Transaction) {
    t.kind == "income"
  }

  /** The submit guard: the input is refused exactly when the name is all white
      space, the amount is NaN or the date is missing. Negative amounts pass. */
  function Validate(f: FormInput): (r: Option<Draft>)
    ensures r.None? <==> AllWhiteSpace(f.name) || f.amount.None? || f.date.None?
    ensures r.Some? ==> r.value.name == Trim(f.name) && r.value.name != []
    ensures r.Some? ==> r.value.amount == f.amount.value && r.value.date == f.date.value
    ensures r.Some? ==> r.value.kind == f.kind && r.value.category == f.category
  {
    var name := Trim(f.name);
    if name == [] || f.amount.None? || f.date.None? then None
    else Some(Draft(name, f.amount.value, f.kind, f.category, f.date.value))
  }

  /** The entry with the given id and the draft's fields. */
  function Stamp(d: Draft, id: int): Transaction {
    Transaction(id, d.name, d.amount, d.kind, d.category, d.date)
  }

  /** The ids present in a ledger. */
  function Ids(s: seq<Transaction>): (r: set<int>)
    ensures forall i :: 0 <= i < |s| ==> s[i].id in r
    ensures forall id :: id in r ==> exists i :: 0 <= i < |s| && s[i].id == id
  {
    set i | 0 <= i < |s| :: s[i].id
  }

  /** No two entries share an id. */
  predicate UniqueIds(s: seq<Transaction>) {
    forall i, j :: 0 <= i < j < |s| ==> s[i].id != s[j].id
  }

  /** The update branch of submit: every entry with the edited id takes the
      draft's fields and keeps its id; every other entry is left as it is. */
  function ApplyEdit(s: seq<Transaction>, id: int, d: Draft): (r: seq<Transaction>)
    ensures |r| == |s|
    ensures forall i :: 0 <= i < |s| ==> r[i].id == s[i].id
    ensures forall i :: 0 <= i < |s| && s[i].id == id ==> r[i] == Stamp(d, id)
    ensures forall i :: 0 <= i < |s| && s[i].id != id ==> r[i] == s[i]
  {
    if s == [] then []
    else [if s[0].id == id then Stamp(d, s[0].id) else s[0]] + ApplyEdit(s[1..], id, d)
  }

  /** Submitting while the edited entry no longer exists changes nothing:
      no entry carries the id, so the update branch rewrites none. */
  lemma ApplyEditAbsent(s: seq<Transaction>, id: int, d: Draft)
    requires id !in Ids(s)
    ensures ApplyEdit(s, id, d) == s
  {
    var r := ApplyEdit(s, id, d);
    forall i | 0 <= i < |s| ensures r[i] == s[i] {
      assert s[i].id in Ids(s);
    }
  }

  /** Delete: the entries whose id differs from the argument, in their order. */
  function Without(s: seq<Transaction>, id: int): (r: seq<Transaction>)
    ensures |r| <= |s|
  {
    if s == [] then []
    else if s[0].id == id then Without(s[1..], id)
    else [s[0]] + Without(s[1..], id)
  }

  /** Delete keeps exactly the entries whose id differs from the argument. */
  lemma {:induction false} WithoutMembers(s: seq<Transaction>, id: int)
    ensures forall t :: t in Without(s, id) <==> t in s && t.id != id
  {
    if s != [] {
      WithoutMembers(s[1..], id);
      assert s == [s[0]] + s[1..];
    }
  }

  /** Deleting an id no entry carries changes nothing. */
  lemma {:induction false} WithoutAbsent(s: seq<Transaction>, id: int)
    requires id !in Ids(s)
    ensures Without(s, id) == s
  {
    if s != [] {
      assert s[0].id in Ids(s);
      assert Ids(s[1..]) <= Ids(s) by {
        forall x | x in Ids(s[1..]) ensures x in Ids(s) {
          var k :| 0 <= k < |s[1..]| && s[1..][k].id == x;
          assert s[k + 1].id == x;
        }
      }
      WithoutAbsent(s[1..], id);
      assert s == [s[0]] + s[1..];
    }
  }

  /** Delete acts on each part of a ledger separately, so the kept entries stay
      in their original order. */
  lemma {:induction false} WithoutConcat(a: seq<Transaction>, b: seq<Transaction>, id: int)
    ensures Without(a + b, id) == Without(a, id) + Without(b, id)
  {
    if a != [] {
      assert (a + b)[1..] == a[1..] + b;
      WithoutConcat(a[1..], b, id);
    } else {
      assert a + b == b;
    }
  }

  /** Deleting the same id twice is the same as deleting it once. */
  lemma WithoutIdempotent(s: seq<Transaction>, id: int)
    ensures Without(Without(s, id), id) == Without(s, id)
  {
    var r := Without(s, id);
    WithoutMembers(s, id);
    assert id !in Ids(r);
    WithoutAbsent(r, id);
  }

  /** Adding an entry with a fresh id and then deleting that id gives back the
      ledger as it was. */
  lemma AddThenDelete(s: seq<Transaction>, d: Draft, id: int)
    requires id !in Ids(s)
    ensures Without(s + [Stamp(d, id)], id) == s
  {
    WithoutConcat(s, [Stamp(d, id)], id);
    WithoutAbsent(s, id);
    assert [Stamp(d, id)][1..] == [];
  }

  /** Editing keeps the set of ids, so it keeps them unique. */
  lemma ApplyEditKeepsIds(s: seq<Transaction>, id: int, d: Draft)
    ensures Ids(ApplyEdit(s, id, d)) == Ids(s)
    ensures UniqueIds(s) ==> UniqueIds(ApplyEdit(s, id, d))
  {
    var r := ApplyEdit(s, id, d);
    assert forall x :: x in Ids(r) ==> x in Ids(s);
  }

  /** Deleting keeps ids unique. */
  lemma {:induction false} WithoutKeepsUnique(s: seq<Transaction>, id: int)
    requires UniqueIds(s)
    ensures UniqueIds(Without(s, id))
  {
    if s != [] {
      WithoutKeepsUnique(s[1..], id);
      var rest := Without(s[1..], id);
      if s[0].id != id {
        WithoutMembers(s[1..], id);
        forall t | t in rest ensures t.id != s[0].id {
          assert t in s[1..];
        }
      }
    }
  }

  /** Appending an entry whose id is fresh keeps ids unique. */
  lemma AppendKeepsUnique(s: seq<Transaction>, t: Transaction)
    requires UniqueIds(s) && t.id !in Ids(s)
    ensures UniqueIds(s + [t])
  {
  }
}
