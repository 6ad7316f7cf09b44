/** The ledger's state and the handlers that change it: submitting the
    transaction form (add or update), arming and cancelling an edit, deleting
    an entry, setting the savings goal, and sorting the list for display. */
module Budget {
  import opened Entries
  import opened DisplaySort
  import Aggregation

  /** The savings goal used when none is stored. */
  const DefaultSavingsGoal: real := 5000.0

  /** The goal in effect after loading: the stored value when there is one that
      is not zero, and the default otherwise (absent and zero are both falsy).
      It is never zero, so the progress percentage is always defined. */
  function LoadGoal(stored: Option<real>): (goal: real)
    ensures goal != 0.0
    ensures stored.Some? && stored.value != 0.0 ==> goal == stored.value
    ensures !(stored.Some? && stored.value != 0.0) ==> goal == DefaultSavingsGoal
  {
    if stored.Some? && stored.value != 0.0 then stored.value else DefaultSavingsGoal
  }

  /** The guard of the goal form: a number (not NaN) greater than zero. */
  predicate AcceptableGoal(value: Option<real>) {
    value.Some? && value.value > 0.0
  }

  /** A pending edit is a set id that is truthy, that is, not the number 0. */
  predicate IsPending(editing: Option<int>) {
    editing.Some? && editing.value != 0
  }

  /** The entries after an accepted submit: the update branch when an edit is
      pending, the add branch (one new entry with id `now` at the end) otherwise. */
  function Submitted(ts: seq<Transaction>, editing: Option<int>, d: Draft, now: int): (r: seq<Transaction>)
    ensures IsPending(editing) ==> r == ApplyEdit(ts, editing.value, d)
    ensures IsPending(editing) ==> |r| == |ts| && Ids(r) == Ids(ts)
    ensures !IsPending(editing) ==> |r| == |ts| + 1 && r[..|ts|] == ts && r[|ts|] == Stamp(d, now)
  {
    if IsPending(editing) then
      ApplyEditKeepsIds(ts, editing.value, d);
      ApplyEdit(ts, editing.value, d)
    else ts + [Stamp(d, now)]
  }

  /** Submitting keeps ids unique, provided the id an add takes is fresh; the
      source takes it from the clock and does not check it. */
  lemma SubmittedKeepsUnique(ts: seq<Transaction>, editing: Option<int>, d: Draft, now: int)
    requires UniqueIds(ts)
    requires !IsPending(editing) ==> now !in Ids(ts)
    ensures UniqueIds(Submitted(ts, editing, d, now))
  {
    if IsPending(editing) {
      ApplyEditKeepsIds(ts, editing.value, d);
    } else {
      AppendKeepsUnique(ts, Stamp(d, now));
    }
  }

  /** An edit armed for an entry that has since been deleted is still pending;
      submitting then updates nothing and adds nothing, and the input is lost. */
  lemma SubmitForDeletedEntry(ts: seq<Transaction>, editing: Option<int>, d: Draft, now: int)
    requires IsPending(editing) && editing.value !in Ids(ts)
    ensures Submitted(ts, editing, d, now) == ts
  {
    ApplyEditAbsent(ts, editing.value, d);
  }

  /** Adding an entry and then deleting it by the id it was given gives back
      the entries as they were. */
  lemma AddThenDeleteRestores(ts: seq<Transaction>, editing: Option<int>, d: Draft, now: int)
    requires !IsPending(editing) && now !in Ids(ts)
    ensures Without(Submitted(ts, editing, d, now), now) == ts
  {
    AddThenDelete(ts, d, now);
  }

  class Ledger {
    /** The entries, in stored order until the list is sorted for display. */
    var transactions: array<Transaction>
    var savingsGoal: real
    /** The id of the entry the form is editing; None stands for null. */
    var editingTransactionId: Option<int>

    /** What the store holds under "budgetTransactions" and "savingsGoal". */
    ghost var storedTransactions: seq<Transaction>
    ghost var storedGoal: Option<real>

    /** Reloading would give back the same goal and the same entries, though
        possibly in the order they had before the last display sort. */
    ghost predicate Valid()
      reads this, transactions
    {
      && savingsGoal == LoadGoal(storedGoal)
      && multiset(storedTransactions) == multiset(transactions[..])
    }

    /** A valid ledger's goal is never zero, so the dashboard's progress
        percentage is always defined. */
    lemma GoalIsUsable()
      requires Valid()
      ensures savingsGoal != 0.0
      ensures storedGoal.None? ==> savingsGoal == DefaultSavingsGoal
    {
    }

    /** The submit handler takes the update branch when the edited id is truthy. */
    predicate EditPending()
      reads this
    {
      IsPending(editingTransactionId)
    }

    /** Start-up: the stored entries, or none; the stored goal, or 5000; no edit. */
    constructor Load(stored: Option<seq<Transaction>>, goal: Option<real>)
      ensures Valid() && fresh(transactions)
      ensures transactions[..] == (if stored.Some? then stored.value else [])
      ensures savingsGoal == LoadGoal(goal)
      ensures editingTransactionId == None
      ensures storedTransactions == transactions[..] && storedGoal == goal
    {
      var ts := if stored.Some? then stored.value else [];
      transactions := new Transaction[|ts|](i requires 0 <= i < |ts| => ts[i]);
      savingsGoal := LoadGoal(goal);
      editingTransactionId := None;
      storedTransactions := ts;
      storedGoal := goal;
      new;
      assert transactions[..] == ts;
    }

    /** Submitting the transaction form. Invalid input changes nothing. Valid
        input either rewrites the entries carrying the edited id (keeping that
        id) or appends one new entry with the id `now`; the result is saved, the
        form is reset, which clears the pending edit, and the list is rendered,
        which sorts the entries for display. */
    method Submit(input: FormInput, now: int) returns (accepted: bool)
      requires Valid()
      modifies this
      ensures Valid()
      ensures accepted == Validate(input).Some?
      ensures !accepted ==> unchanged(this)
      ensures accepted ==> fresh(transactions) && editingTransactionId == None
      ensures accepted ==> storedTransactions
                           == Submitted(old(transactions[..]), old(editingTransactionId), Validate(input).value, now)
      ensures accepted ==> ShownAs(transactions[..], storedTransactions)
      ensures savingsGoal == old(savingsGoal) && storedGoal == old(storedGoal)
    {
      var draft := Validate(input);
      if draft.None? {
        return false;
      }
      Commit(draft.value, now);
      RenderTransactions();
      accepted := true;
    }

    /** An accepted submit: the update or the add branch, then the form reset. */
    method Commit(draft: Draft, now: int)
      requires Valid()
      modifies this`transactions, this`storedTransactions, this`editingTransactionId
      ensures Valid()
      ensures fresh(transactions) && editingTransactionId == None
      ensures transactions[..] == storedTransactions
                           == Submitted(old(transactions[..]), old(editingTransactionId), draft, now)
    {
      if EditPending() {
        UpdateEdited(draft);
      } else {
        Append(draft, now);
      }
      Reset();
    }

    /** The update branch of submit: the entries carrying the edited id take the
        draft's fields, the ledger is saved and the pending edit is cleared. */
    method UpdateEdited(draft: Draft)
      requires Valid() && EditPending()
      modifies this`transactions, this`storedTransactions, this`editingTransactionId
      ensures Valid()
      ensures fresh(transactions) && storedTransactions == transactions[..]
      ensures transactions[..] == ApplyEdit(old(transactions[..]), old(editingTransactionId.value), draft)
      ensures editingTransactionId == None
    {
      var ts := transactions[..];
      Save(ApplyEdit(ts, editingTransactionId.value, draft));
      editingTransactionId := None;
    }

    /** The add branch of submit: one new entry with id `now` goes at the end
        and the ledger is saved. */
    method Append(draft: Draft, now: int)
      requires Valid()
      modifies this`transactions, this`storedTransactions
      ensures Valid()
      ensures fresh(transactions) && storedTransactions == transactions[..]
      ensures transactions[..] == old(transactions[..]) + [Stamp(draft, now)]
    {
      var ts := transactions[..];
      Save(ts + [Stamp(draft, now)]);
    }

    /** Replaces the entries and writes them to the store. */
    method Save(updated: seq<Transaction>)
      modifies this`transactions, this`storedTransactions
      ensures fresh(transactions) && transactions[..] == updated && storedTransactions == updated
    {
      transactions := new Transaction[|updated|](i requires 0 <= i < |updated| => updated[i]);
      assert transactions[..] == updated;
      storedTransactions := updated;
    }

    /** Arms an edit of the entry with this id, if there is one. */
    method Edit(id: int)
      requires Valid()
      modifies this`editingTransactionId
      ensures Valid()
      ensures editingTransactionId == if id in Ids(transactions[..]) then Some(id) else old(editingTransactionId)
    {
      if id in Ids(transactions[..]) {
        editingTransactionId := Some(id);
      }
    }

    /** Resetting the form cancels any pending edit. */
    method Reset()
      requires Valid()
      modifies this`editingTransactionId
      ensures Valid()
      ensures editingTransactionId == None
    {
      editingTransactionId := None;
    }

    /** Deleting, once the user has confirmed: every entry with this id goes,
        the rest are saved in their order and the list is rendered. A pending
        edit is left as it is. */
    method Delete(id: int, confirmed: bool)
      requires Valid()
      modifies this
      ensures Valid()
      ensures confirmed ==> fresh(transactions) && storedTransactions == Without(old(transactions[..]), id)
                            && ShownAs(transactions[..], storedTransactions)
      ensures !confirmed ==> unchanged(this)
      ensures editingTransactionId == old(editingTransactionId)
      ensures savingsGoal == old(savingsGoal) && storedGoal == old(storedGoal)
    {
      if confirmed {
        Save(Without(transactions[..], id));
        RenderTransactions();
      }
    }

    /** Setting the goal: a value that is NaN or not positive is refused and
        changes nothing; otherwise it replaces the goal and is saved. */
    method SetGoal(value: Option<real>) returns (accepted: bool)
      requires Valid()
      modifies this`savingsGoal, this`storedGoal
      ensures Valid()
      ensures accepted == AcceptableGoal(value)
      ensures accepted ==> savingsGoal == value.value && storedGoal == value
      ensures !accepted ==> savingsGoal == old(savingsGoal) && storedGoal == old(storedGoal)
    {
      if !AcceptableGoal(value) {
        return false;
      }
      savingsGoal := value.value;
      storedGoal := value;
      accepted := true;
    }

    /** Rendering the list sorts the entries in place, newest first and stable,
        without saving them; every figure the dashboard derives is unchanged. */
    method RenderTransactions()
      requires Valid()
      modifies transactions
      ensures Valid()
      ensures ShownAs(transactions[..], old(transactions[..]))
      ensures forall sel :: Aggregation.Sum(transactions[..], sel) == Aggregation.Sum(old(transactions[..]), sel)
    {
      if transactions.Length == 0 {
        return;
      }
      ghost var before := transactions[..];
      SortNewestFirst(transactions);
      forall sel ensures Aggregation.Sum(transactions[..], sel) == Aggregation.Sum(before, sel) {
        Aggregation.SumPermutation(transactions[..], before, sel);
      }
    }
  }
}
