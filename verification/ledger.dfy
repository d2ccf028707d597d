/** How the views change part stock. Two patterns occur:

    - a part row loaded earlier in the request (a form's cleaned data, a
      `select_related` join) is modified and saved: the save writes the whole
      loaded copy back, so the row ends up as that copy with its stock moved, and
      when the same part is saved several times the last save wins;
    - a part row loaded afresh for every item (a lazy foreign-key access) has the
      quantity subtracted and the result floored at zero before the save: the
      withdrawals accumulate. */
module Ledger {
  import opened Common
  import opened Records

  /** A stock change of `amount` for one part. */
  datatype Move = Move(part: Id, amount: real)

  predicate Covers(table: map<Id, Part>, moves: seq<Move>)
  {
    forall i :: 0 <= i < |moves| ==> moves[i].part in table
  }

  /** One save of a part whose row was loaded as `copy`: the copy's row with its
      stock moved by the amount replaces whatever the table holds. A part that is
      in neither table is left alone (the views only save existing parts). */
  function SaveCopy(table: map<Id, Part>, copy: map<Id, Part>, m: Move): (r: map<Id, Part>)
    ensures r.Keys == table.Keys
  {
    if m.part in table && m.part in copy then table[m.part := copy[m.part].(stock := copy[m.part].stock + m.amount)]
    else table
  }

  /** Saves from loaded copies, one after another over the current table. */
  function SaveCopies(current: map<Id, Part>, copy: map<Id, Part>, moves: seq<Move>): (r: map<Id, Part>)
    ensures r.Keys == current.Keys
    decreases |moves|
  {
    if moves == [] then current
    else SaveCopy(SaveCopies(current, copy, moves[..|moves| - 1]), copy, moves[|moves| - 1])
  }

  /** One more save extends the fold by one row write. */
  lemma SaveCopiesSnoc(current: map<Id, Part>, copy: map<Id, Part>, moves: seq<Move>, m: Move)
    ensures SaveCopies(current, copy, moves + [m]) == SaveCopy(SaveCopies(current, copy, moves), copy, m)
  {
    assert (moves + [m])[..|moves|] == moves;
  }

  /** A step of at most one save extends the fold by that save. */
  lemma SaveCopiesStep(current: map<Id, Part>, copy: map<Id, Part>, moves: seq<Move>, step: seq<Move>)
    requires |step| <= 1
    ensures SaveCopies(current, copy, moves + step) ==
            if step == [] then SaveCopies(current, copy, moves) else SaveCopy(SaveCopies(current, copy, moves), copy, step[0])
  {
    if step == [] {
      assert moves + step == moves;
    } else {
      assert step == [step[0]];
      SaveCopiesSnoc(current, copy, moves, step[0]);
    }
  }

  /** The amount of the last move naming `p`, if any. */
  function LastAmount(moves: seq<Move>, p: Id): Option<real>
    decreases |moves|
  {
    if moves == [] then None
    else if moves[|moves| - 1].part == p then Some(moves[|moves| - 1].amount)
    else LastAmount(moves[..|moves| - 1], p)
  }

  /** Last save wins: a part ends as its loaded copy moved by the amount of the
      last move naming it; a part no move names is untouched. */
  lemma {:induction false} SaveCopiesAt(current: map<Id, Part>, copy: map<Id, Part>, moves: seq<Move>, p: Id)
    requires Covers(copy, moves) && p in current
    ensures LastAmount(moves, p).None? ==> SaveCopies(current, copy, moves)[p] == current[p]
    ensures LastAmount(moves, p).Some? ==>
      p in copy &&
      SaveCopies(current, copy, moves)[p] == copy[p].(stock := copy[p].stock + LastAmount(moves, p).value)
    decreases |moves|
  {
    if moves != [] {
      var init := moves[..|moves| - 1];
      assert Covers(copy, init);
      if moves[|moves| - 1].part != p {
        SaveCopiesAt(current, copy, init, p);
      }
    }
  }

  /** No move names the part, so there is no last amount for it. */
  lemma {:induction false} LastAmountAbsent(moves: seq<Move>, p: Id)
    requires forall i :: 0 <= i < |moves| ==> moves[i].part != p
    ensures LastAmount(moves, p).None?
    decreases |moves|
  {
    if moves != [] {
      LastAmountAbsent(moves[..|moves| - 1], p);
    }
  }

  /** The moves name pairwise different parts. */
  predicate DistinctParts(moves: seq<Move>)
  {
    forall i, j :: 0 <= i < j < |moves| ==> moves[i].part != moves[j].part
  }

  function Floor0(x: real): real { if x < 0.0 then 0.0 else x }

  /** One withdrawal from a freshly read row: `stock = max(stock - amount, 0)`. */
  function Withdraw(table: map<Id, Part>, m: Move): (r: map<Id, Part>)
    ensures r.Keys == table.Keys
  {
    if m.part in table then table[m.part := table[m.part].(stock := Floor0(table[m.part].stock - m.amount))]
    else table
  }

  /** Withdrawals from freshly read rows, one after another. */
  function WithdrawFloored(current: map<Id, Part>, moves: seq<Move>): (r: map<Id, Part>)
    ensures r.Keys == current.Keys
    decreases |moves|
  {
    if moves == [] then current
    else Withdraw(WithdrawFloored(current, moves[..|moves| - 1]), moves[|moves| - 1])
  }

  /** One more withdrawal extends the fold by one row write. */
  lemma WithdrawSnoc(current: map<Id, Part>, moves: seq<Move>, m: Move)
    ensures WithdrawFloored(current, moves + [m]) == Withdraw(WithdrawFloored(current, moves), m)
  {
    assert (moves + [m])[..|moves|] == moves;
  }

  /** A step of at most one withdrawal extends the fold by that withdrawal. */
  lemma WithdrawStep(current: map<Id, Part>, moves: seq<Move>, step: seq<Move>)
    requires |step| <= 1
    ensures WithdrawFloored(current, moves + step) ==
            if step == [] then WithdrawFloored(current, moves) else Withdraw(WithdrawFloored(current, moves), step[0])
  {
    if step == [] {
      assert moves + step == moves;
    } else {
      assert step == [step[0]];
      WithdrawSnoc(current, moves, step[0]);
    }
  }

  /** The total amount of the moves naming `p`. */
  function AmountFor(moves: seq<Move>, p: Id): real
    decreases |moves|
  {
    if moves == [] then 0.0
    else AmountFor(moves[..|moves| - 1], p) + (if moves[|moves| - 1].part == p then moves[|moves| - 1].amount else 0.0)
  }

  lemma {:induction false} AmountForNone(moves: seq<Move>, p: Id)
    requires forall i :: 0 <= i < |moves| ==> moves[i].part != p
    ensures AmountFor(moves, p) == 0.0
    decreases |moves|
  {
    if moves != [] {
      AmountForNone(moves[..|moves| - 1], p);
    }
  }

  /** When every part is saved at most once from the current rows, each part
      moves by exactly the amount meant for it, and nothing is lost. */
  lemma {:induction false} SaveDistinct(current: map<Id, Part>, moves: seq<Move>, p: Id)
    requires Covers(current, moves) && DistinctParts(moves) && p in current
    ensures SaveCopies(current, current, moves)[p] == current[p].(stock := current[p].stock + AmountFor(moves, p))
    decreases |moves|
  {
    if moves != [] {
      var init := moves[..|moves| - 1];
      assert Covers(current, init) && DistinctParts(init);
      if moves[|moves| - 1].part == p {
        AmountForNone(init, p);
      } else {
        SaveDistinct(current, init, p);
      }
    }
  }

  predicate NonNegative(moves: seq<Move>)
  {
    forall i :: 0 <= i < |moves| ==> moves[i].amount >= 0.0
  }

  /** Flooring step by step equals flooring once: with non-negative amounts a
      part held in non-negative stock ends at `max(stock - total withdrawn, 0)`
      and its other fields are unchanged. */
  lemma {:induction false} WithdrawFlooredAt(current: map<Id, Part>, moves: seq<Move>, p: Id)
    requires Covers(current, moves) && NonNegative(moves) && p in current && current[p].stock >= 0.0
    ensures WithdrawFloored(current, moves)[p] == current[p].(stock := Floor0(current[p].stock - AmountFor(moves, p)))
    decreases |moves|
  {
    if moves != [] {
      var init := moves[..|moves| - 1];
      assert Covers(current, init) && NonNegative(init);
      WithdrawFlooredAt(current, init, p);
    }
  }

  lemma {:induction false} AmountForNonNegative(moves: seq<Move>, p: Id)
    requires NonNegative(moves)
    ensures AmountFor(moves, p) >= 0.0
    decreases |moves|
  {
    if moves != [] {
      AmountForNonNegative(moves[..|moves| - 1], p);
    }
  }

  /** Adding stock with saves from the current rows, then withdrawing the same
      amounts from fresh rows, gives back the table it started from, as long as
      no part is saved twice, the amounts are non-negative and no stock is
      negative. */
  lemma SaveThenWithdraw(current: map<Id, Part>, moves: seq<Move>)
    requires Covers(current, moves) && DistinctParts(moves) && NonNegative(moves)
    requires forall p :: p in current ==> current[p].stock >= 0.0
    ensures WithdrawFloored(SaveCopies(current, current, moves), moves) == current
  {
    var saved := SaveCopies(current, current, moves);
    var back := WithdrawFloored(saved, moves);
    forall p | p in current
      ensures back[p] == current[p]
    {
      SaveDistinct(current, moves, p);
      AmountForNonNegative(moves, p);
      WithdrawFlooredAt(saved, moves, p);
    }
  }

  /** The amount `LastAmount` reports is that of a move naming the part. */
  lemma {:induction false} LastAmountFrom(moves: seq<Move>, p: Id)
    requires LastAmount(moves, p).Some?
    ensures exists i :: 0 <= i < |moves| && moves[i].part == p && moves[i].amount == LastAmount(moves, p).value
    decreases |moves|
  {
    var init := moves[..|moves| - 1];
    if moves[|moves| - 1].part != p {
      LastAmountFrom(init, p);
      var i :| 0 <= i < |init| && init[i].part == p && init[i].amount == LastAmount(init, p).value;
      assert moves[i] == init[i];
    }
  }

  /** The same parts moved by the opposite amounts. */
  function Negated(moves: seq<Move>): (r: seq<Move>)
    ensures |r| == |moves|
  {
    seq(|moves|, i requires 0 <= i < |moves| => Move(moves[i].part, -moves[i].amount))
  }

  lemma {:induction false} AmountForNegated(moves: seq<Move>, p: Id)
    ensures AmountFor(Negated(moves), p) == -AmountFor(moves, p)
    decreases |moves|
  {
    if moves != [] {
      var init := moves[..|moves| - 1];
      assert Negated(moves)[..|moves| - 1] == Negated(init);
      AmountForNegated(init, p);
    }
  }

  /** Saving every part once from the current rows, then saving the opposite
      amounts from the rows as they then are, gives back the table it started
      from: no floor or cap is involved. */
  lemma SaveCopiesUndo(current: map<Id, Part>, moves: seq<Move>)
    requires Covers(current, moves) && DistinctParts(moves)
    ensures var saved := SaveCopies(current, current, moves);
      SaveCopies(saved, saved, Negated(moves)) == current
  {
    var saved := SaveCopies(current, current, moves);
    var back := SaveCopies(saved, saved, Negated(moves));
    forall p | p in current
      ensures back[p] == current[p]
    {
      SaveDistinct(current, moves, p);
      SaveDistinct(saved, Negated(moves), p);
      AmountForNegated(moves, p);
    }
  }

  /** The loop `for part, amount in moves: part.current_stock += amount;
      part.save()` over part rows loaded as `copy` before the loop. */
  method ApplySaves(db: Database, copy: map<Id, Part>, moves: seq<Move>)
    requires db.Valid() && db.parts == copy && Covers(copy, moves)
    modifies db`parts
    ensures db.Valid() && db.parts == SaveCopies(copy, copy, moves)
  {
    var i := 0;
    while i < |moves|
      invariant 0 <= i <= |moves|
      invariant db.Valid() && db.parts == SaveCopies(copy, copy, moves[..i])
    {
      var m := moves[i];
      SaveCopiesSnoc(copy, copy, moves[..i], m);
      assert moves[..i + 1] == moves[..i] + [m];
      db.SavePart(m.part, copy[m.part].(stock := copy[m.part].stock + m.amount));
      i := i + 1;
    }
    assert moves[..|moves|] == moves;
  }
}
