/** When the item that finance holds for a requisition number has the requisition's amount. */
module FinanceMatching {
  import opened FinanceBooking
  import opened FinanceTheorems
  import opened Ids
  import opened Integers
  import opened Models
  import opened Slices
  import opened Wrappers

  ghost predicate HeldAt(items: seq<Item>, id: Int64, amount: int) {
    Item(DocumentRef(id), amount) in items
  }

  /** A delivery has read an amount and will send it. */
  ghost predicate InFlight(deliveries: seq<Delivery>, id: Int64, amount: int) {
    exists d | d in deliveries :: d.id == id && d.phase == Calling(amount)
  }

  /** Another amount than the requisition's is held for its number, or on the way. */
  ghost predicate Clashes(s: State, r: Requisition) {
    exists amount: int :: amount != r.amount && (HeldAt(s.items, r.id, amount) || InFlight(s.deliveries, r.id, amount))
  }

  ghost predicate Matched(s: State) {
    NoDup(RequisitionIds(s.requisitions)) && forall r | r in s.requisitions :: !Clashes(s, r)
  }

  /** No requisition of the document clashes that did not before. */
  ghost predicate NoNewClash(s: State, s': State) {
    forall r | r in s.requisitions :: Clashes(s', r) ==> Clashes(s, r)
  }

  ghost predicate SameAmounts(rs: seq<Requisition>, rs': seq<Requisition>) {
    |rs'| == |rs| && forall k | 0 <= k < |rs| :: rs'[k].id == rs[k].id && rs'[k].amount == rs[k].amount
  }

  lemma AmountDecides(s: State, a: Requisition, b: Requisition)
    requires a.id == b.id && a.amount == b.amount
    ensures Clashes(s, a) <==> Clashes(s, b)
  {
  }

  lemma SameAmountsMatched(s: State, s': State)
    requires Matched(s) && SameAmounts(s.requisitions, s'.requisitions)
    requires NoNewClash(s, s')
    ensures Matched(s')
  {
    assert RequisitionIds(s'.requisitions) == RequisitionIds(s.requisitions);
    forall r | r in s'.requisitions ensures !Clashes(s', r) {
      var k :| 0 <= k < |s'.requisitions| && s'.requisitions[k] == r;
      var was := s.requisitions[k];
      assert was in s.requisitions;
      AmountDecides(s', was, r);
    }
  }

  lemma ClashShrinks(s: State, s': State, r: Requisition)
    requires Clashes(s', r)
    requires forall item | item in s'.items :: item in s.items
    requires forall amount: int :: InFlight(s'.deliveries, r.id, amount) ==> InFlight(s.deliveries, r.id, amount)
    ensures Clashes(s, r)
  {
    var amount :| amount != r.amount && (HeldAt(s'.items, r.id, amount) || InFlight(s'.deliveries, r.id, amount));
    assert HeldAt(s.items, r.id, amount) || InFlight(s.deliveries, r.id, amount);
  }

  /** A delivery that moves to another phase than a call has nothing in flight any more. */
  lemma MovedFlight(s: State, i: nat, phase: FinanceBooking.Phase, id: Int64, amount: int)
    requires i < |s.deliveries| && !phase.Calling?
    requires InFlight(Move(s, i, phase).deliveries, id, amount)
    ensures InFlight(s.deliveries, id, amount)
  {
    var d :| d in Move(s, i, phase).deliveries && d.id == id && d.phase == Calling(amount);
    assert d in s.deliveries;
  }

  /** Moving a delivery puts nothing in flight. */
  lemma MoveCalm(s: State, s': State, i: nat, phase: FinanceBooking.Phase)
    requires i < |s.deliveries| && !phase.Calling?
    requires s'.deliveries == Move(s, i, phase).deliveries && s'.items == s.items
    ensures NoNewClash(s, s')
  {
    forall r: Requisition | r in s.requisitions && Clashes(s', r) ensures Clashes(s, r) {
      forall amount: int | InFlight(s'.deliveries, r.id, amount) ensures InFlight(s.deliveries, r.id, amount) {
        MovedFlight(s, i, phase, r.id, amount);
      }
      ClashShrinks(s, s', r);
    }
  }

  lemma PutAmounts(rs: seq<Requisition>, id: Int64, r: Requisition)
    requires Get(rs, id).Some? && r.id == id && r.amount == Get(rs, id).value.amount
    ensures SameAmounts(rs, Put(rs, id, r))
  {
  }

  /** What a load puts in flight is the amount of the only requisition with the number. */
  lemma LoadCalm(s: State, i: nat)
    requires NoDup(RequisitionIds(s.requisitions)) && i < |s.deliveries| && s.deliveries[i].phase.Loading?
    ensures NoNewClash(s, DoLoad(s, i))
  {
    var d, s' := s.deliveries[i], DoLoad(s, i);
    var found := Get(s.requisitions, d.id);
    if !s'.deliveries[i].phase.Calling? {
      MoveCalm(s, s', i, s'.deliveries[i].phase);
    } else {
      forall r: Requisition | r in s.requisitions && Clashes(s', r) ensures Clashes(s, r) {
        var amount :| amount != r.amount && (HeldAt(s'.items, r.id, amount) || InFlight(s'.deliveries, r.id, amount));
        if InFlight(s'.deliveries, r.id, amount) {
          var c :| c in s'.deliveries && c.id == r.id && c.phase == Calling(amount);
          if c !in s.deliveries {
            assert c == s'.deliveries[i];
            OnlyOneOfANumber(s.requisitions, found.value, r);
          }
        }
        assert HeldAt(s.items, r.id, amount) || InFlight(s.deliveries, r.id, amount);
      }
    }
  }

  lemma OnlyOneOfANumber(rs: seq<Requisition>, a: Requisition, b: Requisition)
    requires NoDup(RequisitionIds(rs)) && a in rs && b in rs && a.id == b.id
    ensures a == b
  {
    var j :| 0 <= j < |rs| && rs[j] == a;
    var k :| 0 <= k < |rs| && rs[k] == b;
    assert RequisitionIds(rs)[j] == RequisitionIds(rs)[k];
  }

  /** What a call stores was in flight. */
  lemma CallCalm(s: State, i: nat, stored: bool, reply: Reply)
    requires i < |s.deliveries| && s.deliveries[i].phase.Calling?
    ensures NoNewClash(s, DoCall(s, i, stored, reply))
  {
    var d, s' := s.deliveries[i], DoCall(s, i, stored, reply);
    assert d in s.deliveries;
    forall r: Requisition | r in s.requisitions && Clashes(s', r) ensures Clashes(s, r) {
      var amount :| amount != r.amount && (HeldAt(s'.items, r.id, amount) || InFlight(s'.deliveries, r.id, amount));
      if InFlight(s'.deliveries, r.id, amount) {
        MovedFlight(s, i, s'.deliveries[i].phase, r.id, amount);
      } else if !HeldAt(s.items, r.id, amount) {
        DocumentRefInjective(r.id, d.id);
        assert InFlight(s.deliveries, r.id, amount);
      }
    }
  }

  lemma DeliverCalm(s: State, delivery: Delivery)
    requires !delivery.phase.Calling?
    ensures NoNewClash(s, s.(deliveries := s.deliveries + [delivery]))
  {
    var s' := s.(deliveries := s.deliveries + [delivery]);
    forall r: Requisition | r in s.requisitions && Clashes(s', r) ensures Clashes(s, r) {
      ClashShrinks(s, s', r);
    }
  }

  lemma SameClashes(s: State, rs: seq<Requisition>, r: Requisition)
    ensures Clashes(s.(requisitions := rs), r) <==> Clashes(s, r)
  {
    var s' := s.(requisitions := rs);
    if Clashes(s', r) {
      ClashShrinks(s, s', r);
    }
    if Clashes(s, r) {
      ClashShrinks(s', s, r);
    }
  }

  lemma WithdrawMatched(s: State, id: Int64)
    requires Matched(s) && Removed(s.requisitions, id).Ok?
    ensures Matched(s.(requisitions := Removed(s.requisitions, id).value))
  {
    var rs := Removed(s.requisitions, id).value;
    var i, ids, ids' := Find(s.requisitions, id).value, RequisitionIds(s.requisitions), RequisitionIds(rs);
    assert forall k | 0 <= k < |ids'| :: ids'[k] == ids[if k < i then k else k + 1];
    forall r | r in rs ensures !Clashes(s.(requisitions := rs), r) {
      assert r in s.requisitions;
      SameClashes(s, rs, r);
    }
  }

  function Submitted(s: State, r: Requisition): Requisition {
    r.(id := NextId(RequisitionIds(s.requisitions)))
  }

  /** The new requisition's number is taken, or held or in flight with another amount. */
  ghost predicate BadSubmit(s: State, step: Step) {
    step.Submit? &&
    (NextId(RequisitionIds(s.requisitions)) in RequisitionIds(s.requisitions)
      || Clashes(s, Submitted(s, step.requisition)))
  }

  lemma AppendNoDup(ids: seq<Int64>, id: Int64)
    requires NoDup(ids)
    ensures NoDup(ids + [id]) <==> id !in ids
  {
    if id in ids {
      var i :| 0 <= i < |ids| && ids[i] == id;
      assert (ids + [id])[i] == (ids + [id])[|ids|];
    }
  }

  lemma SubmitMatched(s: State, r: Requisition)
    requires Matched(s)
    ensures Matched(s.(requisitions := Created(s.requisitions, r))) <==> !BadSubmit(s, Submit(r))
  {
    var rs, ids := Created(s.requisitions, r), RequisitionIds(s.requisitions);
    assert RequisitionIds(rs) == ids + [NextId(ids)];
    AppendNoDup(ids, NextId(ids));
    assert rs[|s.requisitions|] == Submitted(s, r);
    forall x: Requisition ensures Clashes(s.(requisitions := rs), x) <==> Clashes(s, x) {
      SameClashes(s, rs, x);
    }
  }

  /**
   * Any step but a whole-document write keeps amounts matched, if and only if it is not the
   * submission of a requisition whose number is held, or in flight, with another amount.
   */
  lemma StepMatched(s: State, step: Step, enabled: bool)
    requires Matched(s) && !step.Overwrite?
    ensures Matched(Do(s, step, enabled)) <==> !BadSubmit(s, step)
  {
    var s' := Do(s, step, enabled);
    match step
    case Submit(r) => SubmitMatched(s, r);
    case Withdraw(id) =>
      if Removed(s.requisitions, id).Ok? {
        WithdrawMatched(s, id);
      }
    case Deliver(id, approve) =>
      DeliverCalm(s, s'.deliveries[|s.deliveries|]);
      SameAmountsMatched(s, s');
    case Call(i, stored, reply) =>
      if s' != s {
        CallCalm(s, i, stored, reply);
        SameAmountsMatched(s, s');
      }
    case Load(i) =>
      if s' != s {
        LoadCalm(s, i);
        SameAmountsMatched(s, s');
      }
    case _ => OtherStepsMatched(s, step, enabled);
  }

  lemma OtherStepsMatched(s: State, step: Step, enabled: bool)
    requires Matched(s) && (step.Conflict? || step.Decide? || step.Save? || step.Fail?)
    ensures Matched(Do(s, step, enabled))
  {
    var s', i := Do(s, step, enabled), step.i;
    if s' != s {
      var d := s.deliveries[i];
      var r := Get(s.requisitions, d.id);
      if step.Decide? && r.Some? {
        PutAmounts(s.requisitions, d.id, r.value.(status := d.outcome));
      } else if step.Save? && r.Some? {
        PutAmounts(s.requisitions, d.id, r.value.(financeApRef := Some(d.phase.ref)));
      }
      MoveCalm(s, s', i, s'.deliveries[i].phase);
      SameAmountsMatched(s, s');
    }
  }

  /** None of the steps, taken from `s`, is such a submission. */
  ghost predicate GoodSubmits(s: State, steps: seq<Step>) {
    steps == [] ||
    (GoodSubmits(s, steps[..|steps| - 1]) && !BadSubmit(After(s, steps[..|steps| - 1], true), steps[|steps| - 1]))
  }

  /** Every state of a run has its amounts matched. */
  ghost predicate MatchedThroughout(s: State, steps: seq<Step>) {
    Matched(After(s, steps, true)) && (steps == [] || MatchedThroughout(s, steps[..|steps| - 1]))
  }

  /**
   * Over every run without whole-document writes: at all times whatever finance holds for a
   * requisition has the requisition's amount, if and only if no submission got a number that was
   * held or in flight with another amount.
   */
  lemma {:induction false} MatchedExactly(s: State, steps: seq<Step>)
    requires Matched(s) && NoOverwrite(steps)
    ensures MatchedThroughout(s, steps) <==> GoodSubmits(s, steps)
  {
    if steps != [] {
      var front := steps[..|steps| - 1];
      MatchedExactly(s, front);
      if Matched(After(s, front, true)) {
        StepMatched(After(s, front, true), steps[|steps| - 1], true);
      }
    }
  }

  /** What matching means for a reader of the document: an item under its reference has its amount. */
  lemma HeldMeansMatched(s: State, r: Requisition, item: Item)
    requires Matched(s) && r in s.requisitions && item in s.items && item.documentRef == DocumentRef(r.id)
    ensures item.amount == r.amount
  {
    assert HeldAt(s.items, r.id, item.amount);
  }
}
