/** What every run of bookings keeps. */
module FinanceTheorems {
  import opened FinanceBooking
  import opened Integers
  import opened Models
  import opened Wrappers

  // ----- one item for a requisition -----

  ghost predicate DistinctRefs(items: seq<Item>) {
    forall j, k | 0 <= j < k < |items| :: items[j].documentRef != items[k].documentRef
  }

  /** A reference in hand or recorded by a booking names an item of that requisition. */
  ghost predicate Inv(s: State) {
    && DistinctRefs(s.items)
    && (forall d | d in s.deliveries && d.phase.Saving? ::
          d.phase.ref == DocumentRef(d.id) && Held(s.items, d.phase.ref))
    && (forall w | w in s.written :: w.ref == DocumentRef(w.id) && Held(s.items, w.ref))
  }

  lemma HeldGrows(items: seq<Item>, item: Item, ref: string)
    ensures Held(items + [item], ref) <==> Held(items, ref) || item.documentRef == ref
  {
    var more := items + [item];
    assert more[|items|] == item;
    if Held(items, ref) {
      var j :| 0 <= j < |items| && items[j].documentRef == ref;
      assert more[j].documentRef == ref;
    }
  }

  lemma CallKeeps(s: State, i: nat, stored: bool, reply: Reply)
    requires Inv(s) && i < |s.deliveries| && s.deliveries[i].phase.Calling?
    requires Honest(s.items, DocumentRef(s.deliveries[i].id), stored, reply)
    ensures Inv(DoCall(s, i, stored, reply))
  {
    var s' := DoCall(s, i, stored, reply);
    var ref := DocumentRef(s.deliveries[i].id);
    forall other ensures Held(s'.items, other) <==> Held(s.items, other) || (stored && other == ref) {
      HeldGrows(s.items, Item(ref, s.deliveries[i].phase.amount), other);
    }
    if stored {
      assert forall j | 0 <= j < |s.items| :: s.items[j].documentRef != ref;
    }
    forall d | d in s'.deliveries && d.phase.Saving?
      ensures d.phase.ref == DocumentRef(d.id) && Held(s'.items, d.phase.ref)
    {
      assert d in s.deliveries || d == s'.deliveries[i];
    }
  }

  lemma StepKeepsInv(s: State, step: Step, enabled: bool)
    requires Inv(s)
    ensures Inv(Do(s, step, enabled))
  {
    var s' := Do(s, step, enabled);
    match step
    case Call(i, stored, reply) =>
      if i < |s.deliveries| && s.deliveries[i].phase.Calling?
        && Honest(s.items, DocumentRef(s.deliveries[i].id), stored, reply) {
        CallKeeps(s, i, stored, reply);
      }
    case Save(i) =>
      if i < |s.deliveries| && s.deliveries[i].phase.Saving? {
        assert s.deliveries[i] in s.deliveries;
        assert forall d | d in s'.deliveries :: d in s.deliveries || d.phase.Done?;
      }
    case _ =>
      assert forall d | d in s'.deliveries && d.phase.Saving? :: d in s.deliveries;
  }

  ghost predicate Initial(s: State) {
    DistinctRefs(s.items) && s.deliveries == [] && s.written == []
  }

  lemma {:induction false} RunKeepsInv(s: State, steps: seq<Step>, enabled: bool)
    requires Initial(s)
    ensures Inv(After(s, steps, enabled))
  {
    if steps != [] {
      RunKeepsInv(s, steps[..|steps| - 1], enabled);
      StepKeepsInv(After(s, steps[..|steps| - 1], enabled), steps[|steps| - 1], enabled);
    }
  }

  /**
   * Over all deliveries, lost replies, crashes and edits: finance holds one item at most for a
   * requisition number, and every reference that a booking recorded is held there, for that
   * requisition and for no other.
   */
  lemma OneItemPerRequisition(s0: State, steps: seq<Step>, enabled: bool)
    requires Initial(s0)
    ensures var s := After(s0, steps, enabled);
            && (forall id: Int64, j, k | 0 <= j < |s.items| && 0 <= k < |s.items| ::
                  s.items[j].documentRef == DocumentRef(id) == s.items[k].documentRef ==> j == k)
            && (forall w | w in s.written ::
                  Held(s.items, w.ref) && forall id: Int64 :: w.ref == DocumentRef(id) <==> id == w.id)
  {
    RunKeepsInv(s0, steps, enabled);
    var s := After(s0, steps, enabled);
    forall w, id: Int64 | w in s.written ensures w.ref == DocumentRef(id) <==> id == w.id {
      DocumentRefInjective(w.id, id);
    }
  }

  // ----- success means recorded -----

  predicate IsApproved(rs: seq<Requisition>, id: Int64) {
    var r := Get(rs, id);
    r.Some? && r.value.status == APPROVED
  }

  predicate IsBooked(rs: seq<Requisition>, id: Int64) {
    var r := Get(rs, id);
    r.Some? && r.value.status == APPROVED && Booked(r.value)
  }

  /** Rewriting one requisition leaves the others as they are and is read back. */
  lemma PutGet(rs: seq<Requisition>, id: Int64, r: Requisition, other: Int64)
    requires r.id == id && Find(rs, id).Some?
    ensures Get(Put(rs, id, r), other) == if other == id then Some(r) else Get(rs, other)
  {
    var i, rs' := Find(rs, id).value, Put(rs, id, r);
    if other == id {
      FindSame(rs, rs', id, i);
    } else {
      assert forall j | 0 <= j < |rs| :: rs'[j].id == rs[j].id;
      SameIdsFind(rs, rs', other);
    }
  }

  lemma {:induction false} SameIdsFind(rs: seq<Requisition>, rs': seq<Requisition>, id: Int64)
    requires |rs'| == |rs| && forall j | 0 <= j < |rs| :: rs'[j].id == rs[j].id
    ensures Find(rs', id) == Find(rs, id)
  {
    if rs != [] {
      SameIdsFind(rs[1..], rs'[1..], id);
    }
  }

  /** A settled requisition cannot be withdrawn, and withdrawing another does not disturb it. */
  lemma WithdrawKeepsSettled(rs: seq<Requisition>, id: Int64, other: Int64)
    requires Get(rs, id).Some? && Settled(Get(rs, id).value) && Removed(rs, other).Ok?
    ensures other != id && Get(Removed(rs, other).value, id) == Get(rs, id)
  {
    var k, i, rs' := Find(rs, other).value, Find(rs, id).value, Removed(rs, other).value;
    var at := if k < i then i - 1 else i;
    assert rs'[at] == rs[i];
    assert rs'[at] in rs';
    assert forall j | 0 <= j < at :: rs'[j].id != id;
    FindSame(rs', rs', id, at);
  }

  lemma WithdrawKeepsApproved(rs: seq<Requisition>, id: Int64, other: Int64)
    requires IsApproved(rs, id) && Removed(rs, other).Ok?
    ensures other != id && Get(Removed(rs, other).value, id) == Get(rs, id)
  {
    ApprovedIsSettled();
    WithdrawKeepsSettled(rs, id, other);
  }

  lemma ApprovedIsSettled()
    ensures Text.ToLower(Text.Trim(APPROVED)) == APPROVED
  {
    assert !Text.IsSpace('a') && !Text.IsSpace('d');
    assert Text.Trim(APPROVED) == APPROVED;
  }

  lemma SubmitKeeps(rs: seq<Requisition>, r: Requisition, id: Int64)
    requires Find(rs, id).Some?
    ensures Get(Created(rs, r), id) == Get(rs, id)
  {
    FindSame(rs, Created(rs, r), id, Find(rs, id).value);
  }

  /**
   * At the very step with which an approval delivery reports success, an approved requisition
   * has its reference on record. This holds in every state, reached or not.
   */
  lemma SuccessSeesReference(s: State, step: Step, i: nat)
    requires i < |s.deliveries| && s.deliveries[i].outcome == APPROVED && !s.deliveries[i].phase.Done?
    requires s.deliveries[i].phase.Saving? ==> s.deliveries[i].phase.ref != ""
    requires Do(s, step, true).deliveries[i].phase == Done(true)
    ensures var s', id := Do(s, step, true), s.deliveries[i].id;
            IsApproved(s'.requisitions, id) ==> IsBooked(s'.requisitions, id)
  {
    if step == Save(i) {
      var id := s.deliveries[i].id;
      var r := Get(s.requisitions, id);
      if r.Some? {
        PutGet(s.requisitions, id, r.value.(financeApRef := Some(s.deliveries[i].phase.ref)), id);
      }
    }
  }

  // ----- a recorded reference stays -----

  predicate IsRecorded(rs: seq<Requisition>, id: Int64) {
    var r := Get(rs, id);
    r.Some? && Booked(r.value)
  }

  lemma DecideRecords(s: State, j: nat, id: Int64)
    requires j < |s.deliveries| && s.deliveries[j].phase.Deciding?
    ensures IsRecorded(Decided(s.requisitions, s.deliveries[j].id, s.deliveries[j].outcome), id) <==>
              IsRecorded(s.requisitions, id)
  {
    var r := Get(s.requisitions, s.deliveries[j].id);
    if r.Some? {
      PutGet(s.requisitions, s.deliveries[j].id, r.value.(status := s.deliveries[j].outcome), id);
    }
  }

  lemma SaveRecords(rs: seq<Requisition>, at: Int64, ref: string, id: Int64)
    requires ref != ""
    ensures IsRecorded(Referred(rs, at, ref), id) <==> IsRecorded(rs, id) || (id == at && Get(rs, id).Some?)
  {
    var r := Get(rs, at);
    if r.Some? {
      PutGet(rs, at, r.value.(financeApRef := Some(ref)), id);
    }
  }

  /**
   * Once a requisition has a reference on record it keeps one, whatever is decided, delivered,
   * lost, submitted or withdrawn: only a whole-document write without it takes it away.
   */
  lemma RecordStays(s: State, step: Step, id: Int64, enabled: bool)
    requires Inv(s) && IsRecorded(s.requisitions, id)
    ensures IsRecorded(Do(s, step, enabled).requisitions, id) <==>
            !(step.Overwrite? && !IsRecorded(step.requisitions, id))
  {
    match step
    case Decide(j) =>
      if j < |s.deliveries| && s.deliveries[j].phase.Deciding? {
        DecideRecords(s, j, id);
      }
    case Save(j) =>
      if j < |s.deliveries| && s.deliveries[j].phase.Saving? {
        assert s.deliveries[j] in s.deliveries;
        SaveRecords(s.requisitions, s.deliveries[j].id, s.deliveries[j].phase.ref, id);
      }
    case Submit(r) => SubmitKeeps(s.requisitions, r, id);
    case Withdraw(other) =>
      if Removed(s.requisitions, other).Ok? {
        WithdrawKeepsSettled(s.requisitions, id, other);
      }
    case _ =>
  }

  predicate NoOverwrite(steps: seq<Step>) {
    forall k | 0 <= k < |steps| :: !steps[k].Overwrite?
  }

  lemma {:induction false} RecordedForGood(s: State, steps: seq<Step>, id: Int64)
    requires Inv(s) && IsRecorded(s.requisitions, id) && NoOverwrite(steps)
    ensures Inv(After(s, steps, true)) && IsRecorded(After(s, steps, true).requisitions, id)
  {
    if steps != [] {
      var front := steps[..|steps| - 1];
      RecordedForGood(s, front, id);
      StepKeepsInv(After(s, front, true), steps[|steps| - 1], true);
      RecordStays(After(s, front, true), steps[|steps| - 1], id, true);
    }
  }

  // ----- when a success leaves nothing on record -----

  /** The step with which a delivery reports success. */
  predicate Succeeds(s: State, step: Step, i: nat) {
    && i < |s.deliveries| && !s.deliveries[i].phase.Done?
    && Do(s, step, true).deliveries[i].phase == Done(true)
  }

  /**
   * What the delivery finds in its last look at the document: to decide on or to save the
   * reference to, no requisition; to book, one that is gone or no longer approved and not booked.
   */
  predicate Misses(s: State, i: nat)
    requires i < |s.deliveries|
  {
    var r := Get(s.requisitions, s.deliveries[i].id);
    match s.deliveries[i].phase
    case Loading => r.None? || (r.value.status != APPROVED && !Booked(r.value))
    case _ => r.None?
  }

  /** A delivery succeeds by its own decision, load or save. */
  lemma SuccessSteps(s: State, step: Step, i: nat)
    requires Succeeds(s, step, i)
    ensures || (step == Decide(i) && s.deliveries[i].phase.Deciding?)
            || (step == Load(i) && s.deliveries[i].phase.Loading?)
            || (step == Save(i) && s.deliveries[i].phase.Saving?)
  {
  }

  lemma DecideExactly(s: State, i: nat)
    requires i < |s.deliveries| && s.deliveries[i].phase.Deciding? && s.deliveries[i].outcome == APPROVED
    requires DoDecide(s, i, true).deliveries[i].phase == Done(true)
    ensures Misses(s, i) && !IsRecorded(DoDecide(s, i, true).requisitions, s.deliveries[i].id)
  {
    DecideRecords(s, i, s.deliveries[i].id);
  }

  lemma LoadExactly(s: State, i: nat)
    requires i < |s.deliveries| && s.deliveries[i].phase.Loading? && DoLoad(s, i).deliveries[i].phase == Done(true)
    ensures IsRecorded(DoLoad(s, i).requisitions, s.deliveries[i].id) <==> !Misses(s, i)
  {
  }

  /** An approval succeeds without a reference on record exactly when it misses its requisition. */
  lemma SuccessRecordsExactly(s: State, step: Step, i: nat)
    requires Inv(s) && Succeeds(s, step, i) && s.deliveries[i].outcome == APPROVED
    ensures IsRecorded(Do(s, step, true).requisitions, s.deliveries[i].id) <==> !Misses(s, i)
  {
    var d := s.deliveries[i];
    assert d in s.deliveries;
    SuccessSteps(s, step, i);
    if step.Save? {
      SaveRecords(s.requisitions, d.id, d.phase.ref, d.id);
    } else if step.Decide? {
      DecideExactly(s, i);
    } else {
      LoadExactly(s, i);
    }
  }

  lemma {:induction false} DeliveriesStay(s: State, steps: seq<Step>, i: nat)
    requires i < |s.deliveries|
    ensures var s' := After(s, steps, true);
            && i < |s'.deliveries| && s'.deliveries[i].id == s.deliveries[i].id
            && s'.deliveries[i].outcome == s.deliveries[i].outcome
  {
    if steps != [] {
      DeliveriesStay(s, steps[..|steps| - 1], i);
    }
  }

  /**
   * An approval delivery that succeeds in the course of a run without whole-document writes
   * does so at one step `k`. If it did not miss its requisition there, a reference is on record
   * from then on; if it did, none was when it succeeded.
   */
  lemma {:induction false} SuccessMeansRecorded(s: State, steps: seq<Step>, i: nat) returns (k: nat)
    requires Inv(s) && NoOverwrite(steps)
    requires i < |s.deliveries| && s.deliveries[i].outcome == APPROVED && !s.deliveries[i].phase.Done?
    requires i < |After(s, steps, true).deliveries| && After(s, steps, true).deliveries[i].phase == Done(true)
    ensures k < |steps|
    ensures var last, id := After(s, steps[..k], true), s.deliveries[i].id;
            && Succeeds(last, steps[k], i)
            && (!Misses(last, i) ==> IsRecorded(After(s, steps, true).requisitions, id))
            && (Misses(last, i) ==> !IsRecorded(Do(last, steps[k], true).requisitions, id))
  {
    var n := |steps| - 1;
    var front := steps[..n];
    var s1 := After(s, front, true);
    var id := s.deliveries[i].id;
    DeliveriesStay(s, front, i);
    RunInv(s, front);
    assert After(s, steps, true) == Do(s1, steps[n], true);
    if s1.deliveries[i].phase.Done? {
      k := SuccessMeansRecorded(s, front, i);
      assert front[..k] == steps[..k];
      if IsRecorded(s1.requisitions, id) {
        RecordStays(s1, steps[n], id, true);
      }
    } else {
      k := n;
      SuccessRecordsExactly(s1, steps[n], i);
    }
  }

  lemma {:induction false} RunInv(s: State, steps: seq<Step>)
    requires Inv(s)
    ensures Inv(After(s, steps, true))
  {
    if steps != [] {
      RunInv(s, steps[..|steps| - 1]);
      StepKeepsInv(After(s, steps[..|steps| - 1], true), steps[|steps| - 1], true);
    }
  }

  // ----- until a rejection -----

  /** Steps that can take an approval back: a committed rejection, or a whole-document write. */
  predicate Disturbs(s: State, step: Step, id: Int64) {
    || step.Overwrite?
    || (step.Decide? && step.i < |s.deliveries| && s.deliveries[step.i].phase.Deciding?
        && s.deliveries[step.i].id == id && s.deliveries[step.i].outcome != APPROVED)
  }

  /** After its own commit: approved until further notice, and booked once it has succeeded. */
  ghost predicate UnderWay(s: State, i: nat) {
    && i < |s.deliveries| && !s.deliveries[i].phase.Deciding?
    && IsApproved(s.requisitions, s.deliveries[i].id)
    && (s.deliveries[i].phase == Done(true) ==> IsBooked(s.requisitions, s.deliveries[i].id))
  }

  /** What one undisturbing step does to a requisition that is approved. */
  lemma ApprovedStays(s: State, step: Step, id: Int64)
    requires Inv(s) && IsApproved(s.requisitions, id) && !Disturbs(s, step, id)
    ensures var s' := Do(s, step, true);
            && IsApproved(s'.requisitions, id)
            && (IsBooked(s.requisitions, id) ==> IsBooked(s'.requisitions, id))
  {
    match step
    case Decide(j) =>
      if j < |s.deliveries| && s.deliveries[j].phase.Deciding? {
        var r := Get(s.requisitions, s.deliveries[j].id);
        if r.Some? {
          PutGet(s.requisitions, s.deliveries[j].id, r.value.(status := s.deliveries[j].outcome), id);
        }
      }
    case Save(j) =>
      if j < |s.deliveries| && s.deliveries[j].phase.Saving? {
        assert s.deliveries[j] in s.deliveries;
        var r := Get(s.requisitions, s.deliveries[j].id);
        if r.Some? {
          PutGet(s.requisitions, s.deliveries[j].id, r.value.(financeApRef := Some(s.deliveries[j].phase.ref)), id);
        }
      }
    case Submit(r) => SubmitKeeps(s.requisitions, r, id);
    case Withdraw(other) =>
      if Removed(s.requisitions, other).Ok? {
        WithdrawKeepsApproved(s.requisitions, id, other);
      }
    case _ =>
  }

  lemma OwnSave(s: State, i: nat)
    requires Inv(s) && i < |s.deliveries| && s.deliveries[i].phase.Saving?
            && IsApproved(s.requisitions, s.deliveries[i].id)
    ensures IsBooked(DoSave(s, i).requisitions, s.deliveries[i].id)
  {
    var id := s.deliveries[i].id;
    assert s.deliveries[i] in s.deliveries;
    PutGet(s.requisitions, id, Get(s.requisitions, id).value.(financeApRef := Some(s.deliveries[i].phase.ref)), id);
  }

  lemma UnderWayStays(s: State, step: Step, i: nat)
    requires Inv(s) && UnderWay(s, i) && !Disturbs(s, step, s.deliveries[i].id)
    ensures UnderWay(Do(s, step, true), i)
    ensures Do(s, step, true).deliveries[i].id == s.deliveries[i].id
  {
    ApprovedStays(s, step, s.deliveries[i].id);
    if step == Save(i) && s.deliveries[i].phase.Saving? {
      OwnSave(s, i);
    }
  }

  /** None of the steps, taken from `s`, takes an approval of `id` back. */
  predicate Undisturbed(s: State, steps: seq<Step>, id: Int64) {
    steps == [] ||
    (Undisturbed(s, steps[..|steps| - 1], id)
     && !Disturbs(After(s, steps[..|steps| - 1], true), steps[|steps| - 1], id))
  }

  lemma {:induction false} UnderWayRun(s: State, steps: seq<Step>, i: nat)
    requires Inv(s) && UnderWay(s, i) && Undisturbed(s, steps, s.deliveries[i].id)
    ensures var s' := After(s, steps, true);
            Inv(s') && UnderWay(s', i) && s'.deliveries[i].id == s.deliveries[i].id
  {
    if steps != [] {
      var front := steps[..|steps| - 1];
      UnderWayRun(s, front, i);
      StepKeepsInv(After(s, front, true), steps[|steps| - 1], true);
      UnderWayStays(After(s, front, true), steps[|steps| - 1], i);
    }
  }

  /**
   * A delivery that commits an approval of an existing requisition cannot miss it, and leaves it
   * approved, for as long as nobody rejects it or overwrites the document: withdrawals are
   * refused, and no other delivery, submission, crash or lost reply can undo it.
   */
  lemma UndisturbedSuccess(s0: State, before: seq<Step>, i: nat, later: seq<Step>)
    requires Initial(s0)
    requires var s := After(s0, before, true);
             && i < |s.deliveries| && s.deliveries[i].phase.Deciding? && s.deliveries[i].outcome == APPROVED
             && Find(s.requisitions, s.deliveries[i].id).Some?
             && Undisturbed(Do(s, Decide(i), true), later, s.deliveries[i].id)
    ensures var s := After(s0, before, true);
            var s' := After(Do(s, Decide(i), true), later, true);
            && i < |s'.deliveries|
            && IsApproved(s'.requisitions, s.deliveries[i].id)
            && (s'.deliveries[i].phase == Done(true) ==> IsBooked(s'.requisitions, s.deliveries[i].id))
  {
    RunKeepsInv(s0, before, true);
    var s := After(s0, before, true);
    var id := s.deliveries[i].id;
    StepKeepsInv(s, Decide(i), true);
    PutGet(s.requisitions, id, Get(s.requisitions, id).value.(status := APPROVED), id);
    UnderWayRun(Do(s, Decide(i), true), later, i);
  }
}
