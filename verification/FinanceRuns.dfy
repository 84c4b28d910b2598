/** Runs of bookings: a redelivery that repairs what earlier ones left, and two that show the limits. */
module FinanceRuns {
  import opened FinanceBooking
  import opened FinanceTheorems
  import opened Integers
  import opened Models
  import opened Wrappers
  import Text

  /** The reply of a finance service that is up: it stores what it does not hold and refuses what it holds. */
  function UpReply(items: seq<Item>, ref: string): Reply {
    if Held(items, ref) then Answer(409, "") else Answer(201, ref)
  }

  function Opening(s: State, id: Int64): seq<Step> {
    [Deliver(id, true), Decide(|s.deliveries|), Load(|s.deliveries|)]
  }

  function Booking(s: State, id: Int64): seq<Step> {
    [Call(|s.deliveries|, !Held(s.items, DocumentRef(id)), UpReply(s.items, DocumentRef(id))), Save(|s.deliveries|)]
  }

  function Opened(s: State, id: Int64, r: Requisition): State {
    s.(requisitions := Put(s.requisitions, id, r.(status := APPROVED)),
       deliveries := s.deliveries + [Delivery(id, APPROVED, if Booked(r) then Done(true) else Calling(r.amount))])
  }

  lemma OpeningRuns(s: State, id: Int64, r: Requisition)
    requires Get(s.requisitions, id) == Some(r)
    ensures After(s, Opening(s, id), true) == Opened(s, id, r)
    ensures Get(Opened(s, id, r).requisitions, id) == Some(r.(status := APPROVED))
  {
    var steps, delivery := Opening(s, id), Delivery(id, APPROVED, Deciding(false));
    PutGet(s.requisitions, id, r.(status := APPROVED), id);
    var s1 := s.(deliveries := s.deliveries + [delivery]);
    var s2 := s1.(requisitions := Put(s.requisitions, id, r.(status := APPROVED)),
                  deliveries := s.deliveries + [delivery.(phase := Loading)]);
    assert Do(s1, steps[1], true) == s2;
    assert Do(s2, steps[2], true) == Opened(s, id, r);
    Path([s, s1, s2, Opened(s, id, r)], steps);
  }

  lemma CallRuns(s: State, i: nat)
    requires i < |s.deliveries| && s.deliveries[i].phase.Calling?
    ensures var id, ref := s.deliveries[i].id, DocumentRef(s.deliveries[i].id);
            var items := s.items + if Held(s.items, ref) then [] else [Item(ref, s.deliveries[i].phase.amount)];
            Do(s, Call(i, !Held(s.items, ref), UpReply(s.items, ref)), true) == Move(s.(items := items), i, Saving(ref))
  {
    assert s.items + [] == s.items;
  }

  lemma SaveRuns(s: State, i: nat)
    requires i < |s.deliveries| && s.deliveries[i].phase.Saving? && s.deliveries[i].phase.ref != ""
    requires IsApproved(s.requisitions, s.deliveries[i].id)
    ensures var s' := Do(s, Save(i), true);
            && s'.items == s.items && s'.deliveries == Move(s, i, Done(true)).deliveries
            && IsBooked(s'.requisitions, s.deliveries[i].id)
  {
    var id := s.deliveries[i].id;
    PutGet(s.requisitions, id, Get(s.requisitions, id).value.(financeApRef := Some(s.deliveries[i].phase.ref)), id);
  }

  lemma BookingRuns(s: State, id: Int64, r: Requisition)
    requires Get(s.requisitions, id) == Some(r) && !Booked(r)
    requires Get(Opened(s, id, r).requisitions, id) == Some(r.(status := APPROVED))
    ensures var s', ref := After(Opened(s, id, r), Booking(s, id), true), DocumentRef(id);
            && s'.deliveries == s.deliveries + [Delivery(id, APPROVED, Done(true))]
            && s'.items == s.items + (if Held(s.items, ref) then [] else [Item(ref, r.amount)])
            && IsBooked(s'.requisitions, id)
  {
    var s3, steps, i := Opened(s, id, r), Booking(s, id), |s.deliveries|;
    CallRuns(s3, i);
    var s4 := Do(s3, steps[0], true);
    assert s4.requisitions == s3.requisitions && s4.deliveries[i].phase == Saving(DocumentRef(id));
    SaveRuns(s4, i);
    Path([s3, s4, Do(s4, steps[1], true)], steps);
  }

  /**
   * Whatever earlier deliveries left behind, one redelivery that meets no failure succeeds and
   * leaves a requisition booked; finance gains an item exactly if the requisition had neither
   * an item nor a recorded reference.
   */
  lemma RedeliveryRecords(s: State, id: Int64)
    requires Find(s.requisitions, id).Some?
    ensures var r, ref := Get(s.requisitions, id).value, DocumentRef(id);
            var s' := After(s, Opening(s, id) + if Booked(r) then [] else Booking(s, id), true);
            && s'.deliveries == s.deliveries + [Delivery(id, APPROVED, Done(true))]
            && s'.items == s.items + (if Booked(r) || Held(s.items, ref) then [] else [Item(ref, r.amount)])
            && IsBooked(s'.requisitions, id)
  {
    var r := Get(s.requisitions, id).value;
    OpeningRuns(s, id, r);
    if Booked(r) {
      assert Opening(s, id) + [] == Opening(s, id) && s.items + [] == s.items;
    } else {
      BookingRuns(s, id, r);
      AfterConcat(s, Opening(s, id), Booking(s, id), true);
    }
  }

  // ----- two runs that show what cannot be claimed -----

  /** A run given by the states it passes through. */
  lemma {:induction false} Path(states: seq<State>, steps: seq<Step>)
    requires |states| == |steps| + 1
    requires forall k | 0 <= k < |steps| :: Do(states[k], steps[k], true) == states[k + 1]
    ensures After(states[0], steps, true) == states[|steps|]
  {
    if steps != [] {
      Path(states[..|steps|], steps[..|steps| - 1]);
    }
  }

  lemma OnlyOne(r: Requisition, outcome: string, ref: string)
    ensures Find([r], r.id) == Some(0) && Get([r], r.id) == Some(r)
    ensures Decided([r], r.id, outcome) == [r.(status := outcome)]
    ensures Referred([r], r.id, ref) == [r.(financeApRef := Some(ref))]
  {
  }

  lemma OutcomesDiffer()
    ensures APPROVED != REJECTED
  {
    assert APPROVED[0] != REJECTED[0];
  }

  /**
   * Without that condition it can fail: a rejection slips in before the load, the delivery
   * succeeds without booking, and a second approval makes the requisition approved again.
   */
  lemma RejectedMeanwhile()
    ensures var s0 := State([Requisition(1, "submitted", None, 100)], [], [], []);
            var steps := [
              Deliver(1, true), Deliver(1, false), Decide(0), Decide(1), Load(0), Deliver(1, true), Decide(2)];
            var s := After(s0, steps, true);
            && Initial(s0) && |s.deliveries| == 3 && s.deliveries[0].phase == Done(true)
            && IsApproved(s.requisitions, 1) && !IsBooked(s.requisitions, 1)
  {
    var r := Requisition(1, "submitted", None, 100);
    var steps := [Deliver(1, true), Deliver(1, false), Decide(0), Decide(1), Load(0), Deliver(1, true), Decide(2)];
    var yes, no := r.(status := APPROVED), r.(status := REJECTED);
    var a, b := Delivery(1, APPROVED, Deciding(false)), Delivery(1, REJECTED, Deciding(false));
    var loading, served, refused := a.(phase := Loading), a.(phase := Done(true)), b.(phase := Done(true));
    var states := [
      State([r], [], [], []), State([r], [], [a], []), State([r], [], [a, b], []), State([yes], [], [loading, b], []),
      State([no], [], [loading, refused], []), State([no], [], [served, refused], []),
      State([no], [], [served, refused, a], []), State([yes], [], [served, refused, loading], [])];
    OutcomesDiffer();
    OnlyOne(r, APPROVED, "");
    OnlyOne(yes, REJECTED, "");
    OnlyOne(no, APPROVED, "");
    assert Do(states[2], steps[2], true) == states[3];
    assert Do(states[3], steps[3], true) == states[4];
    assert Do(states[4], steps[4], true) == states[5];
    assert Do(states[6], steps[6], true) == states[7];
    Path(states, steps);
  }

  const FIRST := Requisition(1, "submitted", None, 100)
  const AGAIN := Requisition(1, "submitted", None, 250)
  const FAILED := Delivery(1, APPROVED, Done(false))
  const REFUSED := Delivery(1, REJECTED, Done(true))

  const LOST_BOOKING := [Deliver(1, true), Decide(0), Load(0), Call(0, true, Lost)]
  const WITHDRAWAL := [Deliver(1, false), Decide(1), Withdraw(1), Submit(AGAIN.(id := 0))]
  const SECOND_BOOKING := [Deliver(1, true), Decide(2), Load(2), Call(2, false, Answer(409, "")), Save(2)]

  lemma LostBooking()
    ensures After(State([FIRST], [], [], []), LOST_BOOKING, true)
            == State([FIRST.(status := APPROVED)], [Item(DocumentRef(1), 100)], [FAILED], [])
  {
    var a, yes := Delivery(1, APPROVED, Deciding(false)), FIRST.(status := APPROVED);
    var states := [
      State([FIRST], [], [], []), State([FIRST], [], [a], []), State([yes], [], [a.(phase := Loading)], []),
      State([yes], [], [a.(phase := Calling(100))], []), State([yes], [Item(DocumentRef(1), 100)], [FAILED], [])];
    OnlyOne(FIRST, APPROVED, "");
    OnlyOne(yes, APPROVED, "");
    assert Do(states[1], LOST_BOOKING[1], true) == states[2];
    assert Do(states[2], LOST_BOOKING[2], true) == states[3];
    assert Do(states[3], LOST_BOOKING[3], true) == states[4];
    Path(states, LOST_BOOKING);
  }

  lemma Withdrawal(items: seq<Item>, first: Delivery)
    ensures After(State([FIRST.(status := APPROVED)], items, [first], []), WITHDRAWAL, true)
            == State([AGAIN], items, [first, REFUSED], [])
  {
    var yes, no, b := FIRST.(status := APPROVED), FIRST.(status := REJECTED), Delivery(1, REJECTED, Deciding(false));
    var states := [
      State([yes], items, [first], []), State([yes], items, [first, b], []), State([no], items, [first, REFUSED], []),
      State([], items, [first, REFUSED], []), State([AGAIN], items, [first, REFUSED], [])];
    OutcomesDiffer();
    OnlyOne(yes, REJECTED, "");
    RejectedIsOpen(no);
    assert Do(states[1], WITHDRAWAL[1], true) == states[2];
    assert Do(states[2], WITHDRAWAL[2], true) == states[3];
    assert Do(states[3], WITHDRAWAL[3], true) == states[4];
    Path(states, WITHDRAWAL);
  }

  lemma SecondBooking(items: seq<Item>)
    requires Held(items, DocumentRef(1))
    ensures After(State([AGAIN], items, [FAILED, REFUSED], []), SECOND_BOOKING, true).items == items
    ensures After(State([AGAIN], items, [FAILED, REFUSED], []), SECOND_BOOKING, true).requisitions
            == [AGAIN.(status := APPROVED, financeApRef := Some(DocumentRef(1)))]
  {
    var a, yes, ref := Delivery(1, APPROVED, Deciding(false)), AGAIN.(status := APPROVED), DocumentRef(1);
    var rest := [FAILED, REFUSED];
    var states := [
      State([AGAIN], items, rest, []), State([AGAIN], items, rest + [a], []),
      State([yes], items, rest + [a.(phase := Loading)], []),
      State([yes], items, rest + [a.(phase := Calling(250))], []),
      State([yes], items, rest + [a.(phase := Saving(ref))], []),
      State([yes.(financeApRef := Some(ref))], items, rest + [a.(phase := Done(true))], [Written(1, ref)])];
    OnlyOne(AGAIN, APPROVED, ref);
    OnlyOne(yes, APPROVED, ref);
    assert Do(states[1], SECOND_BOOKING[1], true) == states[2];
    assert Do(states[2], SECOND_BOOKING[2], true) == states[3];
    assert Do(states[3], SECOND_BOOKING[3], true) == states[4];
    assert Do(states[4], SECOND_BOOKING[4], true) == states[5];
    Path(states, SECOND_BOOKING);
  }

  /**
   * A requisition number can be used again after a withdrawal, and the reference is made of
   * the number alone. Here an item is already held for the number: the second requisition is
   * recorded against it, with the first one's amount.
   */
  lemma NumberUsedAgain()
    ensures var s := After(State([FIRST], [], [], []), LOST_BOOKING + WITHDRAWAL + SECOND_BOOKING, true);
            && s.items == [Item(DocumentRef(1), 100)]
            && s.requisitions == [Requisition(1, APPROVED, Some(DocumentRef(1)), 250)]
  {
    var s0, items := State([FIRST], [], [], []), [Item(DocumentRef(1), 100)];
    assert items[0].documentRef == DocumentRef(1);
    AfterConcat(s0, LOST_BOOKING + WITHDRAWAL, SECOND_BOOKING, true);
    AfterConcat(s0, LOST_BOOKING, WITHDRAWAL, true);
    LostBooking();
    Withdrawal(items, FAILED);
    SecondBooking(items);
  }

  const CALLING := Delivery(1, APPROVED, Calling(100))
  const LOADED := [Deliver(1, true), Decide(0), Load(0)]
  const LATE_BOOKING := [Call(0, true, Answer(201, DocumentRef(1))), Save(0)]

  lemma Loaded()
    ensures After(State([FIRST], [], [], []), LOADED, true) == State([FIRST.(status := APPROVED)], [], [CALLING], [])
  {
    var a, yes := Delivery(1, APPROVED, Deciding(false)), FIRST.(status := APPROVED);
    var states := [
      State([FIRST], [], [], []), State([FIRST], [], [a], []), State([yes], [], [a.(phase := Loading)], []),
      State([yes], [], [CALLING], [])];
    OnlyOne(FIRST, APPROVED, "");
    OnlyOne(yes, APPROVED, "");
    assert Do(states[1], LOADED[1], true) == states[2];
    assert Do(states[2], LOADED[2], true) == states[3];
    Path(states, LOADED);
  }

  lemma LateBooking()
    ensures After(State([AGAIN], [], [CALLING, REFUSED], []), LATE_BOOKING, true).items == [Item(DocumentRef(1), 100)]
    ensures After(State([AGAIN], [], [CALLING, REFUSED], []), LATE_BOOKING, true).requisitions
            == [AGAIN.(financeApRef := Some(DocumentRef(1)))]
  {
    var ref := DocumentRef(1);
    var states := [
      State([AGAIN], [], [CALLING, REFUSED], []),
      State([AGAIN], [Item(ref, 100)], [CALLING.(phase := Saving(ref)), REFUSED], []),
      State([AGAIN.(financeApRef := Some(ref))], [Item(ref, 100)],
            [CALLING.(phase := Done(true)), REFUSED], [Written(1, ref)])];
    OnlyOne(AGAIN, APPROVED, ref);
    assert Do(states[0], LATE_BOOKING[0], true) == states[1];
    assert Do(states[1], LATE_BOOKING[1], true) == states[2];
    Path(states, LATE_BOOKING);
  }

  /**
   * The same with no reply lost: the call is still on its way when the number is used again, and
   * the new requisition, merely submitted, is recorded with the first one's amount.
   */
  lemma NumberUsedInFlight()
    ensures var s := After(State([FIRST], [], [], []), LOADED + WITHDRAWAL + LATE_BOOKING, true);
            && s.items == [Item(DocumentRef(1), 100)]
            && s.requisitions == [Requisition(1, "submitted", Some(DocumentRef(1)), 250)]
  {
    var s0 := State([FIRST], [], [], []);
    AfterConcat(s0, LOADED + WITHDRAWAL, LATE_BOOKING, true);
    AfterConcat(s0, LOADED, WITHDRAWAL, true);
    Loaded();
    Withdrawal([], CALLING);
    LateBooking();
  }

  lemma RejectedIsOpen(r: Requisition)
    requires r.status == REJECTED && r.financeApRef.None?
    ensures Find([r], r.id) == Some(0) && Removed([r], r.id) == Ok([])
  {
    assert !Text.IsSpace('r') && !Text.IsSpace('d');
    assert Text.Trim(REJECTED) == REJECTED;
    var status := Text.ToLower(REJECTED);
    assert status[0] == 'r';
    assert "approved"[0] == 'a' && "paid"[0] == 'p' && "payment authorized"[0] == 'p'
      && "approved for procurement"[0] == 'a';
    assert !Settled(r);
    assert [r][..0] + [r][1..] == [];
  }
}
