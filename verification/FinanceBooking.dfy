/**
 * Booking approved requisitions with the finance service. Decision events are delivered at
 * least once; a delivery commits the decision, loads the workspace, asks finance for an open
 * item and records its reference, and can stop after any step. Deliveries, handlers and the
 * finance service interleave arbitrarily.
 */
module FinanceBooking {
  import opened Ids
  import opened Integers
  import opened Models
  import opened StringIds
  import opened Wrappers
  import Text

  const APPROVED := "approved"
  const REJECTED := "rejected"

  function DocumentRef(id: Int64): string {
    "PM-REQ-" + FormatInt(id)
  }

  /** Requisitions do not share a reference. */
  lemma DocumentRefInjective(a: Int64, b: Int64)
    ensures DocumentRef(a) == DocumentRef(b) <==> a == b
  {
    FormatIntScans(a);
    FormatIntScans(b);
    assert DocumentRef(a)[7..] == FormatInt(a) && DocumentRef(b)[7..] == FormatInt(b);
  }

  // ----- the document side -----

  function Find(rs: seq<Requisition>, id: Int64): (at: Option<nat>)
    ensures at.Some? ==> at.value < |rs| && rs[at.value].id == id
    ensures at.Some? ==> forall j | 0 <= j < at.value :: rs[j].id != id
    ensures at.None? ==> forall r | r in rs :: r.id != id
  {
    if rs == [] then None
    else if rs[0].id == id then Some(0)
    else match Find(rs[1..], id)
      case None => None
      case Some(i) => Some(i + 1)
  }

  lemma {:induction false} FindSame(rs: seq<Requisition>, rs': seq<Requisition>, id: Int64, i: nat)
    requires i < |rs| && i < |rs'| && rs[i].id == rs'[i].id == id
    requires forall j | 0 <= j < i :: rs[j].id != id && rs'[j].id != id
    ensures Find(rs, id) == Find(rs', id) == Some(i)
  {
    assert rs[i] in rs && rs'[i] in rs';
  }

  /** The first requisition with an identifier is the one every operation means. */
  function Get(rs: seq<Requisition>, id: Int64): (r: Option<Requisition>)
  {
    match Find(rs, id)
    case None => None
    case Some(i) => Some(rs[i])
  }

  function Put(rs: seq<Requisition>, id: Int64, r: Requisition): seq<Requisition> {
    match Find(rs, id)
    case None => rs
    case Some(i) => rs[i := r]
  }

  function Decided(rs: seq<Requisition>, id: Int64, outcome: string): seq<Requisition> {
    match Get(rs, id)
    case None => rs
    case Some(r) => Put(rs, id, r.(status := outcome))
  }

  function Referred(rs: seq<Requisition>, id: Int64, ref: string): seq<Requisition> {
    match Get(rs, id)
    case None => rs
    case Some(r) => Put(rs, id, r.(financeApRef := Some(ref)))
  }

  predicate Booked(r: Requisition) {
    r.financeApRef.Some? && r.financeApRef.value != ""
  }

  predicate Final(status: string) {
    Text.ToLower(Text.Trim(status)) in {"approved", "paid", "payment authorized", "approved for procurement"}
  }

  predicate Settled(r: Requisition) {
    Booked(r) || Final(r.status)
  }

  function Removed(rs: seq<Requisition>, id: Int64): Result<seq<Requisition>> {
    match Find(rs, id)
    case None => Err("requisition not found")
    case Some(i) => if Settled(rs[i]) then Err("requisition is settled") else Ok(rs[..i] + rs[i + 1..])
  }

  function RequisitionIds(rs: seq<Requisition>): (ids: seq<Int64>)
    ensures |ids| == |rs|
  {
    seq(|rs|, i requires 0 <= i < |rs| => rs[i].id)
  }

  /** The words that mean a requisition is decided, in any case and with any white space around. */
  ghost predicate Word(status: string) {
    var s := Text.Trim(status);
    || Text.EqualFold(s, "approved") || Text.EqualFold(s, "paid")
    || Text.EqualFold(s, "payment authorized") || Text.EqualFold(s, "approved for procurement")
  }

  /** The first with the identifier goes if it has no reference and no such status; otherwise nothing does. */
  lemma RemovedExactly(rs: seq<Requisition>, id: Int64)
    ensures match Removed(rs, id)
            case Ok(rest) =>
              exists i: nat | i < |rs| ::
                && rs[i].id == id && (forall j | 0 <= j < i :: rs[j].id != id) && rest == rs[..i] + rs[i + 1..]
                && (rs[i].financeApRef.None? || rs[i].financeApRef == Some("")) && !Word(rs[i].status)
            case Err(_) =>
              forall i: nat | i < |rs| && rs[i].id == id && forall j | 0 <= j < i :: rs[j].id != id ::
                (rs[i].financeApRef.Some? && rs[i].financeApRef != Some("")) || Word(rs[i].status)
  {
    if Find(rs, id).Some? {
      var status := Text.Trim(rs[Find(rs, id).value].status);
      LowerWords(status);
    }
  }

  lemma LowerWords(status: string)
    ensures Text.ToLower(status) in {"approved", "paid", "payment authorized", "approved for procurement"}
      <==> Text.EqualFold(status, "approved") || Text.EqualFold(status, "paid")
           || Text.EqualFold(status, "payment authorized") || Text.EqualFold(status, "approved for procurement")
  {
    assert Text.ToLower("approved") == "approved" && Text.ToLower("paid") == "paid";
    assert Text.ToLower("payment authorized") == "payment authorized";
    assert Text.ToLower("approved for procurement") == "approved for procurement";
    Text.LowerEqual(status, "approved");
    Text.LowerEqual(status, "paid");
    Text.LowerEqual(status, "payment authorized");
    Text.LowerEqual(status, "approved for procurement");
  }

  function Created(rs: seq<Requisition>, r: Requisition): seq<Requisition> {
    rs + [r.(id := NextId(RequisitionIds(rs)))]
  }

  /** The first requisition with an identifier, if any, and what became of the list. */
  ghost predicate OnlyFirst(rs: seq<Requisition>, rs': seq<Requisition>, id: Int64, to: Requisition -> Requisition) {
    && |rs'| == |rs|
    && forall i | 0 <= i < |rs| ::
         rs'[i] == if rs[i].id == id && (forall j | 0 <= j < i :: rs[j].id != id) then to(rs[i]) else rs[i]
  }

  lemma PutOnlyFirst(rs: seq<Requisition>, id: Int64, to: Requisition -> Requisition)
    ensures match Get(rs, id)
            case None => OnlyFirst(rs, rs, id, to)
            case Some(r) => OnlyFirst(rs, Put(rs, id, to(r)), id, to)
  {
    forall i | 0 <= i < |rs| ensures rs[i] in rs {
    }
  }

  /** A decision sets one status, and a booking one reference; everything else stays. */
  lemma DecidedAndReferred(rs: seq<Requisition>, id: Int64, text: string)
    ensures OnlyFirst(rs, Decided(rs, id, text), id, (r: Requisition) => r.(status := text))
    ensures OnlyFirst(rs, Referred(rs, id, text), id, (r: Requisition) => r.(financeApRef := Some(text)))
  {
    PutOnlyFirst(rs, id, (r: Requisition) => r.(status := text));
    PutOnlyFirst(rs, id, (r: Requisition) => r.(financeApRef := Some(text)));
  }

  // ----- the closures and the delete in place -----

  /** What a committed decision makes of the document. */
  function DecidedDocument(d: Snapshot, id: Int64, outcome: string, actor: string, now: int): Snapshot {
    if Find(d.requisitions, id).None? then d
    else d.(requisitions := Decided(d.requisitions, id, outcome),
            audit := Audited(d.audit, actor, "procurement.requisition." + outcome, None, now))
  }

  method ApplyDecision(d: Document, id: Int64, outcome: string, actor: string, now: int) returns (found: bool)
    modifies d`requisitions, d`audit
    ensures d.Value() == DecidedDocument(old(d.Value()), id, outcome, actor, now)
    ensures found == Find(old(d.requisitions), id).Some?
  {
    for i := 0 to |d.requisitions|
      invariant d.requisitions == old(d.requisitions) && d.audit == old(d.audit)
      invariant forall j | 0 <= j < i :: d.requisitions[j].id != id
    {
      if d.requisitions[i].id != id {
        continue;
      }
      FindSame(d.requisitions, d.requisitions, id, i);
      d.requisitions := d.requisitions[i := d.requisitions[i].(status := outcome)];
      AppendAudit(d, actor, "procurement.requisition." + outcome, None, now);
      return true;
    }
    return false;
  }

  function ReferredDocument(d: Snapshot, id: Int64, ref: string, now: int): Snapshot {
    if Find(d.requisitions, id).None? then d
    else d.(requisitions := Referred(d.requisitions, id, ref),
            audit := Audited(d.audit, "finance", "finance.ap.created", None, now))
  }

  method RecordReference(d: Document, id: Int64, ref: string, now: int)
    modifies d`requisitions, d`audit
    ensures d.Value() == ReferredDocument(old(d.Value()), id, ref, now)
  {
    for i := 0 to |d.requisitions|
      invariant d.requisitions == old(d.requisitions) && d.audit == old(d.audit)
      invariant forall j | 0 <= j < i :: d.requisitions[j].id != id
    {
      if d.requisitions[i].id != id {
        continue;
      }
      FindSame(d.requisitions, d.requisitions, id, i);
      d.requisitions := d.requisitions[i := d.requisitions[i].(financeApRef := Some(ref))];
      AppendAudit(d, "finance", "finance.ap.created", None, now);
      return;
    }
  }

  method RemoveRequisition(d: Document, id: Int64) returns (r: Result<()>)
    modifies d`requisitions
    ensures match Removed(old(d.requisitions), id)
            case Ok(rs) => r == Ok(()) && d.Value() == old(d.Value()).(requisitions := rs)
            case Err(e) => r == Err(e) && d.Value() == old(d.Value())
  {
    for i := 0 to |d.requisitions|
      invariant d.requisitions == old(d.requisitions)
      invariant forall j | 0 <= j < i :: d.requisitions[j].id != id
    {
      var row := d.requisitions[i];
      if row.id != id {
        continue;
      }
      FindSame(d.requisitions, d.requisitions, id, i);
      if row.financeApRef.Some? && row.financeApRef.value != "" {
        return Err("requisition is settled");
      }
      if Final(row.status) {
        return Err("requisition is settled");
      }
      d.requisitions := d.requisitions[..i] + d.requisitions[i + 1..];
      return Ok(());
    }
    return Err("requisition not found");
  }

  // ----- the finance side -----

  datatype Item = Item(documentRef: string, amount: int)

  /** What comes back over the network: nothing, or a status and the reference in the body. */
  datatype Reply = Lost | Answer(code: int, documentRef: string)

  predicate Held(items: seq<Item>, ref: string) {
    exists j | 0 <= j < |items| :: items[j].documentRef == ref
  }

  /**
   * The finance service's contract: references are unique, a conflict means the reference is
   * held, success means that the item was stored, and a reference in the body is the one sent.
   * A reply can be lost and a server error can follow a stored item.
   */
  predicate Honest(items: seq<Item>, ref: string, stored: bool, reply: Reply) {
    && (stored ==> !Held(items, ref))
    && (reply.Answer? && reply.code == 409 ==> Held(items, ref))
    && (reply.Answer? && reply.code < 400 ==> stored && (reply.documentRef == "" || reply.documentRef == ref))
  }

  /** What the client makes of a reply: a reference to record, or an error to retry. */
  function ClientResult(ref: string, reply: Reply): Option<string> {
    match reply
    case Lost => None
    case Answer(code, echoed) =>
      if code == 409 then Some(ref)
      else if code >= 400 then None
      else Some(if echoed != "" then echoed else ref)
  }

  // ----- the protocol -----

  /** `found` is what the attempts of the decision so far have seen. */
  datatype Phase =
    | Deciding(found: bool)
    | Loading
    | Calling(amount: int)
    | Saving(ref: string)
    | Done(success: bool)

  datatype Delivery = Delivery(id: Int64, outcome: string, phase: Phase)

  datatype Written = Written(id: Int64, ref: string)

  /** `written` lists the references that bookings have recorded. */
  datatype State = State(
    requisitions: seq<Requisition>, items: seq<Item>, deliveries: seq<Delivery>, written: seq<Written>)

  datatype Step =
    | Deliver(id: Int64, approve: bool)
    | Conflict(i: nat)
    | Decide(i: nat)
    | Load(i: nat)
    | Call(i: nat, stored: bool, reply: Reply)
    | Save(i: nat)
    | Fail(i: nat)
    | Submit(requisition: Requisition)
    | Withdraw(id: Int64)
    | Overwrite(requisitions: seq<Requisition>)

  function Move(s: State, i: nat, phase: Phase): State
    requires i < |s.deliveries|
  {
    s.(deliveries := s.deliveries[i := s.deliveries[i].(phase := phase)])
  }

  /** The committed decision; with finance configured an approval goes on to be booked. */
  function DoDecide(s: State, i: nat, enabled: bool): State
    requires i < |s.deliveries| && s.deliveries[i].phase.Deciding?
  {
    var d := s.deliveries[i];
    var found := d.phase.found || Find(s.requisitions, d.id).Some?;
    Move(s.(requisitions := Decided(s.requisitions, d.id, d.outcome)), i,
         if found && d.outcome == APPROVED && enabled then Loading else Done(true))
  }

  function DoLoad(s: State, i: nat): State
    requires i < |s.deliveries|
  {
    match Get(s.requisitions, s.deliveries[i].id)
    case None => Move(s, i, Done(true))
    case Some(r) => Move(s, i, if r.status != APPROVED || Booked(r) then Done(true) else Calling(r.amount))
  }

  function DoCall(s: State, i: nat, stored: bool, reply: Reply): State
    requires i < |s.deliveries| && s.deliveries[i].phase.Calling?
  {
    var d := s.deliveries[i];
    var ref := DocumentRef(d.id);
    var s' := s.(items := if stored then s.items + [Item(ref, d.phase.amount)] else s.items);
    match ClientResult(ref, reply)
    case None => Move(s', i, Done(false))
    case Some(got) => Move(s', i, Saving(got))
  }

  function DoSave(s: State, i: nat): State
    requires i < |s.deliveries| && s.deliveries[i].phase.Saving?
  {
    var d := s.deliveries[i];
    var ref := d.phase.ref;
    Move(s.(requisitions := Referred(s.requisitions, d.id, ref),
            written := s.written + if Find(s.requisitions, d.id).Some? then [Written(d.id, ref)] else []),
         i, Done(true))
  }

  /** One atomic step; a step its delivery is not ready for changes nothing. */
  function Do(s: State, step: Step, enabled: bool): State {
    match step
    case Deliver(id, approve) =>
      s.(deliveries := s.deliveries + [Delivery(id, if approve then APPROVED else REJECTED, Deciding(false))])
    case Conflict(i) =>
      if i < |s.deliveries| && s.deliveries[i].phase.Deciding?
      then Move(s, i, Deciding(s.deliveries[i].phase.found || Find(s.requisitions, s.deliveries[i].id).Some?))
      else s
    case Decide(i) => if i < |s.deliveries| && s.deliveries[i].phase.Deciding? then DoDecide(s, i, enabled) else s
    case Load(i) => if i < |s.deliveries| && s.deliveries[i].phase.Loading? then DoLoad(s, i) else s
    case Call(i, stored, reply) =>
      if i < |s.deliveries| && s.deliveries[i].phase.Calling?
        && Honest(s.items, DocumentRef(s.deliveries[i].id), stored, reply)
      then DoCall(s, i, stored, reply)
      else s
    case Save(i) => if i < |s.deliveries| && s.deliveries[i].phase.Saving? then DoSave(s, i) else s
    case Fail(i) => if i < |s.deliveries| && !s.deliveries[i].phase.Done? then Move(s, i, Done(false)) else s
    case Submit(r) => s.(requisitions := Created(s.requisitions, r))
    case Withdraw(id) =>
      (match Removed(s.requisitions, id)
       case Ok(rs) => s.(requisitions := rs)
       case Err(_) => s)
    case Overwrite(rs) => s.(requisitions := rs)
  }

  function After(s: State, steps: seq<Step>, enabled: bool): State {
    if steps == [] then s
    else Do(After(s, steps[..|steps| - 1], enabled), steps[|steps| - 1], enabled)
  }

  lemma {:induction false} AfterConcat(s: State, first: seq<Step>, second: seq<Step>, enabled: bool)
    ensures After(s, first + second, enabled) == After(After(s, first, enabled), second, enabled)
  {
    if second == [] {
      assert first + second == first;
    } else {
      var steps, k := first + second, |second| - 1;
      assert steps[..|steps| - 1] == first + second[..k];
      AfterConcat(s, first, second[..k], enabled);
    }
  }
}
