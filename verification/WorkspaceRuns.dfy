/** What the committed writers of a workspace did, in the terms of the handlers, the rules and the jobs. */
module WorkspaceRuns {
  import opened Models
  import opened OptimisticLock
  import opened Serializability
  import opened Workspace
  import opened Wrappers
  import Archive
  import RecurrenceJob
  import RuleEngine

  /** A run of the service's writers in which nothing is committed from a late insert. */
  ghost predicate ServiceRun(
    initial: Snapshot, s0: State<Snapshot, RuleEngine.Notice>, writers: seq<Writer>, steps: seq<Step>, n: nat)
  {
    && Initial(s0) && n <= |steps| && |writers| == |s0.clients|
    && (forall i | 0 <= i < |writers| :: s0.clients[i].job == JobOf(writers[i]))
    && NoLateCommit(ServiceOf(initial), s0, steps, n)
  }

  /**
   * A committed mutation took the document before it to what the rules made of its closure's
   * result, compared with that document. What it has sent, and still has to, are the notices of
   * that very run of the rules: all of them, unless it failed after the commit.
   */
  lemma CommittedMutation(
    initial: Snapshot, s0: State<Snapshot, RuleEngine.Notice>, writers: seq<Writer>, steps: seq<Step>, n: nat, k: nat)
    requires ServiceRun(initial, s0, writers, steps, n)
    requires k < |After(ServiceOf(initial), s0, steps, n).log|
    requires var i := After(ServiceOf(initial), s0, steps, n).log[k].client; i < |writers| && writers[i].Mutation?
    ensures var s := After(ServiceOf(initial), s0, steps, n);
            var entry, d := s.log[k], Serial(ServiceOf(initial), s0, s.log, k);
            var r := writers[entry.client].request;
            && Perform(r, entry.seen, entry.now, d).Some?
            && var o := RuleEngine.DiffAndRun(d, Perform(r, entry.seen, entry.now, d).value, entry.now);
            && Serial(ServiceOf(initial), s0, s.log, k + 1) == o.doc
            && entry.client < |s.clients|
            && s.clients[entry.client].sent + s.clients[entry.client].unsent <= o.notices
            && (NeverFails(steps, n, entry.client) ==>
                  s.clients[entry.client].sent + s.clients[entry.client].unsent == o.notices)
  {
    var svc := ServiceOf(initial);
    var s := After(svc, s0, steps, n);
    RunKeeps(svc, s0, steps, n);
    assert EntryOk(svc, s0, s, k);
    if NeverFails(steps, n, s.log[k].client) {
      AllNotified(svc, s0, steps, n, s.log[k].client);
    }
  }

  /**
   * A committed sweep, recurrence pass or full-document write took the document before it to
   * its own result, with no rules in between, and sends nothing.
   */
  lemma CommittedJob(
    initial: Snapshot, s0: State<Snapshot, RuleEngine.Notice>, writers: seq<Writer>, steps: seq<Step>, n: nat, k: nat)
    requires ServiceRun(initial, s0, writers, steps, n)
    requires k < |After(ServiceOf(initial), s0, steps, n).log|
    requires After(ServiceOf(initial), s0, steps, n).log[k].client < |writers|
    ensures var s := After(ServiceOf(initial), s0, steps, n);
            var entry, d := s.log[k], Serial(ServiceOf(initial), s0, s.log, k);
            var d' := Serial(ServiceOf(initial), s0, s.log, k + 1);
            && entry.client < |s.clients|
            && (!writers[entry.client].Mutation? ==>
                  s.clients[entry.client].sent + s.clients[entry.client].unsent == [])
            && match writers[entry.client]
               case Mutation(_) => true
               case Sweep(cfg, cut) => Archive.ArchivePass(d, cfg, cut, entry.now) == Some(d')
               case Recur => RecurrenceJob.Busy(d, entry.now) && RecurrenceJob.Pass(d, entry.now) == d'
               case FullWrite(data, version, allowed) => d' == data && (version == 0 ==> allowed(d))
  {
    var svc := ServiceOf(initial);
    var s := After(svc, s0, steps, n);
    RunKeeps(svc, s0, steps, n);
    assert EntryOk(svc, s0, s, k);
  }

  /** The stored document is the last of these, and the version counts them. */
  lemma StoredIsLast(
    initial: Snapshot, s0: State<Snapshot, RuleEngine.Notice>, writers: seq<Writer>, steps: seq<Step>, n: nat)
    requires ServiceRun(initial, s0, writers, steps, n) && After(ServiceOf(initial), s0, steps, n).row.Some?
    ensures var s := After(ServiceOf(initial), s0, steps, n);
            var first := if s0.row.Some? then s0.row.value else Row(initial, 1);
            && s.row.value.document == Serial(ServiceOf(initial), s0, s.log, |s.log|)
            && s.row.value.version == first.version + |s.log|
            && Serial(ServiceOf(initial), s0, s.log, 0) == first.document
  {
    Serializable(ServiceOf(initial), s0, steps, n);
  }
}
