/** The retention job: old audit entries, notifications, and the messages of inactive chats. */
module Archive {
  import opened Ids
  import opened Integers
  import opened Models
  import opened Slices
  import opened Wrappers

  /** Which sweeps are on; a sweep with no retention period is off. */
  datatype Config = Config(audit: bool, notifications: bool, chats: bool)

  datatype Cutoffs = Cutoffs(audit: int, notifications: int, chats: int)

  datatype Dropped = Dropped(audit: nat, notifications: nat, messages: nat)

  predicate Before(time: Option<int>, cutoff: int) {
    time.Some? && time.value < cutoff
  }

  // ----- retention, declaratively -----

  /** Every dated message of the chat precedes the cutoff, and there is one. */
  predicate Inactive(messages: seq<Message>, chat: Int64, cutoff: int) {
    && (exists m | m in messages :: m.chatId == chat && m.time.Some?)
    && (forall m | m in messages && m.chatId == chat && m.time.Some? :: m.time.value < cutoff)
  }

  predicate Listed(chats: seq<Chat>, chat: Int64) {
    exists c | c in chats :: c.id == chat
  }

  predicate Stale(m: Message, messages: seq<Message>, chats: seq<Chat>, cutoff: int) {
    m.time.Some? && Listed(chats, m.chatId) && Inactive(messages, m.chatId, cutoff)
  }

  function KeptAudit(audit: seq<AuditEntry>, cutoff: int): seq<AuditEntry> {
    Filter(audit, (e: AuditEntry) => !Before(e.time, cutoff))
  }

  function KeptNotifications(notifications: seq<Notification>, cutoff: int): seq<Notification> {
    Filter(notifications, (n: Notification) => !Before(n.time, cutoff))
  }

  function KeptMessages(messages: seq<Message>, chats: seq<Chat>, cutoff: int): seq<Message> {
    Filter(messages, (m: Message) => !Stale(m, messages, chats, cutoff))
  }

  /** What a trim keeps. */
  function Retained(d: Snapshot, cfg: Config, cut: Cutoffs): Snapshot {
    d.(audit := if cfg.audit then KeptAudit(d.audit, cut.audit) else d.audit,
       notifications :=
         if cfg.notifications then KeptNotifications(d.notifications, cut.notifications) else d.notifications,
       messages := if cfg.chats then KeptMessages(d.messages, d.chats, cut.chats) else d.messages)
  }

  function DroppedBy(d: Snapshot, d': Snapshot): (n: (int, int, int)) {
    (|d.audit| - |d'.audit|, |d.notifications| - |d'.notifications|, |d.messages| - |d'.messages|)
  }

  // ----- the two-pass sweep -----

  /** The latest date of each chat's messages, as the first pass collects it. */
  ghost predicate LastSeen(seen: map<Int64, int>, messages: seq<Message>) {
    && (forall chat | chat in seen :: exists m | m in messages :: m.chatId == chat && m.time == Some(seen[chat]))
    && (forall m | m in messages && m.time.Some? :: m.chatId in seen && m.time.value <= seen[m.chatId])
  }

  lemma LastSeenStep(seen: map<Int64, int>, messages: seq<Message>, m: Message)
    requires LastSeen(seen, messages)
    ensures m.time.None? ==> LastSeen(seen, messages + [m])
    ensures m.time.Some? && (m.chatId !in seen || m.time.value > seen[m.chatId]) ==>
              LastSeen(seen[m.chatId := m.time.value], messages + [m])
    ensures m.time.Some? && m.chatId in seen && m.time.value <= seen[m.chatId] ==> LastSeen(seen, messages + [m])
  {
    var all := messages + [m];
    assert all[|messages|] == m;
    forall chat | chat in seen ensures exists x | x in all :: x.chatId == chat && x.time == Some(seen[chat]) {
      var x :| x in messages && x.chatId == chat && x.time == Some(seen[chat]);
      assert x in all;
    }
    if m.time.Some? && (m.chatId !in seen || m.time.value > seen[m.chatId]) {
      var seen' := seen[m.chatId := m.time.value];
      forall chat | chat in seen' ensures exists x | x in all :: x.chatId == chat && x.time == Some(seen'[chat]) {
        if chat == m.chatId {
          assert m in all;
        }
      }
    }
  }

  method CollectLastSeen(messages: seq<Message>) returns (seen: map<Int64, int>)
    ensures LastSeen(seen, messages)
  {
    seen := map[];
    for i := 0 to |messages|
      invariant LastSeen(seen, messages[..i])
    {
      var m := messages[i];
      LastSeenStep(seen, messages[..i], m);
      assert messages[..i + 1] == messages[..i] + [m];
      if m.time.None? {
        continue;
      }
      if m.chatId !in seen || m.time.value > seen[m.chatId] {
        seen := seen[m.chatId := m.time.value];
      }
    }
    assert messages[..|messages|] == messages;
  }

  lemma InactiveByLastSeen(seen: map<Int64, int>, messages: seq<Message>, chat: Int64, cutoff: int)
    requires LastSeen(seen, messages)
    ensures Inactive(messages, chat, cutoff) <==> chat in seen && seen[chat] < cutoff
  {
    if chat in seen {
      var m :| m in messages && m.chatId == chat && m.time == Some(seen[chat]);
    }
  }

  method CollectInactive(chats: seq<Chat>, seen: map<Int64, int>, cutoff: int) returns (inactive: set<Int64>)
    ensures forall id: Int64 :: id in inactive <==> Listed(chats, id) && id in seen && seen[id] < cutoff
  {
    inactive := {};
    for i := 0 to |chats|
      invariant forall id: Int64 :: id in inactive <==> Listed(chats[..i], id) && id in seen && seen[id] < cutoff
    {
      var c := chats[i];
      ghost var was := inactive;
      assert chats[..i + 1] == chats[..i] + [c];
      if c.id in seen && seen[c.id] < cutoff {
        inactive := inactive + {c.id};
      }
      forall id: Int64 ensures Listed(chats[..i + 1], id) <==> Listed(chats[..i], id) || id == c.id {
        ListedLast(chats[..i], c, id);
      }
    }
    assert chats[..|chats|] == chats;
  }

  lemma ListedLast(chats: seq<Chat>, c: Chat, id: Int64)
    ensures Listed(chats + [c], id) <==> Listed(chats, id) || id == c.id
  {
    assert (chats + [c])[|chats|] == c;
    if Listed(chats, id) {
      var x :| x in chats && x.id == id;
      assert x in chats + [c];
    }
  }

  lemma SweepIsStale(
    m: Message, messages: seq<Message>, chats: seq<Chat>, seen: map<Int64, int>, inactive: set<Int64>, cutoff: int)
    requires m in messages && LastSeen(seen, messages)
    requires forall id: Int64 :: id in inactive <==> Listed(chats, id) && id in seen && seen[id] < cutoff
    ensures m.chatId in inactive && Before(m.time, cutoff) <==> Stale(m, messages, chats, cutoff)
  {
    InactiveByLastSeen(seen, messages, m.chatId, cutoff);
  }

  method SweepMessages(messages: seq<Message>, chats: seq<Chat>, cutoff: int) returns (kept: seq<Message>, dropped: nat)
    ensures kept == KeptMessages(messages, chats, cutoff) && dropped == |messages| - |kept|
  {
    kept, dropped := messages, 0;
    var inactive := {};
    if |chats| > 0 {
      var seen := CollectLastSeen(messages);
      inactive := CollectInactive(chats, seen, cutoff);
      forall m | m in messages
        ensures m.chatId in inactive && Before(m.time, cutoff) <==> Stale(m, messages, chats, cutoff)
      {
        SweepIsStale(m, messages, chats, seen, inactive, cutoff);
      }
    }
    if |inactive| > 0 {
      kept, dropped := FilterInPlace(messages, (m: Message) => !(m.chatId in inactive && Before(m.time, cutoff)));
      FilterExtensional(messages, (m: Message) => !(m.chatId in inactive && Before(m.time, cutoff)),
                        (m: Message) => !Stale(m, messages, chats, cutoff));
    } else {
      FilterAll(messages, (m: Message) => !Stale(m, messages, chats, cutoff));
    }
  }

  method TrimDocument(d: Document, cfg: Config, cut: Cutoffs) returns (dropped: Dropped)
    modifies d`audit, d`notifications, d`messages
    ensures d.Value() == Retained(old(d.Value()), cfg, cut)
    ensures |old(d.audit)| == |d.audit| + dropped.audit
    ensures |old(d.notifications)| == |d.notifications| + dropped.notifications
    ensures |old(d.messages)| == |d.messages| + dropped.messages
  {
    dropped := Dropped(0, 0, 0);
    if cfg.audit {
      var kept, n := FilterInPlace(d.audit, (e: AuditEntry) => !Before(e.time, cut.audit));
      d.audit := kept;
      dropped := dropped.(audit := n);
    }
    if cfg.notifications {
      var kept, n := FilterInPlace(d.notifications, (x: Notification) => !Before(x.time, cut.notifications));
      d.notifications := kept;
      dropped := dropped.(notifications := n);
    }
    if cfg.chats {
      var kept, n := SweepMessages(d.messages, d.chats, cut.chats);
      d.messages := kept;
      dropped := dropped.(messages := n);
    }
  }

  /** What one attempt of the job commits: nothing when no entry is dropped. */
  function ArchivePass(d: Snapshot, cfg: Config, cut: Cutoffs, now: int): Option<Snapshot> {
    var kept := Retained(d, cfg, cut);
    if DroppedBy(d, kept) == (0, 0, 0) then None
    else Some(kept.(audit := Audited(kept.audit, "system", "system.archive", None, now)))
  }

  method ArchiveInPlace(d: Document, cfg: Config, cut: Cutoffs, now: int) returns (commit: bool)
    modifies d`audit, d`notifications, d`messages
    ensures commit <==> ArchivePass(old(d.Value()), cfg, cut, now).Some?
    ensures commit ==> d.Value() == ArchivePass(old(d.Value()), cfg, cut, now).value
  {
    var dropped := TrimDocument(d, cfg, cut);
    if dropped == Dropped(0, 0, 0) {
      return false;
    }
    AppendAudit(d, "system", "system.archive", None, now);
    commit := true;
  }

  // ----- what a trim means -----

  /**
   * Exactly the audit entries and notifications dated before their cutoffs are dropped, each
   * list only if its sweep is on; undated ones stay.
   */
  lemma EntriesKept(d: Snapshot, cfg: Config, cut: Cutoffs, e: AuditEntry, n: Notification)
    ensures e in Retained(d, cfg, cut).audit <==>
            e in d.audit && (!cfg.audit || e.time.None? || e.time.value >= cut.audit)
    ensures n in Retained(d, cfg, cut).notifications <==>
            n in d.notifications && (!cfg.notifications || n.time.None? || n.time.value >= cut.notifications)
    ensures !cfg.chats ==> Retained(d, cfg, cut).messages == d.messages
  {
  }

  /** Exactly the dated messages of listed chats whose every dated message is old are dropped. */
  lemma MessagesKept(d: Snapshot, cfg: Config, cut: Cutoffs, m: Message)
    requires cfg.chats && m in d.messages
    ensures m in Retained(d, cfg, cut).messages <==>
            m.time.None? || !Listed(d.chats, m.chatId)
            || exists x | x in d.messages :: x.chatId == m.chatId && x.time.Some? && x.time.value >= cut.chats
  {
    if exists x | x in d.messages :: x.chatId == m.chatId && x.time.Some? && x.time.value >= cut.chats {
      var x :| x in d.messages && x.chatId == m.chatId && x.time.Some? && x.time.value >= cut.chats;
      assert !Inactive(d.messages, m.chatId, cut.chats);
    } else if m.time.Some? {
      assert Inactive(d.messages, m.chatId, cut.chats);
    }
  }

  /** What is left of an inactive chat has no date, so the chat is not inactive any more. */
  lemma SurvivorsAreFresh(messages: seq<Message>, chats: seq<Chat>, cutoff: int, m: Message)
    requires m in KeptMessages(messages, chats, cutoff)
    ensures !Stale(m, KeptMessages(messages, chats, cutoff), chats, cutoff)
  {
    if m.time.Some? && Listed(chats, m.chatId) {
      var x :| x in messages && x.chatId == m.chatId && x.time.Some? && x.time.value >= cutoff;
      assert x in KeptMessages(messages, chats, cutoff);
    }
  }

  /** A second trim with the same cutoffs drops nothing. */
  lemma TrimIdempotent(d: Snapshot, cfg: Config, cut: Cutoffs, now: int)
    ensures var kept := Retained(d, cfg, cut);
            Retained(kept, cfg, cut) == kept && ArchivePass(kept, cfg, cut, now).None?
  {
    var kept := Retained(d, cfg, cut);
    FilterIdempotent(d.audit, (e: AuditEntry) => !Before(e.time, cut.audit));
    FilterIdempotent(d.notifications, (n: Notification) => !Before(n.time, cut.notifications));
    if cfg.chats {
      forall m | m in kept.messages ensures !Stale(m, kept.messages, d.chats, cut.chats) {
        SurvivorsAreFresh(d.messages, d.chats, cut.chats, m);
      }
      FilterAll(kept.messages, (m: Message) => !Stale(m, kept.messages, d.chats, cut.chats));
    }
    assert Retained(kept, cfg, cut) == kept;
  }

  /** Trimming a list never invents, reorders or repeats entries. */
  lemma TrimIsSubsequence(d: Snapshot, cfg: Config, cut: Cutoffs)
    ensures var kept := Retained(d, cfg, cut);
            && Subsequence(kept.audit, d.audit)
            && Subsequence(kept.notifications, d.notifications)
            && Subsequence(kept.messages, d.messages)
  {
    FilterSubsequence(d.audit, (e: AuditEntry) => !Before(e.time, cut.audit));
    FilterSubsequence(d.notifications, (n: Notification) => !Before(n.time, cut.notifications));
    FilterSubsequence(d.messages, (m: Message) => !Stale(m, d.messages, d.chats, cut.chats));
    SelfSubsequence(d.audit);
    SelfSubsequence(d.notifications);
    SelfSubsequence(d.messages);
  }
}
