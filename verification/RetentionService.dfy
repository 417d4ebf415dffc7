/** One retention run over the four targets. */
module RetentionService {
  import opened Domain
  import opened Ledger
  import opened LedgerView
  import opened Retention
  import opened Sorting
  import opened Tables
  import opened Pruning
  import opened Store
  import Rows
  import StoreRuns

  datatype Config = Config(
    dryRun: bool, maxRowsPerRun: nat, rawMessageWindow: Duration, auditEventWindow: Duration,
    infraSnapshotWindow: Duration, ingestEventWindow: Duration)

  datatype Target = RawMessagePayloads | AuditEvents | InfraSnapshots | IngestEvents

  const TARGETS: seq<Target> := [RawMessagePayloads, AuditEvents, InfraSnapshots, IngestEvents]

  datatype TargetReport = TargetReport(target: Target, cutoff: Time, candidateCount: nat, affectedCount: nat)

  datatype Report = Report(dryRun: bool, startedAt: Time, completedAt: Option<Time>, targets: seq<TargetReport>)

  /** The audit event that records a run. */
  function RunEntry(completedAt: Time): AuditEvent {
    AuditEvent("retention-worker", "retention.run", "ops_api_data", completedAt)
  }

  /** What retention may remove. */
  datatype Kept = Kept(raw: map<int, Bytes>, audits: seq<AuditEvent>, snapshots: seq<Row<Rows.Snapshot>>, events: Encoded)

  /** What a run takes of the two targets that are maps: the smallest eligible keys. */
  datatype Taken = Taken(ids: set<int>, keys: set<Bytes>)

  /** A call of the store, with its answer: None is success. */
  datatype Call = PruneCall(target: Target, err: Option<Error>) | AuditCall(err: Option<Error>)

  /** The log after the first `n` targets have been pruned. */
  function Pruned(log: seq<Call>, n: nat): seq<Call>
    requires n <= |TARGETS|
  {
    if n == 0 then log else Pruned(log, n - 1) + [PruneCall(TARGETS[n - 1], None)]
  }

  /** The log after a run that has reported on `n` targets and returned `err`: every target is pruned, up to the
      first failing call, and a run that has been through all of them is entered into the audit log. */
  function LogOfRun(log: seq<Call>, n: nat, err: Option<Error>, audited: bool): seq<Call>
    requires n <= |TARGETS|
  {
    if n < |TARGETS| then Pruned(log, n) + [PruneCall(TARGETS[n], err)]
    else if audited then Pruned(log, n) + [AuditCall(err)]
    else Pruned(log, n)
  }

  /** The store and the audit writer of the service. Their calls may fail; a failing call has no effect. */
  class FallibleStore {
    const store: MemoryStore
    ghost var log: seq<Call>  // every call so far

    constructor (store: MemoryStore)
      ensures this.store == store && log == []
    {
      this.store, log := store, [];
    }

    method CompactRawMessagePayloads(cutoff: Time, limit: nat, dryRun: bool)
      returns (count: nat, err: Option<Error>, ghost chosen: set<int>)
      requires store.Valid()
      modifies store`messageRawPayload, this
      ensures store.Valid() && log == old(log) + [PruneCall(RawMessagePayloads, err)]
      ensures err.Some? ==> store.messageRawPayload == old(store.messageRawPayload)
      ensures err.None? ==>
                && IsSmallest(IntLeq, RawCandidates(store.messages, old(store.messageRawPayload), cutoff), limit, chosen)
                && count == |chosen|
                && store.messageRawPayload == if dryRun then old(store.messageRawPayload)
                                              else old(store.messageRawPayload) - chosen
    {
      err := *;
      count, chosen := 0, {};
      if err.None? {
        count, chosen := store.CompactRawMessagePayloads(cutoff, limit, dryRun);
      }
      log := log + [PruneCall(RawMessagePayloads, err)];
    }

    method DeleteExpiredAuditEvents(cutoff: Time, limit: nat, dryRun: bool) returns (count: nat, err: Option<Error>)
      modifies store`audits, this
      ensures log == old(log) + [PruneCall(AuditEvents, err)]
      ensures err.Some? ==> store.audits == old(store.audits)
      ensures err.None? ==>
                && count == Min(limit, Count(old(store.audits), AuditExpired(cutoff)))
                && store.audits == if dryRun then old(store.audits) else DropFirst(old(store.audits), AuditExpired(cutoff), limit)
    {
      err := *;
      count := 0;
      if err.None? {
        count := store.DeleteExpiredAuditEvents(cutoff, limit, dryRun);
      }
      log := log + [PruneCall(AuditEvents, err)];
    }

    method DeleteExpiredInfraSnapshots(cutoff: Time, limit: nat, dryRun: bool) returns (count: nat, err: Option<Error>)
      requires store.Valid()
      modifies store`snapshots, this
      ensures store.Valid() && log == old(log) + [PruneCall(InfraSnapshots, err)]
      ensures err.Some? ==> store.snapshots == old(store.snapshots)
      ensures err.None? ==>
                var expired := StoreRuns.Expired(StoreRuns.ProtectedId(old(store.snapshots)), cutoff);
                && count == Min(limit, Count(old(store.snapshots), expired))
                && store.snapshots == if dryRun then old(store.snapshots)
                                      else StoreRuns.RetainSnapshots(old(store.snapshots), cutoff, limit)
    {
      err := *;
      count := 0;
      if err.None? {
        count := store.DeleteExpiredInfraSnapshots(cutoff, limit, dryRun);
      }
      log := log + [PruneCall(InfraSnapshots, err)];
    }

    method DeleteExpiredIngestEvents(cutoff: Time, limit: nat, dryRun: bool)
      returns (count: nat, err: Option<Error>, ghost chosen: set<Bytes>)
      requires store.Valid()
      modifies store`ingestEvents, this
      ensures store.Valid() && log == old(log) + [PruneCall(IngestEvents, err)]
      ensures err.Some? ==> store.ingestEvents == old(store.ingestEvents)
      ensures err.None? ==>
                && IsSmallest(LexLeq, EventCandidates(old(store.ingestEvents), cutoff), limit, chosen) && count == |chosen|
                && store.ingestEvents == if dryRun then old(store.ingestEvents) else old(store.ingestEvents) - chosen
    {
      err := *;
      count, chosen := 0, {};
      if err.None? {
        count, chosen := store.DeleteExpiredIngestEvents(cutoff, limit, dryRun);
      }
      log := log + [PruneCall(IngestEvents, err)];
    }

    method InsertAuditEvent(event: AuditEvent) returns (err: Option<Error>)
      modifies store`audits, this
      ensures log == old(log) + [AuditCall(err)]
      ensures store.audits == if err.None? then old(store.audits) + [event] else old(store.audits)
    {
      err := *;
      if err.None? {
        store.InsertAuditEvent(event);
      }
      log := log + [AuditCall(err)];
    }
  }

  class Service {
    const backend: FallibleStore
    const store: MemoryStore  // behind the calls
    const audited: bool       // whether there is an audit writer
    const cfg: Config

    ghost predicate Valid()
      reads store`ingestEvents, store`accounts, store`nextAccountID,
            store`conversations, store`conversationByExternal, store`nextConversationID,
            store`messages, store`messageByExternal, store`nextMessageID, store`attempts, store`attemptByExternal,
            store`nextAttemptID, store`snapshots, store`snapshotByEvent, store`nextSnapshotID
    {
      backend.store == store && store.Valid()
    }

    constructor (backend: FallibleStore, audited: bool, cfg: Config)
      ensures this.backend == backend && this.store == backend.store && this.audited == audited && this.cfg == cfg
    {
      this.backend, this.store, this.audited, this.cfg := backend, backend.store, audited, cfg;
    }

    ghost function Fields(): Kept
      reads store`messageRawPayload, store`audits, store`snapshots, store`ingestEvents
    {
      Kept(store.messageRawPayload, store.audits, store.snapshots, store.ingestEvents)
    }

    function Cutoff(target: Target, now: Time): Time {
      match target
      case RawMessagePayloads => now - cfg.rawMessageWindow
      case AuditEvents => now - cfg.auditEventWindow
      case InfraSnapshots => now - cfg.infraSnapshotWindow
      case IngestEvents => now - cfg.ingestEventWindow
    }

    /** How many items of a target are eligible. */
    ghost function Eligible(kept: Kept, messages: seq<Row<Rows.Message>>, target: Target, cutoff: Time): nat {
      match target
      case RawMessagePayloads => |RawCandidates(messages, kept.raw, cutoff)|
      case AuditEvents => Count(kept.audits, AuditExpired(cutoff))
      case InfraSnapshots => Count(kept.snapshots, StoreRuns.Expired(StoreRuns.ProtectedId(kept.snapshots), cutoff))
      case IngestEvents => |EventCandidates(kept.events, cutoff)|
    }

    /** What is left when an enforcing run has been through a target. */
    ghost function After(kept: Kept, target: Target, cutoff: Time, taken: Taken): Kept {
      match target
      case RawMessagePayloads => kept.(raw := kept.raw - taken.ids)
      case AuditEvents => kept.(audits := DropFirst(kept.audits, AuditExpired(cutoff), cfg.maxRowsPerRun))
      case InfraSnapshots => kept.(snapshots := StoreRuns.RetainSnapshots(kept.snapshots, cutoff, cfg.maxRowsPerRun))
      case IngestEvents => kept.(events := kept.events - taken.keys)
    }

    /** The run takes the smallest eligible keys of the target. */
    ghost predicate TakesSmallest(kept: Kept, messages: seq<Row<Rows.Message>>, target: Target, cutoff: Time, taken: Taken) {
      match target
      case RawMessagePayloads => IsSmallest(IntLeq, RawCandidates(messages, kept.raw, cutoff), cfg.maxRowsPerRun, taken.ids)
      case IngestEvents => IsSmallest(LexLeq, EventCandidates(kept.events, cutoff), cfg.maxRowsPerRun, taken.keys)
      case _ => true
    }

    /** Runs one target, and answers as the store does. */
    method RunTarget(target: Target, cutoff: Time) returns (count: nat, err: Option<Error>, ghost taken: Taken)
      requires Valid()
      modifies store`messageRawPayload, store`audits, store`snapshots, store`ingestEvents, backend
      ensures Valid() && backend.log == old(backend.log) + [PruneCall(target, err)]
      ensures err.Some? ==> Fields() == old(Fields())
      ensures err.None? ==>
                && count == Min(cfg.maxRowsPerRun, Eligible(old(Fields()), store.messages, target, cutoff))
                && TakesSmallest(old(Fields()), store.messages, target, cutoff, taken)
                && Fields() == if cfg.dryRun then old(Fields()) else After(old(Fields()), target, cutoff, taken)
    {
      taken := Taken({}, {});
      match target {
        case RawMessagePayloads =>
          ghost var ids;
          count, err, ids := backend.CompactRawMessagePayloads(cutoff, cfg.maxRowsPerRun, cfg.dryRun);
          taken := Taken(ids, {});
        case AuditEvents =>
          count, err := backend.DeleteExpiredAuditEvents(cutoff, cfg.maxRowsPerRun, cfg.dryRun);
        case InfraSnapshots =>
          count, err := backend.DeleteExpiredInfraSnapshots(cutoff, cfg.maxRowsPerRun, cfg.dryRun);
        case IngestEvents =>
          ghost var keys;
          count, err, keys := backend.DeleteExpiredIngestEvents(cutoff, cfg.maxRowsPerRun, cfg.dryRun);
          taken := Taken({}, keys);
      }
    }

    /** What is left when an enforcing run has been through the first `n` targets. */
    ghost function AfterAll(kept: Kept, now: Time, takes: seq<Taken>): Kept
      requires |takes| <= |TARGETS|
    {
      if takes == [] then kept
      else
        var n := |takes| - 1;
        After(AfterAll(kept, now, takes[..n]), TARGETS[n], Cutoff(TARGETS[n], now), takes[n])
    }

    /** The targets that a run has not been through are as before. */
    lemma {:induction false} LaterTargetsAreUntouched(kept: Kept, now: Time, takes: seq<Taken>)
      requires |takes| <= |TARGETS|
      ensures var after := AfterAll(kept, now, takes);
              && (|takes| <= 0 ==> after.raw == kept.raw) && (|takes| <= 1 ==> after.audits == kept.audits)
              && (|takes| <= 2 ==> after.snapshots == kept.snapshots) && (|takes| <= 3 ==> after.events == kept.events)
    {
      if takes != [] {
        LaterTargetsAreUntouched(kept, now, takes[..|takes| - 1]);
      }
    }

    /** What an enforcing run does to snapshots and ledger events. */
    lemma AfterAllMeans(kept: Kept, now: Time, takes: seq<Taken>)
      requires |takes| <= |TARGETS|
      ensures var after, cutoff := AfterAll(kept, now, takes), Cutoff(InfraSnapshots, now);
              && after.snapshots == (if |takes| > 2 then StoreRuns.RetainSnapshots(kept.snapshots, cutoff, cfg.maxRowsPerRun)
                                     else kept.snapshots)
              && after.events == if |takes| > 3 then kept.events - takes[3].keys else kept.events
    {
      LaterTargetsAreUntouched(kept, now, takes);
      if |takes| > 2 {
        LaterTargetsAreUntouched(kept, now, takes[..|takes| - 1]);
        if |takes| > 3 {
          LaterTargetsAreUntouched(kept, now, takes[..3][..2]);
        }
      }
    }

    /** None of the targets changes what a later one selects. */
    lemma TargetsAreIndependent(kept: Kept, messages: seq<Row<Rows.Message>>, now: Time, takes: seq<Taken>, taken: Taken)
      requires |takes| < |TARGETS|
      ensures var target, after := TARGETS[|takes|], AfterAll(kept, now, takes);
              var cutoff := Cutoff(target, now);
              && Eligible(after, messages, target, cutoff) == Eligible(kept, messages, target, cutoff)
              && (TakesSmallest(after, messages, target, cutoff, taken) <==> TakesSmallest(kept, messages, target, cutoff, taken))
    {
      LaterTargetsAreUntouched(kept, now, takes);
    }

    /** The report of a target: how many items were eligible within the limit, and how many were removed. */
    ghost function Predicted(kept: Kept, messages: seq<Row<Rows.Message>>, target: Target, now: Time): TargetReport {
      var count := Min(cfg.maxRowsPerRun, Eligible(kept, messages, target, Cutoff(target, now)));
      TargetReport(target, Cutoff(target, now), count, if cfg.dryRun then 0 else count)
    }

    /** The reports and the choices are those predicted from `kept`. */
    ghost predicate AsPredicted(reports: seq<TargetReport>, takes: seq<Taken>, kept: Kept,
                                messages: seq<Row<Rows.Message>>, now: Time) {
      && |reports| == |takes| <= |TARGETS|
      && forall i :: 0 <= i < |reports| ==>
           && reports[i] == Predicted(kept, messages, TARGETS[i], now)
           && TakesSmallest(kept, messages, TARGETS[i], Cutoff(TARGETS[i], now), takes[i])
    }

    /** A report says what a target found and removed; a dry run removes nothing. */
    predicate Reports(report: TargetReport, target: Target, cutoff: Time) {
      report.target == target && report.cutoff == cutoff
      && report.affectedCount == if cfg.dryRun then 0 else report.candidateCount
    }

    ghost predicate RawsAsReported(reports: seq<TargetReport>, before: Kept, after: Kept,
                                   messages: seq<Row<Rows.Message>>, now: Time) {
      if |reports| == 0 then after.raw == before.raw
      else
        && Reports(reports[0], RawMessagePayloads, now - cfg.rawMessageWindow)
        && RawsPruned(messages, before.raw, after.raw, now - cfg.rawMessageWindow, cfg.maxRowsPerRun,
                      reports[0].candidateCount, cfg.dryRun)
    }

    ghost predicate AuditsAsReported(reports: seq<TargetReport>, before: Kept, after: Kept, now: Time) {
      if |reports| <= 1 then after.audits == before.audits
      else
        && Reports(reports[1], AuditEvents, now - cfg.auditEventWindow)
        && AuditsPruned(before.audits, after.audits, now - cfg.auditEventWindow, cfg.maxRowsPerRun,
                        reports[1].candidateCount, cfg.dryRun)
    }

    ghost predicate SnapshotsAsReported(reports: seq<TargetReport>, before: Kept, after: Kept, now: Time) {
      if |reports| <= 2 then after.snapshots == before.snapshots
      else
        && Reports(reports[2], InfraSnapshots, now - cfg.infraSnapshotWindow)
        && SnapshotsPruned(before.snapshots, after.snapshots, now - cfg.infraSnapshotWindow, cfg.maxRowsPerRun,
                           reports[2].candidateCount, cfg.dryRun)
    }

    ghost predicate EventsAsReported(reports: seq<TargetReport>, before: Kept, after: Kept, now: Time) {
      if |reports| <= 3 then after.events == before.events
      else
        && Reports(reports[3], IngestEvents, now - cfg.ingestEventWindow)
        && EventsPruned(before.events, after.events, now - cfg.ingestEventWindow, cfg.maxRowsPerRun,
                        reports[3].candidateCount, cfg.dryRun)
    }

    /** A run up to the failing call in terms of the stored times: each target is pruned by its own window, counted
        from `now`, as its report says; the targets behind the failing call stay as they are. */
    ghost predicate AsReported(reports: seq<TargetReport>, before: Kept, after: Kept,
                               messages: seq<Row<Rows.Message>>, now: Time) {
      && RawsAsReported(reports, before, after, messages, now) && AuditsAsReported(reports, before, after, now)
      && SnapshotsAsReported(reports, before, after, now) && EventsAsReported(reports, before, after, now)
    }

    /** What a run leaves when `takes` is what an enforcing run takes. */
    ghost function Left(kept: Kept, now: Time, takes: seq<Taken>): Kept
      requires |takes| <= |TARGETS|
    {
      if cfg.dryRun then kept else AfterAll(kept, now, takes)
    }

    /** What an enforcing run leaves of raw payloads and audit events. */
    lemma AfterEarlierMeans(kept: Kept, now: Time, takes: seq<Taken>)
      requires |takes| <= |TARGETS|
      ensures var after := AfterAll(kept, now, takes);
              && after.raw == (if |takes| > 0 then kept.raw - takes[0].ids else kept.raw)
              && after.audits == if |takes| <= 1 then kept.audits
                                 else DropFirst(kept.audits, AuditExpired(Cutoff(AuditEvents, now)), cfg.maxRowsPerRun)
    {
      if |takes| > 1 {
        AfterEarlierMeans(kept, now, takes[..|takes| - 1]);
      }
    }

    lemma RawsAreReported(reports: seq<TargetReport>, takes: seq<Taken>, kept: Kept,
                          messages: seq<Row<Rows.Message>>, now: Time)
      requires AsPredicted(reports, takes, kept, messages, now)
      ensures RawsAsReported(reports, kept, Left(kept, now, takes), messages, now)
    {
      AfterEarlierMeans(kept, now, takes);
      if |reports| > 0 {
        RawPassMeans(messages, kept.raw, Cutoff(RawMessagePayloads, now), cfg.maxRowsPerRun, takes[0].ids, cfg.dryRun);
      }
    }

    lemma AuditsAreReported(reports: seq<TargetReport>, takes: seq<Taken>, kept: Kept,
                            messages: seq<Row<Rows.Message>>, now: Time)
      requires AsPredicted(reports, takes, kept, messages, now)
      ensures AuditsAsReported(reports, kept, Left(kept, now, takes), now)
    {
      AfterEarlierMeans(kept, now, takes);
      AuditPassMeans(kept.audits, Cutoff(AuditEvents, now), cfg.maxRowsPerRun, cfg.dryRun);
    }

    lemma SnapshotsAreReported(reports: seq<TargetReport>, takes: seq<Taken>, kept: Kept,
                               messages: seq<Row<Rows.Message>>, now: Time)
      requires AsPredicted(reports, takes, kept, messages, now) && UniqueIds(kept.snapshots)
      ensures SnapshotsAsReported(reports, kept, Left(kept, now, takes), now)
    {
      AfterAllMeans(kept, now, takes);
      SnapshotPassMeans(kept.snapshots, Cutoff(InfraSnapshots, now), cfg.maxRowsPerRun, cfg.dryRun);
    }

    lemma EventsAreReported(reports: seq<TargetReport>, takes: seq<Taken>, kept: Kept,
                            messages: seq<Row<Rows.Message>>, now: Time)
      requires AsPredicted(reports, takes, kept, messages, now)
      ensures EventsAsReported(reports, kept, Left(kept, now, takes), now)
    {
      AfterAllMeans(kept, now, takes);
      if |reports| > 3 {
        EventPassMeans(kept.events, Cutoff(IngestEvents, now), cfg.maxRowsPerRun, takes[3].keys, cfg.dryRun);
      }
    }

    /** A run as predicted prunes each target by its window. */
    lemma PredictedIsReported(reports: seq<TargetReport>, takes: seq<Taken>, kept: Kept,
                              messages: seq<Row<Rows.Message>>, now: Time)
      requires AsPredicted(reports, takes, kept, messages, now) && UniqueIds(kept.snapshots)
      ensures AsReported(reports, kept, Left(kept, now, takes), messages, now)
    {
      RawsAreReported(reports, takes, kept, messages, now);
      AuditsAreReported(reports, takes, kept, messages, now);
      SnapshotsAreReported(reports, takes, kept, messages, now);
      EventsAreReported(reports, takes, kept, messages, now);
    }

    lemma OneMoreReport(reports: seq<TargetReport>, takes: seq<Taken>, kept: Kept, messages: seq<Row<Rows.Message>>,
                        now: Time, report: TargetReport, taken: Taken)
      requires AsPredicted(reports, takes, kept, messages, now) && |reports| < |TARGETS|
      requires var target := TARGETS[|reports|];
               && report == Predicted(kept, messages, target, now)
               && TakesSmallest(kept, messages, target, Cutoff(target, now), taken)
      ensures AsPredicted(reports + [report], takes + [taken], kept, messages, now)
      ensures var target := TARGETS[|takes|];
              AfterAll(kept, now, takes + [taken]) == After(AfterAll(kept, now, takes), target, Cutoff(target, now), taken)
    {
      assert (takes + [taken])[..|takes|] == takes;
    }

    /** The run over the targets. It stops at the first failing store call. */
    method RunTargets(now: Time) returns (reports: seq<TargetReport>, err: Option<Error>, ghost takes: seq<Taken>)
      requires Valid()
      modifies store`messageRawPayload, store`audits, store`snapshots, store`ingestEvents, backend
      ensures Valid()
      ensures AsPredicted(reports, takes, old(Fields()), store.messages, now)
      ensures err.None? <==> |reports| == |TARGETS|
      ensures backend.log == if err.None? then Pruned(old(backend.log), |TARGETS|)
                             else Pruned(old(backend.log), |reports|) + [PruneCall(TARGETS[|reports|], err)]
      ensures Fields() == Left(old(Fields()), now, takes)
    {
      ghost var kept, log := Fields(), backend.log;
      reports, err, takes := [], None, [];
      for i := 0 to |TARGETS|
        invariant Valid() && err.None? && |reports| == i && AsPredicted(reports, takes, kept, store.messages, now)
        invariant backend.log == Pruned(log, i)
        invariant Fields() == Left(kept, now, takes)
      {
        var target := TARGETS[i];
        var count;
        ghost var taken;
        count, err, taken := RunTarget(target, Cutoff(target, now));
        if err.Some? {
          return;
        }
        TargetsAreIndependent(kept, store.messages, now, takes, taken);
        var report := TargetReport(target, Cutoff(target, now), count, if cfg.dryRun then 0 else count);
        OneMoreReport(reports, takes, kept, store.messages, now, report, taken);
        reports, takes := reports + [report], takes + [taken];
      }
    }

    /** A run reports for each target what was predicted from the state before it, whether it is dry or not,
        up to the first failing store call. A dry run changes only the audit log. An error is the answer of the
        last call. */
    method RunOnce(now: Time, completedAt: Time) returns (report: Report, err: Option<Error>, ghost takes: seq<Taken>)
      requires Valid()
      modifies store`messageRawPayload, store`audits, store`snapshots, store`ingestEvents, backend
      ensures Valid() && report.dryRun == cfg.dryRun && report.startedAt == now
      ensures AsPredicted(report.targets, takes, old(Fields()), store.messages, now)
      ensures report.completedAt == if |report.targets| == |TARGETS| then Some(completedAt) else None
      ensures backend.log == LogOfRun(old(backend.log), |report.targets|, err, audited)
      ensures |report.targets| < |TARGETS| ==> err.Some?
      ensures |report.targets| == |TARGETS| && !audited ==> err.None?
      ensures var left := if cfg.dryRun then old(Fields()) else AfterAll(old(Fields()), now, takes);
              Fields() == if |report.targets| == |TARGETS| && err.None? && audited
                          then left.(audits := left.audits
                                               + [AuditEvent("retention-worker", "retention.run", "ops_api_data", completedAt)])
                          else left
    {
      var reports;
      reports, err, takes := RunTargets(now);
      report := Report(cfg.dryRun, now, None, reports);
      if err.Some? {
        return;
      }
      report := report.(completedAt := Some(completedAt));
      if audited {
        err := backend.InsertAuditEvent(RunEntry(completedAt));
      }
    }
  }
}
