/** The process that serves the API from memory: one store, the ingest service and the retention service on
    it. Between calls, what the store holds is what some run of the protocol leaves. */
module Api {
  import opened Domain
  import opened Ledger
  import opened LedgerView
  import opened Pruning
  import opened Store
  import opened BatchAccounting
  import opened Leasing
  import opened ServiceCalls
  import opened ServiceLaws
  import opened ServiceModel
  import opened ServiceSteps
  import IngestService
  import Dashboard
  import Keys
  import Protocol
  import ProtocolErrors
  import RetentionService
  import Rows
  import StoreRuns
  import Tables
  import Timeseries

  class Process {
    const store: MemoryStore
    const repo: IngestService.Repository
    const ingest: IngestService.Service
    const backend: RetentionService.FallibleStore
    const retention: RetentionService.Service
    ghost var history: History  // of the store

    /** The history explains the store, and no call is under way. */
    ghost predicate Valid()
      reads this, store, ingest`clock
    {
      && repo.store == store && ingest.repo == repo && retention.store == store && retention.backend == backend
      && backend.store == store
      && store.Valid() && ingest.clock >= 0
      && history in Histories(ingest.config, repo.persistErrors) && history.state.tasks == map[]
      && store.Events() == history.state.ledger && store.State() == history.rows && DeliveredAsKeyed(store.Events())
    }

    constructor (now: Time, config: Protocol.Config, persistErrors: Error -> bool, retentionConfig: RetentionService.Config)
      ensures Valid() && store.State() == StoreRuns.Seeded(now) && store.Events() == map[]
      ensures ingest.config == config.WithDefaults() && repo.persistErrors == persistErrors
      ensures fresh(store) && fresh(repo) && fresh(ingest) && fresh(backend) && retention.audited
    {
      var memory := new MemoryStore(now);
      var calls := new IngestService.Repository(memory, persistErrors);
      var service := new IngestService.Service(calls, config);
      var retained := new RetentionService.FallibleStore(memory);
      var retain := new RetentionService.Service(retained, true, retentionConfig);
      store, repo, ingest, backend, retention := memory, calls, service, retained, retain;
      history := History(Protocol.Init(now), now, [], StoreRuns.Seeded(now));
      new;
      NewStoreHasHistory(ingest.config, persistErrors, now, now);
      ViewOfEmpty();
    }

    /** A delivery, as the ingest handlers make it. The answer says how the ledger then stands; a redelivery changes
        nothing; the first delivery of an event is accepted if no call of the store failed; an error is the answer of
        such a call; and the payload of an event that was accepted, or was before, has been delivered to the rows, if
        no error of the store misleads. */
    method Ingest(payload: Payload) returns (result: IngestResult, err: Option<Error>)
      requires Valid() && !payload.Undecodable?
      modifies this`history, repo, ingest`clock, store
      ensures Valid()
      ensures err.None? ==> KeyOf(payload) in store.Events() && StandsAs(result, store.Events()[KeyOf(payload)])
      ensures err.Some? ==> SomeAnswers(repo.log, |old(repo.log)|, err)
      ensures KeyOf(payload) in old(store.Events()) ==>
                store.Events() == old(store.Events()) && store.State() == old(store.State())
      ensures KeyOf(payload) !in old(store.Events()) && AllSucceed(repo.log, |old(repo.log)|) ==>
                result.outcome == Accepted && err.None? && store.Events()[KeyOf(payload)].payload == payload
      ensures ProtocolErrors.NoneMisleads(ingest.config, repo.persistErrors) && err.None?
              && (result.outcome == Accepted || result.outcome == Duplicate) ==>
                StoreRuns.Delivered(store.Events()[KeyOf(payload)].payload) in history.ops
    {
      ghost var h, l, log := history, store.Events(), repo.log;
      ghost var first, stored, calls;
      result, err, first, stored, calls := ingest.Ingest(KeyOf(payload), payload);
      if first {
        ghost var h' := DeliveryIsRun(ingest.config, repo.persistErrors, h, KeyOf(payload), payload, stored.firstSeenAt, calls);
        history := h';
        FirstDelivery(l, log, stored, calls, result, err);
      } else if err.None? {
        RedeliveryStands(result, l[KeyOf(payload)]);
      } else {
        FailureIsLogged(log, ClaimCall(err));
      }
      if ProtocolErrors.NoneMisleads(ingest.config, repo.persistErrors) && err.None?
         && (result.outcome == Accepted || result.outcome == Duplicate) {
        CompletedWasDelivered(ingest.config, repo.persistErrors, history, KeyOf(payload));
      }
    }

    lemma FirstDelivery(l: Events, log: seq<StoreCall>, stored: Record, calls: Calls, result: IngestResult, err: Option<Error>)
      requires DeliveredAsKeyed(l) && !stored.payload.Undecodable? && stored.key == KeyOf(stored.payload)
      requires stored.status == Processing && !stored.IsCompletionRetry()
      requires var l' := LedgerAfter(ingest.config, l[stored.key := stored], stored, calls);
               && Answer(result.outcome, err) == AnswerOf(ingest.config, l[stored.key := stored], stored, calls)
               && Describes(result, stored, l')
      ensures var l' := LedgerAfter(ingest.config, l[stored.key := stored], stored, calls);
              && DeliveredAsKeyed(l') && stored.key in l' && l'[stored.key].payload == stored.payload
              && (err.None? ==> StandsAs(result, l'[stored.key]))
              && (err.Some? ==> SomeAnswers(LogAfter(log + [ClaimCall(None)], stored, true, calls), |log|, err))
              && (AllSucceed(LogAfter(log + [ClaimCall(None)], stored, true, calls), |log|) ==>
                    result.outcome == Accepted && err.None?)
    {
      var claimed := l[stored.key := stored];
      PassKeepsKeys(ingest.config, claimed, stored, calls);
      if err.None? {
        DeliveryStands(ingest.config, claimed, stored, calls, result, err);
      } else {
        DeliveryErrorIsAnswered(ingest.config, claimed, log + [ClaimCall(None)], stored, calls);
      }
      if AllSucceed(LogAfter(log + [ClaimCall(None)], stored, true, calls), |log|) {
        CleanPass(log + [ClaimCall(None)], stored, true, calls, |log|);
      }
    }

    /** A tick of the retry worker. It leases what is due; the answer counts how the leased events then stand; other
        events stay as they are; an error is the answer of a call of the store; and if no call failed, all leased
        events are completed. */
    method ProcessDueRetries(limit: int)
      returns (result: BatchResult, err: Option<Error>, ghost leased: bool, ghost at: Time, ghost batch: seq<Record>,
               ghost items: seq<Record>)
      requires Valid()
      modifies this`history, repo, ingest`clock, store
      ensures Valid() && old(ingest.clock) <= at
      ensures err.Some? ==> SomeAnswers(repo.log, |old(repo.log)|, err)
      ensures !leased ==> store.Events() == old(store.Events()) && err.Some?
      ensures leased ==>
                && AskedTakesDue(ingest.config, old(store.Events()), at, limit, batch) && items == LeasedAll(batch, at)
                && result.processed == |batch| && Accounts(result, err.Some?, items, store.Events())
                && OthersStay(old(store.Events()), store.Events(), batch)
      ensures AllSucceed(repo.log, |old(repo.log)|) ==>
                && leased && err.None? && result.completed == result.processed
                && AllCompleted(store.Events(), batch, |batch|)
    {
      ghost var h, l, log, events := history, store.Events(), repo.log, store.ingestEvents;
      ghost var passes;
      result, err, leased, at, batch, items, passes := ingest.ProcessDueRetries(limit);
      if leased {
        ghost var h' := BatchIsRun(ingest.config, repo.persistErrors, h, l, at, limit, batch, items, passes);
        history := h';
        ViewIsWellKeyed(events);
        BatchKeepsKeys(ingest.config, l, at, batch, items, passes);
        BatchLaw(ingest.config, l, at, limit, batch, items, log, passes);
        BatchStands(ingest.config, l, at, limit, batch, items, passes);
        BatchErrorLaw(ingest.config, l, at, limit, batch, items, log, passes);
      } else {
        FailureIsLogged(log, LeaseCall(err));
      }
    }

    /** What a retention run leaves is what steps of the protocol and operations on the rows leave. */
    lemma RetentionIsRun(h: History, kept: RetentionService.Kept, reports: seq<RetentionService.TargetReport>,
                         messages: seq<Tables.Row<Rows.Message>>, now: Time, takes: seq<RetentionService.Taken>)
      returns (h': History)
      requires h in Histories(ingest.config, repo.persistErrors) && h.state.tasks == map[]
      requires Keyed(kept.events) && h.state.ledger == View(kept.events) && h.rows.snapshots.rows == kept.snapshots
      requires retention.AsPredicted(reports, takes, kept, messages, now)
      ensures h' in Histories(ingest.config, repo.persistErrors) && h'.state.tasks == map[]
      ensures DeliveredAsKeyed(h.state.ledger) ==> DeliveredAsKeyed(h'.state.ledger)
      ensures var after := retention.AfterAll(kept, now, takes);
              && Keyed(after.events) && h'.state.ledger == View(after.events)
              && h'.rows == h.rows.(snapshots := h.rows.snapshots.(rows := after.snapshots))
    {
      var cutoff, limit := retention.Cutoff(RetentionService.InfraSnapshots, now), retention.cfg.maxRowsPerRun;
      retention.AfterAllMeans(kept, now, takes);
      h' := h;
      if |takes| > 2 {
        RetentionExtends(ingest.config, repo.persistErrors, h, cutoff, limit);
        h' := Operated(h, StoreRuns.SnapshotsRetained(cutoff, limit));
      }
      if |takes| > 3 {
        var keys := takes[3].keys;
        assert retention.TakesSmallest(kept, messages, RetentionService.IngestEvents,
                                       retention.Cutoff(RetentionService.IngestEvents, now), takes[3]);
        CandidatesAreTerminal(kept.events, retention.Cutoff(RetentionService.IngestEvents, now), keys);
        h' := Deletes(ingest.config, repo.persistErrors, h', Identities(kept.events, keys));
        if DeliveredAsKeyed(h.state.ledger) {
          DeletionKeepsKeys(h.state.ledger, Identities(kept.events, keys));
        }
      }
    }

    /** After a retention run, dry or not, the store has a history. */
    lemma RetentionHasHistory(h: History, kept: RetentionService.Kept, reports: seq<RetentionService.TargetReport>,
                              messages: seq<Tables.Row<Rows.Message>>, now: Time, takes: seq<RetentionService.Taken>,
                              rows: Rows.StoreRows)
      returns (h': History)
      requires h in Histories(ingest.config, repo.persistErrors) && h.state.tasks == map[] && DeliveredAsKeyed(h.state.ledger)
      requires Keyed(kept.events) && h.state.ledger == View(kept.events)
      requires h.rows == rows && rows.snapshots.rows == kept.snapshots
      requires retention.AsPredicted(reports, takes, kept, messages, now)
      requires store.Valid() && store.State() == rows.(snapshots := rows.snapshots.(rows := store.snapshots))
      requires var left := retention.Left(kept, now, takes);
               store.ingestEvents == left.events && store.snapshots == left.snapshots
      ensures h' in Histories(ingest.config, repo.persistErrors) && h'.state.tasks == map[]
      ensures store.Events() == h'.state.ledger && store.State() == h'.rows && DeliveredAsKeyed(store.Events())
    {
      h' := h;
      if !retention.cfg.dryRun {
        h' := RetentionIsRun(h, kept, reports, messages, now, takes);
      }
    }

    /** A tick of the retention worker. Each target is pruned by its window, as the report says, up to the first
        failing call of the store; an error is the answer of the last call. */
    method RunRetention(now: Time, completedAt: Time)
      returns (report: RetentionService.Report, err: Option<Error>, ghost pruned: RetentionService.Kept)
      requires Valid()
      modifies this`history, store, backend
      ensures Valid() && |report.targets| <= |RetentionService.TARGETS|
      ensures |report.targets| < |RetentionService.TARGETS| ==> err.Some?
      ensures backend.log == RetentionService.LogOfRun(old(backend.log), |report.targets|, err, retention.audited)
      ensures retention.AsReported(report.targets, old(retention.Fields()), pruned, old(store.messages), now)
      ensures retention.Fields() == Entered(pruned, err.None? && retention.audited, completedAt)
    {
      ghost var kept, messages, takes := retention.Fields(), store.messages, [];
      store.StoreIsIntact();
      report, err, takes := PruneStore(now, completedAt);
      pruned := retention.Left(kept, now, takes);
      retention.PredictedIsReported(report.targets, takes, kept, messages, now);
    }

    /** The run itself, which leaves the store with a history. */
    method PruneStore(now: Time, completedAt: Time)
      returns (report: RetentionService.Report, err: Option<Error>, ghost takes: seq<RetentionService.Taken>)
      requires Valid()
      modifies this`history, store, backend
      ensures Valid()
      ensures retention.AsPredicted(report.targets, takes, old(retention.Fields()), old(store.messages), now)
      ensures |report.targets| < |RetentionService.TARGETS| ==> err.Some?
      ensures backend.log == RetentionService.LogOfRun(old(backend.log), |report.targets|, err, retention.audited)
      ensures retention.Fields()
           == Entered(retention.Left(old(retention.Fields()), now, takes), err.None? && retention.audited, completedAt)
    {
      ghost var h, kept, messages, rows := history, retention.Fields(), store.messages, store.State();
      report, err, takes := retention.RunOnce(now, completedAt);
      assert store.State() == rows.(snapshots := rows.snapshots.(rows := store.snapshots));
      ghost var h' := RetentionHasHistory(h, kept, report.targets, messages, now, takes, rows);
      history := h';
    }

    /** What retention leaves, with the run entered into the audit log if it was. */
    function Entered(left: RetentionService.Kept, entered: bool, completedAt: Time): RetentionService.Kept {
      if entered
      then left.(audits := left.audits + [AuditEvent("retention-worker", "retention.run", "ops_api_data", completedAt)])
      else left
    }

    /** The dashboard's summary of a range, in terms of what was delivered: it counts the request attempts whose last
        delivery falls into the range, and the seeded one if it does; its errors are those that this delivery says
        failed. */
    method GetSummary(from: Time, to: Time) returns (summary: Timeseries.Summary, ghost errors: int)
      requires Valid()
      ensures summary.requestsTotal == |Dashboard.WhereHappened(history.ops, from, to, false)|
                + if from <= history.seededAt - 2 * HOUR + 20 * SECOND <= to then 1 else 0
      ensures errors == |Dashboard.WhereHappened(history.ops, from, to, true)|
      ensures summary.errorRate * summary.requestsTotal as real == errors as real
      ensures summary.requestsTotal == 0 ==> summary.errorRate == 0.0
    {
      summary, errors := Timeseries.GetSummary(store.conversations, store.attempts, from, to);
      AttemptsAreOfHistory();
      Dashboard.RequestsCounted(history.seededAt, history.ops, from, to);
      Dashboard.FailuresCounted(history.seededAt, history.ops, from, to);
    }

    lemma AttemptsAreOfHistory()
      requires Valid()
      ensures store.attempts == StoreRuns.RunOps(StoreRuns.Seeded(history.seededAt), history.ops).attempts.rows
    {
      HistoriesAreReal(ingest.config, repo.persistErrors, history);
      assert store.State().attempts.rows == store.attempts;
    }

    /** End to end: the payload of a completed event was delivered to the rows that the store holds, if no
        error of the store misleads. */
    lemma CompletedIsStored(k: EventKey)
      requires Valid() && ProtocolErrors.NoneMisleads(ingest.config, repo.persistErrors)
      requires k in store.Events() && store.Events()[k].status == Completed
      ensures StoreRuns.Delivered(store.Events()[k].payload) in history.ops
      ensures store.State() == StoreRuns.RunOps(StoreRuns.Seeded(history.seededAt), history.ops)
    {
      CompletedWasDelivered(ingest.config, repo.persistErrors, history, k);
    }

    /** In particular a completed conversation event has a row that takes it into account. */
    lemma CompletedConversationIsReflected(k: EventKey)
      requires Valid() && ProtocolErrors.NoneMisleads(ingest.config, repo.persistErrors)
      requires k in store.Events() && store.Events()[k].status == Completed && store.Events()[k].payload.ConversationPayload?
      ensures var e := store.Events()[k].payload.conversation;
              var row := Tables.Lookup(store.Conversations(), Keys.IngestKey(e.source, e.conversation.externalID));
              row.Some? && Reflects(row.value, e.conversation)
    {
      CompletedConversationHasRow(ingest.config, repo.persistErrors, history, k);
    }
  }
}
