/** The protocol seen from one call of the ingest service: the history of a store, and what the calls of a
    delivery or of a retry batch add to it. */
module ServiceModel {
  import opened Domain
  import opened Ledger
  import opened Protocol
  import opened ProtocolErrors
  import opened ProtocolPayload
  import opened ProtocolRuns
  import opened ProtocolTimed
  import opened StoreRuns
  import Keys
  import Merge
  import Rows
  import Tables

  /** What a store has been through: a protocol state, and the operations on the rows with their outcome. */
  datatype History = History(state: State, seededAt: Time, ops: seq<Op>, rows: Rows.StoreRows)

  function Operated(h: History, op: Op): History {
    h.(ops := h.ops + [op], rows := ApplyOp(h.rows, op))
  }

  predicate PersistsPayload(step: Step) {
    step.PersistOk? || step.PersistLost?
  }

  /** A protocol step also delivers the payload to the rows when it persists one. */
  function After(c: Config, h: History, step: Step): History
    requires Enabled(c, h.state, step)
  {
    var moved := h.(state := Apply(c, h.state, step));
    if PersistsPayload(step) then Operated(moved, Delivered(h.state.tasks[step.t].r.payload)) else moved
  }

  /** The step spares what it must, and its transient persist error, if any, is one of `errs`. */
  ghost predicate Fair(c: Config, errs: Error -> bool, s: State, step: Step) {
    Spares(c, s, step) && Allowed(errs, step)
  }

  /** Holds the histories of new stores, and is closed under protocol steps and under retention of snapshots. */
  ghost predicate Closed(c: Config, errs: Error -> bool, hs: iset<History>) {
    && (forall start, at :: History(Init(start), at, [], Seeded(at)) in hs)
    && (forall h, step :: h in hs && Enabled(c, h.state, step) && Fair(c, errs, h.state, step) ==> After(c, h, step) in hs)
    && (forall h, cutoff, limit :: h in hs ==> Operated(h, SnapshotsRetained(cutoff, limit)) in hs)
  }

  ghost predicate InEveryClosedSet(c: Config, errs: Error -> bool, h: History) {
    forall hs :: Closed(c, errs, hs) ==> h in hs
  }

  /** The histories that are possible when the transient errors of persist calls are among `errs`. */
  ghost function Histories(c: Config, errs: Error -> bool): iset<History> {
    iset h | InEveryClosedSet(c, errs, h)
  }

  lemma NewStoreHasHistory(c: Config, errs: Error -> bool, start: Time, at: Time)
    ensures History(Init(start), at, [], Seeded(at)) in Histories(c, errs)
  {
  }

  lemma StepExtends(c: Config, errs: Error -> bool, h: History, step: Step)
    requires h in Histories(c, errs) && Enabled(c, h.state, step) && Fair(c, errs, h.state, step)
    ensures After(c, h, step) in Histories(c, errs)
  {
    forall hs | Closed(c, errs, hs) ensures After(c, h, step) in hs {
      assert h in hs;
    }
  }

  lemma RetentionExtends(c: Config, errs: Error -> bool, h: History, cutoff: Time, limit: nat)
    requires h in Histories(c, errs)
    ensures Operated(h, SnapshotsRetained(cutoff, limit)) in Histories(c, errs)
  {
    forall hs | Closed(c, errs, hs) ensures Operated(h, SnapshotsRetained(cutoff, limit)) in hs {
      assert h in hs;
    }
  }

  ghost predicate IsTrace(c: Config, errs: Error -> bool, start: Time, steps: seq<Step>, s: State) {
    && Legal(c, Init(start), steps) && SparingRun(c, Init(start), steps) && AllAllowed(errs, steps)
    && Run(c, Init(start), steps) == s
  }

  ghost predicate HasTrace(c: Config, errs: Error -> bool, s: State) {
    exists start, steps :: IsTrace(c, errs, start, steps, s)
  }

  ghost predicate PayloadsDelivered(h: History) {
    forall k, payload :: (k, payload) in h.state.appliedPayloads ==> Delivered(payload) in h.ops
  }

  /** The protocol state is the end of a run, the rows are those of a run of the store, and every payload
      that the protocol counts as persisted was delivered to the rows. */
  ghost predicate IsReal(c: Config, errs: Error -> bool, h: History) {
    && HasTrace(c, errs, h.state) && FreshNumbers(h.state)
    && h.rows == RunOps(Seeded(h.seededAt), h.ops)
    && PayloadsDelivered(h)
  }

  lemma {:induction false} SparingRunAppends(c: Config, s: State, steps: seq<Step>, step: Step)
    requires Legal(c, s, steps) && SparingRun(c, s, steps)
    requires Enabled(c, Run(c, s, steps), step) && Spares(c, Run(c, s, steps), step)
    ensures Legal(c, s, steps + [step]) && SparingRun(c, s, steps + [step])
    decreases |steps|
  {
    var longer := Extend(c, s, steps, step);
    if steps == [] {
      assert ([] + [step])[1..] == [];
    } else {
      SparingRunAppends(c, Apply(c, s, steps[0]), steps[1..], step);
      assert (steps + [step])[1..] == steps[1..] + [step];
    }
  }

  lemma TraceExtends(c: Config, errs: Error -> bool, start: Time, steps: seq<Step>, s: State, step: Step)
    requires IsTrace(c, errs, start, steps, s) && Enabled(c, s, step) && Fair(c, errs, s, step)
    ensures IsTrace(c, errs, start, steps + [step], Apply(c, s, step))
  {
    var longer := Extend(c, Init(start), steps, step);
    SparingRunAppends(c, Init(start), steps, step);
  }

  lemma StepKeepsTrace(c: Config, errs: Error -> bool, s: State, step: Step)
    requires HasTrace(c, errs, s) && Enabled(c, s, step) && Fair(c, errs, s, step)
    ensures HasTrace(c, errs, Apply(c, s, step))
  {
    var start, steps :| IsTrace(c, errs, start, steps, s);
    TraceExtends(c, errs, start, steps, s, step);
  }

  lemma OperatedRuns(h: History, op: Op)
    requires h.rows == RunOps(Seeded(h.seededAt), h.ops)
    ensures Operated(h, op).rows == RunOps(Seeded(h.seededAt), Operated(h, op).ops)
  {
    OneMoreOp(Seeded(h.seededAt), h.ops, op);
  }

  lemma StepDelivers(c: Config, h: History, step: Step)
    requires PayloadsDelivered(h) && Enabled(c, h.state, step)
    ensures PayloadsDelivered(After(c, h, step))
  {
  }

  lemma StepKeepsReal(c: Config, errs: Error -> bool, h: History, step: Step)
    requires IsReal(c, errs, h) && Enabled(c, h.state, step) && Fair(c, errs, h.state, step)
    ensures IsReal(c, errs, After(c, h, step))
  {
    StepKeepsTrace(c, errs, h.state, step);
    StepKeepsNumbersFresh(c, h.state, step);
    StepDelivers(c, h, step);
    if PersistsPayload(step) {
      OperatedRuns(h, Delivered(h.state.tasks[step.t].r.payload));
    }
  }

  ghost function RealHistories(c: Config, errs: Error -> bool): iset<History> {
    iset h | IsReal(c, errs, h)
  }

  lemma NewStoreIsReal(c: Config, errs: Error -> bool, start: Time, at: Time)
    ensures IsReal(c, errs, History(Init(start), at, [], Seeded(at)))
  {
    assert IsTrace(c, errs, start, [], Init(start));
  }

  lemma RetentionKeepsReal(c: Config, errs: Error -> bool, h: History, cutoff: Time, limit: nat)
    requires IsReal(c, errs, h)
    ensures IsReal(c, errs, Operated(h, SnapshotsRetained(cutoff, limit)))
  {
    OperatedRuns(h, SnapshotsRetained(cutoff, limit));
  }

  lemma NewStoresAreReal(c: Config, errs: Error -> bool)
    ensures forall start, at :: History(Init(start), at, [], Seeded(at)) in RealHistories(c, errs)
  {
    forall start, at ensures History(Init(start), at, [], Seeded(at)) in RealHistories(c, errs) {
      NewStoreIsReal(c, errs, start, at);
    }
  }

  lemma StepsKeepReal(c: Config, errs: Error -> bool)
    ensures forall h, step :: h in RealHistories(c, errs) && Enabled(c, h.state, step) && Fair(c, errs, h.state, step) ==>
              After(c, h, step) in RealHistories(c, errs)
  {
    forall h, step | h in RealHistories(c, errs) && Enabled(c, h.state, step) && Fair(c, errs, h.state, step)
      ensures After(c, h, step) in RealHistories(c, errs)
    {
      StepKeepsReal(c, errs, h, step);
    }
  }

  lemma RetentionsKeepReal(c: Config, errs: Error -> bool)
    ensures forall h, cutoff, limit :: h in RealHistories(c, errs) ==>
              Operated(h, SnapshotsRetained(cutoff, limit)) in RealHistories(c, errs)
  {
    forall h, cutoff, limit | h in RealHistories(c, errs)
      ensures Operated(h, SnapshotsRetained(cutoff, limit)) in RealHistories(c, errs)
    {
      RetentionKeepsReal(c, errs, h, cutoff, limit);
    }
  }

  lemma RealHistoriesAreClosed(c: Config, errs: Error -> bool)
    ensures Closed(c, errs, RealHistories(c, errs))
  {
    NewStoresAreReal(c, errs);
    StepsKeepReal(c, errs);
    RetentionsKeepReal(c, errs);
  }

  /** Possible histories are real. */
  lemma HistoriesAreReal(c: Config, errs: Error -> bool, h: History)
    requires h in Histories(c, errs)
    ensures IsReal(c, errs, h)
  {
    RealHistoriesAreClosed(c, errs);
    assert h in RealHistories(c, errs);
  }

  /** The payload of a completed event was delivered to the rows, if no error of the stores misleads. */
  lemma CompletedWasDelivered(c: Config, errs: Error -> bool, h: History, k: EventKey)
    requires c.Valid() && NoneMisleads(c, errs)
    requires h in Histories(c, errs) && k in h.state.ledger && h.state.ledger[k].status == Completed
    ensures Delivered(h.state.ledger[k].payload) in h.ops && h.rows == RunOps(Seeded(h.seededAt), h.ops)
  {
    HistoriesAreReal(c, errs, h);
    var start, steps :| IsTrace(c, errs, start, steps, h.state);
    AllowedErrorsArePlain(c, errs, steps);
    CompletedImpliesOwnPayloadApplied(c, start, steps, k);
  }

  lemma {:induction false} DeliveredCounts(ops: seq<Op>, e: ConversationEvent)
    requires Delivered(ConversationPayload(e)) in ops
    ensures Merge.FromInput(0, e.conversation) in Deliveries(ops, e.source, e.conversation.externalID)
  {
    if ops[|ops| - 1] != Delivered(ConversationPayload(e)) {
      DeliveredCounts(ops[..|ops| - 1], e);
    }
  }

  /** The row takes a delivery into account: it starts no later and ends no earlier. */
  predicate Reflects(row: Merge.Conversation, input: ConversationInput) {
    && row.startedAt <= input.startedAt
    && (input.endedAt.Some? ==> row.endedAt.Some? && row.endedAt.value >= input.endedAt.value)
  }

  lemma FoldReflects(ds: seq<Merge.Conversation>, input: ConversationInput)
    requires Merge.FromInput(0, input) in ds
    ensures Reflects(Merge.Fold(Merge.InMemory, ds), input)
  {
    var i :| 0 <= i < |ds| && ds[i] == Merge.FromInput(0, input);
    var d := Merge.FoldMeaning(Merge.InMemory, ds);
  }

  /** A completed conversation event has a conversation row that takes it into account. */
  lemma CompletedConversationHasRow(c: Config, errs: Error -> bool, h: History, k: EventKey)
    requires c.Valid() && NoneMisleads(c, errs)
    requires h in Histories(c, errs) && k in h.state.ledger && h.state.ledger[k].status == Completed
    requires h.state.ledger[k].payload.ConversationPayload?
    ensures var e := h.state.ledger[k].payload.conversation;
            var row := Tables.Lookup(h.rows.conversations, Keys.IngestKey(e.source, e.conversation.externalID));
            row.Some? && Reflects(row.value, e.conversation)
  {
    var e := h.state.ledger[k].payload.conversation;
    CompletedWasDelivered(c, errs, h, k);
    DeliveredCounts(h.ops, e);
    RowIsFoldOfDeliveries(h.seededAt, h.ops, e.source, e.conversation.externalID);
    FoldReflects(Deliveries(h.ops, e.source, e.conversation.externalID), e.conversation);
  }
}
