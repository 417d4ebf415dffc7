/** The in-memory store: row slices, indexes, next ids and the ledger, all updated in place. */
module Store {
  import opened Domain
  import opened Keys
  import opened Ledger
  import opened LedgerView
  import opened Tables
  import opened Sorting
  import opened Retention
  import opened Leasing
  import opened Pruning
  import opened QueueStatus
  import Merge
  import Rows
  import StoreRuns

  datatype Outcome = NoOutcome | Accepted | Duplicate | Queued | DeadLettered

  datatype IngestResult = IngestResult(key: EventKey, outcome: Outcome, duplicate: bool, queued: bool, attemptCount: int)

  /** How the answer to a recorded failure names what the ledger then holds. */
  function OutcomeIn(l: Events, k: EventKey): Outcome {
    if k !in l then NoOutcome else if l[k].status == RetryScheduled then Queued else DeadLettered
  }

  /** The answer to a recorded failure says how the ledger stands. */
  predicate Answers(result: IngestResult, k: EventKey, l: Events) {
    && result.outcome == OutcomeIn(l, k)
    && (k in l ==>
          && result.key == k && result.attemptCount == l[k].attemptCount && !result.duplicate
          && (result.queued <==> l[k].status == RetryScheduled))
  }

  lemma StampOne(l: Events, m: Encoded, now: Time, staleBefore: Time, batch: seq<Record>, i: nat)
    requires AreDue(l, now, staleBefore, batch) && i < |batch|
    requires Keyed(m) && View(m) == TakeBatch(l, now, batch[..i])
    ensures var item := Leased(batch[i], now);
            var m' := m[IngestEventKey(item.key) := item];
            Keyed(m') && View(m') == TakeBatch(l, now, batch[..i + 1])
  {
    ViewPut(m, Leased(batch[i], now));
    TakeOneMore(l, now, staleBefore, batch, i);
  }

  class MemoryStore {
    var accounts: seq<Row<Rows.Account>>
    var conversations: seq<Row<Merge.Conversation>>
    var messages: seq<Row<Rows.Message>>
    var attempts: seq<Row<Rows.Attempt>>
    var snapshots: seq<Row<Rows.Snapshot>>
    var audits: seq<AuditEvent>
    var messageRawPayload: map<int, Bytes>
    var nextAccountID: int
    var nextConversationID: int
    var nextMessageID: int
    var nextAttemptID: int
    var nextSnapshotID: int
    var conversationByExternal: map<Bytes, int>
    var messageByExternal: map<Bytes, int>
    var attemptByExternal: map<Bytes, int>
    var snapshotByEvent: map<Bytes, int>
    var ingestEvents: Encoded

    ghost function Conversations(): Table<Merge.Conversation>
      reads this`conversations, this`conversationByExternal, this`nextConversationID
    {
      Table(conversations, conversationByExternal, nextConversationID)
    }

    ghost function Messages(): Table<Rows.Message>
      reads this`messages, this`messageByExternal, this`nextMessageID
    {
      Table(messages, messageByExternal, nextMessageID)
    }

    ghost function Attempts(): Table<Rows.Attempt>
      reads this`attempts, this`attemptByExternal, this`nextAttemptID
    {
      Table(attempts, attemptByExternal, nextAttemptID)
    }

    ghost function Snapshots(): Table<Rows.Snapshot>
      reads this`snapshots, this`snapshotByEvent, this`nextSnapshotID
    {
      Table(snapshots, snapshotByEvent, nextSnapshotID)
    }

    /** The rows of the store, as a value. */
    ghost function State(): Rows.StoreRows
      reads this`accounts, this`nextAccountID, this`conversations, this`conversationByExternal, this`nextConversationID,
            this`messages, this`messageByExternal, this`nextMessageID, this`attempts, this`attemptByExternal,
            this`nextAttemptID, this`snapshots, this`snapshotByEvent, this`nextSnapshotID
    {
      Rows.StoreRows(Rows.Accounts(accounts, nextAccountID), Conversations(), Messages(), Attempts(), Snapshots())
    }

    /** The ledger, keyed by event identities. */
    ghost function Events(): Events
      reads this`ingestEvents
      requires Keyed(ingestEvents)
    {
      View(ingestEvents)
    }

    /** The ledger is stored under the encoded identities, and the rows are those of some operations. */
    ghost predicate Valid()
      reads this`ingestEvents, this`accounts, this`nextAccountID,
            this`conversations, this`conversationByExternal, this`nextConversationID,
            this`messages, this`messageByExternal, this`nextMessageID, this`attempts, this`attemptByExternal,
            this`nextAttemptID, this`snapshots, this`snapshotByEvent, this`nextSnapshotID
    {
      Keyed(ingestEvents) && State() in StoreRuns.ReachableRows()
    }

    /** Store integrity: ids, indexes and parent references are intact in every state of the store. */
    lemma StoreIsIntact()
      requires Valid()
      ensures Rows.Intact(State())
    {
      var now, ops := StoreRuns.ReachableIsRun(State());
      StoreRuns.ReachableIsIntact(now, ops);
    }

    constructor (now: Time)
      ensures Valid()
      ensures State() == StoreRuns.Seeded(now) && ingestEvents == map[] && audits == []
      ensures messageRawPayload == map[1 := Ascii("seed-raw-payload")]
    {
      var seeded := StoreRuns.Seeded(now);
      accounts, nextAccountID := seeded.accounts.rows, seeded.accounts.next;
      conversations, conversationByExternal := seeded.conversations.rows, seeded.conversations.index;
      messages, messageByExternal := seeded.messages.rows, seeded.messages.index;
      attempts, attemptByExternal := seeded.attempts.rows, seeded.attempts.index;
      snapshots, snapshotByEvent := seeded.snapshots.rows, seeded.snapshots.index;
      nextConversationID, nextMessageID := seeded.conversations.next, seeded.messages.next;
      nextAttemptID, nextSnapshotID := seeded.attempts.next, seeded.snapshots.next;
      audits, ingestEvents := [], map[];
      messageRawPayload := map[1 := Ascii("seed-raw-payload")];
      new;
      StoreRuns.SeededIsReachable(now);
    }

    /** Inserts the event unless its key is already in the ledger. */
    method ClaimEvent(event: Record) returns (stored: Record, inserted: bool)
      requires Valid()
      modifies this`ingestEvents
      ensures Valid()
      ensures Events() == Claim(old(Events()), event)
      ensures Events() == if event.key in old(Events()) then old(Events()) else old(Events())[event.key := event]
      ensures inserted <==> event.key !in old(Events())
      ensures event.key in Events() && stored == Events()[event.key]
    {
      var key := IngestEventKey(event.key);
      ViewLookup(ingestEvents, event.key);
      if key in ingestEvents {
        return ingestEvents[key], false;
      }
      ViewPut(ingestEvents, event);
      ingestEvents := ingestEvents[key := event];
      return event, true;
    }

    method MarkEventCompleted(k: EventKey)
      requires Valid()
      modifies this`ingestEvents
      ensures Valid()
      ensures Events() == Complete(old(Events()), k)
      ensures Events() == if k !in old(Events()) then old(Events())
                          else old(Events())[k := old(Events())[k].(status := Completed, lastError := "",
                                                                    nextRetryAt := ZERO_TIME)]
    {
      var key := IngestEventKey(k);
      ViewLookup(ingestEvents, k);
      if key !in ingestEvents {
        return;
      }
      var event := ingestEvents[key].(status := Completed, lastError := "", nextRetryAt := ZERO_TIME);
      ViewPut(ingestEvents, event);
      ingestEvents := ingestEvents[key := event];
    }

    method RecordEventFailure(k: EventKey, lastError: string, nextRetryAt: Time, maxAttempts: int)
      returns (result: IngestResult)
      requires Valid()
      modifies this`ingestEvents
      ensures Valid()
      ensures Events() == Fail(old(Events()), k, lastError, nextRetryAt, maxAttempts)
      ensures k !in old(Events()) ==> Events() == old(Events()) && result.outcome == NoOutcome
      ensures k in old(Events()) ==>
                var retried := nextRetryAt != ZERO_TIME && old(Events())[k].attemptCount < maxAttempts;
                Events() == old(Events())[k := old(Events())[k].(status := if retried then RetryScheduled else DeadLetter,
                  lastError := lastError, nextRetryAt := if retried then nextRetryAt else ZERO_TIME)]
      ensures k in old(Events()) ==>
                && result.key == k && result.attemptCount == old(Events())[k].attemptCount && !result.duplicate
                && (result.outcome == Queued <==> Events()[k].status == RetryScheduled)
                && (result.outcome == DeadLettered <==> Events()[k].status == DeadLetter)
                && (result.queued <==> result.outcome == Queued)
      ensures Answers(result, k, Events())
    {
      var key := IngestEventKey(k);
      ViewLookup(ingestEvents, k);
      if key !in ingestEvents {
        return IngestResult(EventKey([], [], []), NoOutcome, false, false, 0);
      }
      var event := ingestEvents[key];
      result := IngestResult(k, NoOutcome, false, false, event.attemptCount);
      if nextRetryAt == ZERO_TIME || event.attemptCount >= maxAttempts {
        event := event.(status := DeadLetter, lastError := lastError, nextRetryAt := ZERO_TIME);
        ViewPut(ingestEvents, event);
        ingestEvents := ingestEvents[key := event];
        return result.(outcome := DeadLettered);
      }
      event := event.(status := RetryScheduled, lastError := lastError, nextRetryAt := nextRetryAt);
      ViewPut(ingestEvents, event);
      ingestEvents := ingestEvents[key := event];
      return result.(outcome := Queued, queued := true);
    }

    /** The due records of the ledger, in the arbitrary order of a map. */
    method CollectDue(now: Time, staleBefore: Time) returns (due: seq<Record>)
      requires Valid()
      ensures AreDue(Events(), now, staleBefore, due) && HasAllDue(Events(), now, staleBefore, due)
    {
      due := [];
      var todo := ingestEvents.Keys;
      while todo != {}
        invariant todo <= ingestEvents.Keys && DistinctKeys(due)
        invariant forall i :: 0 <= i < |due| ==>
                    var b := IngestEventKey(due[i].key);
                    b in ingestEvents && b !in todo && ingestEvents[b] == due[i] && Leaseable(due[i], now, staleBefore)
        invariant forall b :: b in ingestEvents && b !in todo && Leaseable(ingestEvents[b], now, staleBefore) ==>
                    ingestEvents[b] in due
        decreases todo
      {
        var b :| b in todo;
        todo := todo - {b};
        if Leaseable(ingestEvents[b], now, staleBefore) {
          due := due + [ingestEvents[b]];
        }
      }
    }

    /** Leases up to `limit` due records, the earliest first. */
    method LeaseRetryBatch(now: Time, staleBefore: Time, limit: int) returns (items: seq<Record>, ghost batch: seq<Record>)
      requires Valid()
      modifies this`ingestEvents
      ensures Valid()
      ensures IsBatch(old(Events()), now, staleBefore, BatchSize(limit), batch)
      ensures TakesDue(old(Events()), now, staleBefore, if limit <= 0 then 10 else limit, batch)
      ensures Events() == TakeBatch(old(Events()), now, batch)
      ensures items == LeasedAll(batch, now)
      ensures forall i :: 0 <= i < |batch| ==>
                items[i] == batch[i].(status := Processing, attemptCount := batch[i].attemptCount + 1, lastAttemptAt := now)
    {
      var max: nat := BatchSize(limit);
      var due := CollectDue(now, staleBefore);
      var sorted := Sort(due, ByLeaseTime());
      SortedStaysDue(Events(), now, staleBefore, due, sorted);
      ViewIsWellKeyed(ingestEvents);
      SortedPrefixIsBatch(Events(), now, staleBefore, max, sorted);
      var chosen := Cut(sorted, max);
      BatchTakesDue(Events(), now, staleBefore, max, chosen);
      EachIsLeased(chosen, now);
      batch := chosen;
      items := Stamp(now, staleBefore, chosen);
    }

    /** Stores each record of the batch as leased. */
    method Stamp(now: Time, ghost staleBefore: Time, batch: seq<Record>) returns (items: seq<Record>)
      requires Valid() && AreDue(Events(), now, staleBefore, batch)
      modifies this`ingestEvents
      ensures Valid()
      ensures Events() == TakeBatch(old(Events()), now, batch)
      ensures items == LeasedAll(batch, now)
    {
      ghost var l := Events();
      items := [];
      for i := 0 to |batch|
        invariant Keyed(ingestEvents) && View(ingestEvents) == TakeBatch(l, now, batch[..i])
        invariant items == LeasedAll(batch[..i], now)
      {
        var item := batch[i].(status := Processing, attemptCount := batch[i].attemptCount + 1, lastAttemptAt := now);
        assert batch[..i + 1][..i] == batch[..i];
        StampOne(l, ingestEvents, now, staleBefore, batch, i);
        ingestEvents := ingestEvents[IngestEventKey(item.key) := item];
        items := items + [item];
      }
      assert batch[..|batch|] == batch;
    }

    /** Counts the queue and finds its oldest ages, event by event. */
    method GetIngestStatus(now: Time) returns (status: IngestStatus)
      requires Valid()
      ensures Describes(status, Events(), now)
    {
      ghost var counted: seq<Record>;
      status, counted := CountQueue(now);
      ViewIsWellKeyed(ingestEvents);
      CountDescribes(counted, Events(), now);
    }

    method CountQueue(now: Time) returns (status: IngestStatus, ghost counted: seq<Record>)
      requires Valid()
      ensures Enumerates(counted, Events()) && status == CountEvents(counted, now)
    {
      status, counted := IngestStatus(0, 0, 0, 0, 0, 0), [];
      var todo := ingestEvents.Keys;
      while todo != {}
        invariant todo <= ingestEvents.Keys && DistinctKeys(counted)
        invariant forall i :: 0 <= i < |counted| ==>
                    var b := IngestEventKey(counted[i].key);
                    b in ingestEvents && b !in todo && ingestEvents[b] == counted[i]
        invariant forall b :: b in ingestEvents && b !in todo ==> ingestEvents[b] in counted
        invariant status == CountEvents(counted, now)
        decreases todo
      {
        var b :| b in todo;
        todo := todo - {b};
        var event := ingestEvents[b];
        status := CountEvent(status, event, now);
        assert (counted + [event])[..|counted|] == counted;
        counted := counted + [event];
      }
    }

    method UpsertAccount(source: Bytes, account: AccountInput) returns (id: int)
      modifies this`accounts, this`nextAccountID
      ensures Rows.Accounts(accounts, nextAccountID)
           == Rows.UpsertAccount(old(Rows.Accounts(accounts, nextAccountID)), source, account)
      ensures id == Rows.AccountId(old(Rows.Accounts(accounts, nextAccountID)), source, account.externalID)
    {
      var key, i := IngestKey(source, account.externalID), 0;
      ghost var position := Rows.AccountPosition(accounts, source, account.externalID);
      while i < |accounts|
        invariant 0 <= i <= |accounts| && accounts == old(accounts) && i <= position
        invariant nextAccountID == old(nextAccountID)
      {
        var row := accounts[i];
        IngestKeyIsInjective(row.data.source, row.data.externalID, source, account.externalID);
        if IngestKey(row.data.source, row.data.externalID) == key {
          assert i == position;
          accounts := accounts[i := Row(row.id, row.data.(email := account.email, status := account.status))];
          return row.id;
        }
        i := i + 1;
      }
      id := nextAccountID;
      nextAccountID := nextAccountID + 1;
      accounts := accounts + [Row(id, Rows.Account(source, account.externalID, account.email, account.status))];
    }

    method UpsertConversation(source: Bytes, accountID: int, conversation: ConversationInput) returns (id: int)
      modifies this`conversations, this`conversationByExternal, this`nextConversationID
      ensures Conversations() == Upsert(old(Conversations()), IngestKey(source, conversation.externalID),
                                        Merge.FromInput(accountID, conversation), Merge.MergeInMemory)
      ensures id == UpsertId(old(Conversations()), IngestKey(source, conversation.externalID))
    {
      var key := IngestKey(source, conversation.externalID);
      if key in conversationByExternal {
        id := conversationByExternal[key];
        var i := 0;
        while i < |conversations|
          invariant 0 <= i <= |conversations| && conversations == old(conversations)
          invariant i <= IndexOf(conversations, id)
        {
          if conversations[i].id == id {
            var c := conversations[i].data.(accountID := accountID, channel := conversation.channel);
            if c.startedAt > conversation.startedAt {
              c := c.(startedAt := conversation.startedAt);
            }
            if c.endedAt.None? {
              c := c.(status := conversation.status, endedAt := conversation.endedAt);
            } else if conversation.endedAt.None? {
              // a late delivery that has not ended leaves the terminal state alone
            } else if conversation.endedAt.value > c.endedAt.value {
              c := c.(status := conversation.status, endedAt := conversation.endedAt);
            }
            conversations := conversations[i := Row(id, c)];
            return;
          }
          i := i + 1;
        }
      }
      id := nextConversationID;
      nextConversationID := nextConversationID + 1;
      conversations := conversations + [Row(id, Merge.FromInput(accountID, conversation))];
      conversationByExternal := conversationByExternal[key := id];
    }

    method UpsertMessage(source: Bytes, conversationID: int, message: MessageInput)
      modifies this`messages, this`messageByExternal, this`nextMessageID
      ensures Messages() == Upsert(old(Messages()), IngestKey(source, message.externalID),
                                   Rows.MessageOf(conversationID, message), Rows.Replace<Rows.Message>)
    {
      var key := IngestKey(source, message.externalID);
      if key in messageByExternal {
        var id, i := messageByExternal[key], 0;
        while i < |messages|
          invariant 0 <= i <= |messages| && messages == old(messages)
          invariant i <= IndexOf(messages, id)
        {
          if messages[i].id == id {
            messages := messages[i := Row(id, messages[i].data.(
              conversationID := conversationID, role := message.role, contentMasked := message.contentMasked,
              createdAt := message.createdAt))];
            return;
          }
          i := i + 1;
        }
      }
      messages := messages + [Row(nextMessageID, Rows.MessageOf(conversationID, message))];
      messageByExternal := messageByExternal[key := nextMessageID];
      nextMessageID := nextMessageID + 1;
    }

    method UpsertAttempt(source: Bytes, conversationID: int, attempt: AttemptInput)
      modifies this`attempts, this`attemptByExternal, this`nextAttemptID
      ensures Attempts() == Upsert(old(Attempts()), IngestKey(source, attempt.externalID),
                                   Rows.AttemptOf(conversationID, attempt), Rows.Replace<Rows.Attempt>)
    {
      var key := IngestKey(source, attempt.externalID);
      if key in attemptByExternal {
        var id, i := attemptByExternal[key], 0;
        while i < |attempts|
          invariant 0 <= i <= |attempts| && attempts == old(attempts)
          invariant i <= IndexOf(attempts, id)
        {
          if attempts[i].id == id {
            attempts := attempts[i := Row(id, attempts[i].data.(
              conversationID := conversationID, provider := attempt.provider, model := attempt.model,
              tokensIn := attempt.tokensIn, tokensOut := attempt.tokensOut, costUSD := attempt.costUSD,
              latencyMS := attempt.latencyMS, success := attempt.success, errorCode := attempt.errorCode,
              createdAt := attempt.createdAt))];
            return;
          }
          i := i + 1;
        }
      }
      attempts := attempts + [Row(nextAttemptID, Rows.AttemptOf(conversationID, attempt))];
      attemptByExternal := attemptByExternal[key := nextAttemptID];
      nextAttemptID := nextAttemptID + 1;
    }

    /** The account and the conversation that a message or an attempt belongs to. */
    method UpsertParents(source: Bytes, account: AccountInput, conversation: ConversationInput) returns (conversationID: int)
      modifies this`accounts, this`nextAccountID, this`conversations, this`conversationByExternal, this`nextConversationID
      ensures State() == Rows.PersistParents(old(State()), source, account, conversation)
      ensures conversationID == Rows.ConversationId(old(State()), source, conversation)
    {
      var accountID := UpsertAccount(source, account);
      conversationID := UpsertConversation(source, accountID, conversation);
    }

    method PersistConversationEvent(event: ConversationEvent)
      modifies this`accounts, this`nextAccountID, this`conversations, this`conversationByExternal,
               this`nextConversationID, this`messages, this`messageByExternal, this`nextMessageID
      ensures State() == Rows.PersistConversation(old(State()), event)
    {
      var conversationID := UpsertParents(event.source, event.account, event.conversation);
      if event.message.Some? {
        UpsertMessage(event.source, conversationID, event.message.value);
      }
    }

    method PersistRequestAttempt(event: AttemptEvent)
      modifies this`accounts, this`nextAccountID, this`conversations, this`conversationByExternal,
               this`nextConversationID, this`attempts, this`attemptByExternal, this`nextAttemptID
      ensures State() == Rows.PersistAttempt(old(State()), event)
    {
      var conversationID := UpsertParents(event.source, event.account, event.conversation);
      UpsertAttempt(event.source, conversationID, event.attempt);
    }

    method PersistInfraSnapshot(event: SnapshotEvent)
      modifies this`snapshots, this`snapshotByEvent, this`nextSnapshotID
      ensures State() == Rows.PersistSnapshot(old(State()), event)
    {
      var key := IngestKey(event.source, event.eventID);
      if key in snapshotByEvent {
        var id, i := snapshotByEvent[key], 0;
        while i < |snapshots|
          invariant 0 <= i <= |snapshots| && snapshots == old(snapshots)
          invariant i <= IndexOf(snapshots, id)
        {
          if snapshots[i].id == id {
            snapshots := snapshots[i := Row(id, snapshots[i].data.(
              vpnPeerCount := event.vpnPeerCount, openClawUp := event.openClawUp, cpuPct := event.cpuPct,
              memPct := event.memPct, capturedAt := event.capturedAt))];
            return;
          }
          i := i + 1;
        }
      }
      snapshots := snapshots + [Row(nextSnapshotID, Rows.SnapshotOf(event))];
      snapshotByEvent := snapshotByEvent[key := nextSnapshotID];
      nextSnapshotID := nextSnapshotID + 1;
    }

    /** Persists whatever the payload is, and keeps the rows intact. */
    method Persist(payload: Payload)
      requires Valid() && !payload.Undecodable?
      modifies this`accounts, this`nextAccountID, this`conversations, this`conversationByExternal,
               this`nextConversationID, this`messages, this`messageByExternal, this`nextMessageID,
               this`attempts, this`attemptByExternal, this`nextAttemptID,
               this`snapshots, this`snapshotByEvent, this`nextSnapshotID
      ensures Valid() && State() == Rows.Persist(old(State()), payload)
    {
      match payload {
        case ConversationPayload(e) => PersistConversationEvent(e);
        case SnapshotPayload(e) => PersistInfraSnapshot(e);
        case AttemptPayload(e) => PersistRequestAttempt(e);
      }
      StoreRuns.OpReaches(old(State()), StoreRuns.Delivered(payload));
    }

    /** Removes the raw payloads of the expired messages with the smallest ids. */
    method CompactRawMessagePayloads(cutoff: Time, limit: nat, dryRun: bool) returns (count: nat, ghost chosen: set<int>)
      requires Valid()
      modifies this`messageRawPayload
      ensures Valid()
      ensures IsSmallest(IntLeq, RawCandidates(messages, old(messageRawPayload), cutoff), limit, chosen)
      ensures count == |chosen|
      ensures messageRawPayload == if dryRun then old(messageRawPayload) else old(messageRawPayload) - chosen
      ensures !dryRun ==> IsRawPass(messages, old(messageRawPayload), messageRawPayload, cutoff, limit)
      ensures RawsPruned(messages, old(messageRawPayload), messageRawPayload, cutoff, limit, count, dryRun)
    {
      StoreIsIntact();
      var candidates := RawIds(cutoff);
      var ids := Smallest(candidates, IntLeq, limit);
      chosen := Elements(ids);
      RawPassMeans(messages, messageRawPayload, cutoff, limit, chosen, dryRun);
      count := |ids|;
      if !dryRun {
        DropRaw(ids);
      }
    }

    method RawIds(cutoff: Time) returns (candidates: seq<int>)
      requires UniqueIds(messages)
      ensures Distinct(candidates) && Elements(candidates) == RawCandidates(messages, messageRawPayload, cutoff)
    {
      candidates := [];
      for i := 0 to |messages|
        invariant Distinct(candidates)
        invariant forall id :: id in candidates <==>
                    exists j :: 0 <= j < i && messages[j].id == id && messages[j].data.createdAt < cutoff
                                && id in messageRawPayload && |messageRawPayload[id]| > 0
      {
        var message := messages[i];
        if message.data.createdAt < cutoff && message.id in messageRawPayload && |messageRawPayload[message.id]| > 0 {
          assert message.id !in candidates;
          candidates := candidates + [message.id];
        }
      }
    }

    method DropRaw(ids: seq<int>)
      modifies this`messageRawPayload
      ensures messageRawPayload == old(messageRawPayload) - Elements(ids)
    {
      for i := 0 to |ids|
        invariant messageRawPayload == old(messageRawPayload) - Elements(ids[..i])
      {
        assert Elements(ids[..i + 1]) == Elements(ids[..i]) + {ids[i]};
        messageRawPayload := messageRawPayload - {ids[i]};
      }
      assert ids[..|ids|] == ids;
    }

    method DeleteExpiredAuditEvents(cutoff: Time, limit: nat, dryRun: bool) returns (count: nat)
      modifies this`audits
      ensures count == Min(limit, Count(old(audits), AuditExpired(cutoff)))
      ensures audits == if dryRun then old(audits) else DropFirst(old(audits), AuditExpired(cutoff), limit)
      ensures AuditsPruned(old(audits), audits, cutoff, limit, count, dryRun)
    {
      AuditPassMeans(audits, cutoff, limit, dryRun);
      var indexes := FirstEligible(audits, AuditExpired(cutoff), limit);
      count := |indexes|;
      if dryRun {
        return;
      }
      WithoutPicked(audits, AuditExpired(cutoff), limit);
      audits := RemoveIndexes(audits, indexes);
    }

    /** The scan for the latest snapshot. */
    method GetLatestStatus() returns (latest: Option<Row<Rows.Snapshot>>)
      ensures latest == if snapshots == [] then None else Some(StoreRuns.Latest(snapshots))
    {
      if |snapshots| == 0 {
        return None;
      }
      var best := snapshots[0];
      for i := 1 to |snapshots|
        invariant best == StoreRuns.Latest(snapshots[..i])
      {
        assert snapshots[..i + 1][..i] == snapshots[..i];
        if snapshots[i].data.capturedAt > best.data.capturedAt {
          best := snapshots[i];
        }
      }
      assert snapshots[..|snapshots|] == snapshots;
      return Some(best);
    }

    /** Deletes expired snapshots, but never the latest one. */
    method DeleteExpiredInfraSnapshots(cutoff: Time, limit: nat, dryRun: bool) returns (count: nat)
      requires Valid()
      modifies this`snapshots
      ensures Valid()
      ensures count == Min(limit, Count(old(snapshots), StoreRuns.Expired(StoreRuns.ProtectedId(old(snapshots)), cutoff)))
      ensures snapshots == if dryRun then old(snapshots) else StoreRuns.RetainSnapshots(old(snapshots), cutoff, limit)
      ensures SnapshotsPruned(old(snapshots), snapshots, cutoff, limit, count, dryRun)
    {
      StoreIsIntact();
      SnapshotPassMeans(snapshots, cutoff, limit, dryRun);
      var latest := GetLatestStatus();
      var protectedID := if latest.Some? then latest.value.id else 0;
      var expired := StoreRuns.Expired(protectedID, cutoff);
      var indexes := FirstEligible(snapshots, expired, limit);
      count := |indexes|;
      if dryRun {
        return;
      }
      WithoutPicked(snapshots, expired, limit);
      StoreRuns.OpReaches(State(), StoreRuns.SnapshotsRetained(cutoff, limit));
      snapshots := RemoveIndexes(snapshots, indexes);
    }

    /** Deletes the expired terminal events with the smallest stored keys; queued events stay. */
    method DeleteExpiredIngestEvents(cutoff: Time, limit: nat, dryRun: bool) returns (count: nat, ghost chosen: set<Bytes>)
      requires Valid()
      modifies this`ingestEvents
      ensures Valid()
      ensures IsSmallest(LexLeq, EventCandidates(old(ingestEvents), cutoff), limit, chosen)
      ensures count == |chosen|
      ensures ingestEvents == if dryRun then old(ingestEvents) else old(ingestEvents) - chosen
      ensures !dryRun ==> IsEventPass(old(ingestEvents), ingestEvents, cutoff, limit)
      ensures EventsPruned(old(ingestEvents), ingestEvents, cutoff, limit, count, dryRun)
    {
      var keys := ExpiredKeys(cutoff);
      LexLeqIsTotalPreorder();
      var smallest := Smallest(keys, LexLeq, limit);
      chosen := Elements(smallest);
      EventPassMeans(ingestEvents, cutoff, limit, chosen, dryRun);
      count := |smallest|;
      if !dryRun {
        ViewDelete(ingestEvents, chosen);
        DropEvents(smallest);
      }
    }

    method DropEvents(keys: seq<Bytes>)
      modifies this`ingestEvents
      ensures ingestEvents == old(ingestEvents) - Elements(keys)
    {
      for i := 0 to |keys|
        invariant ingestEvents == old(ingestEvents) - Elements(keys[..i])
      {
        assert Elements(keys[..i + 1]) == Elements(keys[..i]) + {keys[i]};
        ingestEvents := ingestEvents - {keys[i]};
      }
      assert keys[..|keys|] == keys;
    }

    method ExpiredKeys(cutoff: Time) returns (keys: seq<Bytes>)
      ensures Distinct(keys) && Elements(keys) == EventCandidates(ingestEvents, cutoff)
    {
      keys := [];
      var todo := ingestEvents.Keys;
      while todo != {}
        invariant todo <= ingestEvents.Keys && Distinct(keys)
        invariant forall b :: b in keys <==> b in EventCandidates(ingestEvents, cutoff) && b !in todo
        decreases todo
      {
        var b :| b in todo;
        todo := todo - {b};
        if ingestEvents[b].Terminal() && ingestEvents[b].firstSeenAt < cutoff {
          keys := keys + [b];
        }
      }
    }

    method InsertAuditEvent(event: AuditEvent)
      modifies this`audits
      ensures audits == old(audits) + [event]
    {
      audits := audits + [event];
    }
  }
}
