/** What the stored rows say: over any run of a store, the row of an identity carries the last delivery that was
    addressed to it, field by field. */
module LastWrites {
  import opened Domain
  import opened Keys
  import opened Tables
  import opened Rows
  import opened Retention
  import opened StoreRuns
  import Merge

  /** The last of the things that the operations address, if any. */
  function Last<T>(ops: seq<Op>, to: Op -> Option<T>): Option<T> {
    if ops == [] then None
    else
      var last := to(ops[|ops| - 1]);
      if last.Some? then last else Last(ops[..|ops| - 1], to)
  }

  function MessagesTo(source: Bytes, externalID: Bytes): Op -> Option<ConversationEvent> {
    (op: Op) =>
      match op
      case Delivered(ConversationPayload(e)) =>
        if e.source == source && e.message.Some? && e.message.value.externalID == externalID then Some(e) else None
      case _ => None
  }

  function AttemptsTo(source: Bytes, externalID: Bytes): Op -> Option<AttemptEvent> {
    (op: Op) =>
      match op
      case Delivered(AttemptPayload(e)) => if e.source == source && e.attempt.externalID == externalID then Some(e) else None
      case _ => None
  }

  function SnapshotsTo(source: Bytes, eventID: Bytes): Op -> Option<SnapshotEvent> {
    (op: Op) =>
      match op
      case Delivered(SnapshotPayload(e)) => if e.source == source && e.eventID == eventID then Some(e) else None
      case _ => None
  }

  /** `id` is the id of the conversation row of the identity. */
  ghost predicate IsConversation(s: StoreRows, id: int, source: Bytes, externalID: Bytes) {
    exists i :: BelongsTo(s.conversations, i, source, externalID) && s.conversations.rows[i].id == id
  }

  /** The message row says what the event did, and belongs to the event's conversation. */
  ghost predicate MessageIs(s: StoreRows, row: Option<Message>, last: Option<ConversationEvent>) {
    match last
    case None => row.None?
    case Some(e) =>
      && row.Some? && e.message.Some?
      && row.value.role == e.message.value.role && row.value.contentMasked == e.message.value.contentMasked
      && row.value.createdAt == e.message.value.createdAt
      && IsConversation(s, row.value.conversationID, e.source, e.conversation.externalID)
  }

  ghost predicate AttemptIs(s: StoreRows, row: Option<Attempt>, last: Option<AttemptEvent>) {
    match last
    case None => row.None?
    case Some(e) =>
      && row.Some?
      && row.value.provider == e.attempt.provider && row.value.model == e.attempt.model
      && row.value.tokensIn == e.attempt.tokensIn && row.value.tokensOut == e.attempt.tokensOut
      && row.value.costUSD == e.attempt.costUSD && row.value.latencyMS == e.attempt.latencyMS
      && row.value.success == e.attempt.success && row.value.errorCode == e.attempt.errorCode
      && row.value.createdAt == e.attempt.createdAt
      && IsConversation(s, row.value.conversationID, e.source, e.conversation.externalID)
  }

  /** The conversations of `s` are still there in `s'`, with their ids. */
  ghost predicate ConversationsStay(s: StoreRows, s': StoreRows) {
    forall id, source, externalID :: IsConversation(s, id, source, externalID) ==> IsConversation(s', id, source, externalID)
  }

  lemma UpsertKeepsRow<T>(t: Table<T>, key: Bytes, input: T, merge: (T, T) -> T, i: nat)
    requires Dense(t) && i < |t.rows|
    ensures var t' := Upsert(t, key, input, merge);
            && i < |t'.rows| && t'.rows[i].id == t.rows[i].id
            && forall k :: k in t.index ==> k in t'.index && t'.index[k] == t.index[k]
  {
    if key in t.index {
      var j :| 0 <= j < |t.rows| && t.rows[j].id == t.index[key];
    }
  }

  lemma ParentsKeepConversations(s: StoreRows, source: Bytes, account: AccountInput, conversation: ConversationInput)
    requires Intact(s)
    ensures ConversationsStay(s, PersistParents(s, source, account, conversation))
  {
    var s' := PersistParents(s, source, account, conversation);
    var key := IngestKey(source, conversation.externalID);
    var input := Merge.FromInput(AccountId(s.accounts, source, account.externalID), conversation);
    forall id, source', externalID | IsConversation(s, id, source', externalID)
      ensures IsConversation(s', id, source', externalID)
    {
      var i :| BelongsTo(s.conversations, i, source', externalID) && s.conversations.rows[i].id == id;
      UpsertKeepsRow(s.conversations, key, input, Merge.MergeInMemory, i);
      assert BelongsTo(s'.conversations, i, source', externalID);
    }
  }

  /** The id that a delivery gives to its message or attempt is that of its conversation. */
  lemma ParentIsConversation(s: StoreRows, source: Bytes, account: AccountInput, conversation: ConversationInput)
    requires Intact(s)
    ensures IsConversation(PersistParents(s, source, account, conversation), ConversationId(s, source, conversation),
                           source, conversation.externalID)
  {
    var s' := PersistParents(s, source, account, conversation);
    var key := IngestKey(source, conversation.externalID);
    var i := Position(s.conversations, key);
    assert BelongsTo(s'.conversations, i, source, conversation.externalID);
  }

  /** A delivery with these parents changes the conversations as its parents do. */
  lemma DeliveryKeepsConversations(s: StoreRows, s': StoreRows, source: Bytes, account: AccountInput,
                                   conversation: ConversationInput)
    requires Intact(s) && s'.conversations == PersistParents(s, source, account, conversation).conversations
    ensures ConversationsStay(s, s')
  {
    ParentsKeepConversations(s, source, account, conversation);
    SameConversations(PersistParents(s, source, account, conversation), s');
  }

  lemma SameConversations(s: StoreRows, s': StoreRows)
    requires s.conversations == s'.conversations
    ensures ConversationsStay(s, s')
  {
  }

  lemma OpKeepsConversations(s: StoreRows, op: Op)
    requires Intact(s)
    ensures ConversationsStay(s, ApplyOp(s, op))
  {
    match op
    case Delivered(ConversationPayload(e)) =>
      DeliveryKeepsConversations(s, PersistConversation(s, e), e.source, e.account, e.conversation);
    case Delivered(AttemptPayload(e)) =>
      DeliveryKeepsConversations(s, PersistAttempt(s, e), e.source, e.account, e.conversation);
    case _ => SameConversations(s, ApplyOp(s, op));
  }

  lemma MessageIsWritten(s: StoreRows, e: ConversationEvent, source: Bytes, externalID: Bytes)
    requires Intact(s)
    ensures var s' := ApplyOp(s, Delivered(ConversationPayload(e)));
            var row' := Lookup(s'.messages, IngestKey(source, externalID));
            if e.source == source && e.message.Some? && e.message.value.externalID == externalID then MessageIs(s', row', Some(e))
            else row' == Lookup(s.messages, IngestKey(source, externalID))
  {
    if e.message.Some? {
      var m := e.message.value;
      IngestKeyIsInjective(source, externalID, e.source, m.externalID);
      UpsertRefinesMap(s.messages, SEEDS, IngestKey(e.source, m.externalID),
                       MessageOf(ConversationId(s, e.source, e.conversation), m), Replace<Message>,
                       IngestKey(source, externalID));
      ParentIsConversation(s, e.source, e.account, e.conversation);
      SameConversations(PersistParents(s, e.source, e.account, e.conversation), PersistConversation(s, e));
    }
  }

  /** What an operation addresses, or else what was addressed before. */
  function Later<T>(op: Op, last: Option<T>, to: Op -> Option<T>): Option<T> {
    if to(op).Some? then to(op) else last
  }

  lemma OldMessageStays(s: StoreRows, s': StoreRows, row: Option<Message>, last: Option<ConversationEvent>)
    requires MessageIs(s, row, last) && ConversationsStay(s, s')
    ensures MessageIs(s', row, last)
  {
  }

  lemma OpWritesMessage(s: StoreRows, op: Op, source: Bytes, externalID: Bytes)
    requires Intact(s)
    ensures var s' := ApplyOp(s, op);
            var row' := Lookup(s'.messages, IngestKey(source, externalID));
            if MessagesTo(source, externalID)(op).Some? then MessageIs(s', row', MessagesTo(source, externalID)(op))
            else row' == Lookup(s.messages, IngestKey(source, externalID))
  {
    if op.Delivered? && op.payload.ConversationPayload? {
      MessageIsWritten(s, op.payload.conversation, source, externalID);
    }
  }

  lemma OpKeepsMessage(s: StoreRows, op: Op, last: Option<ConversationEvent>, source: Bytes, externalID: Bytes)
    requires Intact(s) && MessageIs(s, Lookup(s.messages, IngestKey(source, externalID)), last)
    ensures var s' := ApplyOp(s, op);
            MessageIs(s', Lookup(s'.messages, IngestKey(source, externalID)), Later(op, last, MessagesTo(source, externalID)))
  {
    var s', key := ApplyOp(s, op), IngestKey(source, externalID);
    OpWritesMessage(s, op, source, externalID);
    OpKeepsConversations(s, op);
    OldMessageStays(s, s', Lookup(s.messages, key), last);
  }

  lemma NewStoreHasNoIdentities(now: Time, key: Bytes)
    ensures var s := Seeded(now);
            Lookup(s.messages, key).None? && Lookup(s.attempts, key).None? && Lookup(s.snapshots, key).None?
            && Lookup(s.conversations, key).None?
  {
  }

  /** The message row of an identity carries the last message delivered to it, whatever else the run contains. */
  lemma {:induction false} MessageIsLastDelivery(now: Time, ops: seq<Op>, source: Bytes, externalID: Bytes)
    ensures var s := RunOps(Seeded(now), ops);
            MessageIs(s, Lookup(s.messages, IngestKey(source, externalID)), Last(ops, MessagesTo(source, externalID)))
  {
    if ops != [] {
      var init, last := ops[..|ops| - 1], ops[|ops| - 1];
      MessageIsLastDelivery(now, init, source, externalID);
      ReachableIsIntact(now, init);
      OpKeepsMessage(RunOps(Seeded(now), init), last, Last(init, MessagesTo(source, externalID)), source, externalID);
    } else {
      NewStoreHasNoIdentities(now, IngestKey(source, externalID));
    }
  }

  lemma AttemptIsWritten(s: StoreRows, e: AttemptEvent, source: Bytes, externalID: Bytes)
    requires Intact(s)
    ensures var s' := ApplyOp(s, Delivered(AttemptPayload(e)));
            var row' := Lookup(s'.attempts, IngestKey(source, externalID));
            if e.source == source && e.attempt.externalID == externalID then AttemptIs(s', row', Some(e))
            else row' == Lookup(s.attempts, IngestKey(source, externalID))
  {
    IngestKeyIsInjective(source, externalID, e.source, e.attempt.externalID);
    UpsertRefinesMap(s.attempts, SEEDS, IngestKey(e.source, e.attempt.externalID),
                     AttemptOf(ConversationId(s, e.source, e.conversation), e.attempt), Replace<Attempt>,
                     IngestKey(source, externalID));
    ParentIsConversation(s, e.source, e.account, e.conversation);
    SameConversations(PersistParents(s, e.source, e.account, e.conversation), PersistAttempt(s, e));
  }

  lemma OldAttemptStays(s: StoreRows, s': StoreRows, row: Option<Attempt>, last: Option<AttemptEvent>)
    requires AttemptIs(s, row, last) && ConversationsStay(s, s')
    ensures AttemptIs(s', row, last)
  {
  }

  lemma OpWritesAttempt(s: StoreRows, op: Op, source: Bytes, externalID: Bytes)
    requires Intact(s)
    ensures var s' := ApplyOp(s, op);
            var row' := Lookup(s'.attempts, IngestKey(source, externalID));
            if AttemptsTo(source, externalID)(op).Some? then AttemptIs(s', row', AttemptsTo(source, externalID)(op))
            else row' == Lookup(s.attempts, IngestKey(source, externalID))
  {
    if op.Delivered? && op.payload.AttemptPayload? {
      AttemptIsWritten(s, op.payload.attempt, source, externalID);
    }
  }

  lemma OpKeepsAttempt(s: StoreRows, op: Op, last: Option<AttemptEvent>, source: Bytes, externalID: Bytes)
    requires Intact(s) && AttemptIs(s, Lookup(s.attempts, IngestKey(source, externalID)), last)
    ensures var s' := ApplyOp(s, op);
            AttemptIs(s', Lookup(s'.attempts, IngestKey(source, externalID)), Later(op, last, AttemptsTo(source, externalID)))
  {
    var s', key := ApplyOp(s, op), IngestKey(source, externalID);
    OpWritesAttempt(s, op, source, externalID);
    OpKeepsConversations(s, op);
    OldAttemptStays(s, s', Lookup(s.attempts, key), last);
  }

  /** The attempt row of an identity carries the last attempt delivered to it. */
  lemma {:induction false} AttemptIsLastDelivery(now: Time, ops: seq<Op>, source: Bytes, externalID: Bytes)
    ensures var s := RunOps(Seeded(now), ops);
            AttemptIs(s, Lookup(s.attempts, IngestKey(source, externalID)), Last(ops, AttemptsTo(source, externalID)))
  {
    if ops != [] {
      var init, last := ops[..|ops| - 1], ops[|ops| - 1];
      AttemptIsLastDelivery(now, init, source, externalID);
      ReachableIsIntact(now, init);
      OpKeepsAttempt(RunOps(Seeded(now), init), last, Last(init, AttemptsTo(source, externalID)), source, externalID);
    } else {
      NewStoreHasNoIdentities(now, IngestKey(source, externalID));
    }
  }

  /** The snapshot row says what the event did. */
  predicate SnapshotIs(row: Snapshot, e: SnapshotEvent) {
    && row.vpnPeerCount == e.vpnPeerCount && row.openClawUp == e.openClawUp
    && row.cpuPct == e.cpuPct && row.memPct == e.memPct && row.capturedAt == e.capturedAt
  }

  /** Since the last thing that the operations address, retention has had a cutoff after `captured`. */
  function ExpiredSince<T>(ops: seq<Op>, to: Op -> Option<T>, captured: Time): bool {
    if ops == [] then false
    else
      var last := ops[|ops| - 1];
      to(last).None? && ((last.SnapshotsRetained? && captured < last.cutoff) || ExpiredSince(ops[..|ops| - 1], to, captured))
  }

  /** The row is that of the last snapshot delivered, or retention may have removed it since. */
  predicate SnapshotFollows(row: Option<Snapshot>, last: Option<SnapshotEvent>, expired: bool) {
    match last
    case None => row.None?
    case Some(e) => if row.Some? then SnapshotIs(row.value, e) else expired
  }

  /** The snapshot row of an identity carries the last snapshot delivered to it. It can only be missing because
      retention has since had a cutoff after its capture. */
  lemma {:induction false} SnapshotIsLastDelivery(now: Time, ops: seq<Op>, source: Bytes, eventID: Bytes)
    ensures var to := SnapshotsTo(source, eventID);
            var last := Last(ops, to);
            SnapshotFollows(Lookup(RunOps(Seeded(now), ops).snapshots, IngestKey(source, eventID)), last,
                            last.Some? && ExpiredSince(ops, to, last.value.capturedAt))
  {
    if ops != [] {
      var init, last := ops[..|ops| - 1], ops[|ops| - 1];
      SnapshotIsLastDelivery(now, init, source, eventID);
      ReachableIsIntact(now, init);
      OpWritesSnapshot(RunOps(Seeded(now), init), last, source, eventID);
    } else {
      NewStoreHasNoIdentities(now, IngestKey(source, eventID));
    }
  }

  /** A snapshot that retention removes was captured before the cutoff. */
  lemma RetentionRemovesExpired(t: Table<Snapshot>, cutoff: Time, limit: nat, key: Bytes)
    requires Sound(t, SEEDS)
    ensures var row, row' := Lookup(t, key), Lookup(t.(rows := RetainSnapshots(t.rows, cutoff, limit)), key);
            row' == row || (row'.None? && row.Some? && row.value.capturedAt < cutoff)
  {
    var left, eligible := RetainSnapshots(t.rows, cutoff, limit), Expired(ProtectedId(t.rows), cutoff);
    if key in t.index {
      var i, j := IndexOf(t.rows, t.index[key]), IndexOf(left, t.index[key]);
      if j < |left| {
        DropFirstKeepsElements(t.rows, eligible, limit, left[j]);
        var n :| 0 <= n < |t.rows| && t.rows[n] == left[j];
        PositionIsUnique(t, SEEDS, n, t.index[key]);
      } else if i < |t.rows| && !eligible(t.rows[i]) {
        DropFirstSpares(t.rows, eligible, limit, t.rows[i]);
        assert false;
      }
    }
  }

  lemma SnapshotIsWritten(s: StoreRows, e: SnapshotEvent, source: Bytes, eventID: Bytes)
    requires Intact(s)
    ensures var row' := Lookup(PersistSnapshot(s, e).snapshots, IngestKey(source, eventID));
            if e.source == source && e.eventID == eventID then row'.Some? && SnapshotIs(row'.value, e)
            else row' == Lookup(s.snapshots, IngestKey(source, eventID))
  {
    IngestKeyIsInjective(source, eventID, e.source, e.eventID);
    UpsertRefinesMap(s.snapshots, SEEDS, IngestKey(e.source, e.eventID), SnapshotOf(e), Replace<Snapshot>,
                     IngestKey(source, eventID));
  }

  lemma OpWritesSnapshot(s: StoreRows, op: Op, source: Bytes, eventID: Bytes)
    requires Intact(s)
    ensures var row, row' := Lookup(s.snapshots, IngestKey(source, eventID)),
                             Lookup(ApplyOp(s, op).snapshots, IngestKey(source, eventID));
            match SnapshotsTo(source, eventID)(op)
            case Some(e) => row'.Some? && SnapshotIs(row'.value, e)
            case None =>
              row' == row
              || (row'.None? && row.Some? && op.SnapshotsRetained? && row.value.capturedAt < op.cutoff)
  {
    match op
    case Delivered(SnapshotPayload(e)) => SnapshotIsWritten(s, e, source, eventID);
    case Delivered(_) =>
    case SnapshotsRetained(cutoff, limit) => RetentionRemovesExpired(s.snapshots, cutoff, limit, IngestKey(source, eventID));
  }

  function AccountsTo(source: Bytes, externalID: Bytes): Op -> Option<AccountInput> {
    (op: Op) =>
      match op
      case Delivered(ConversationPayload(e)) =>
        if e.source == source && e.account.externalID == externalID then Some(e.account) else None
      case Delivered(AttemptPayload(e)) =>
        if e.source == source && e.account.externalID == externalID then Some(e.account) else None
      case _ => None
  }

  /** The account row of the identity, which may be the seeded one, carries the last delivery if there is one. */
  ghost predicate AccountIs(a: Accounts, source: Bytes, externalID: Bytes, last: Option<AccountInput>) {
    last.Some? ==>
      exists i :: 0 <= i < |a.rows| && a.rows[i].data.source == source && a.rows[i].data.externalID == externalID
                  && a.rows[i].data.email == last.value.email && a.rows[i].data.status == last.value.status
  }

  lemma AccountIsWritten(a: Accounts, source': Bytes, input: AccountInput, source: Bytes, externalID: Bytes,
                         last: Option<AccountInput>)
    requires AccountIs(a, source, externalID, last)
    ensures AccountIs(UpsertAccount(a, source', input), source, externalID,
                      if source' == source && input.externalID == externalID then Some(input) else last)
  {
    var a', p := UpsertAccount(a, source', input), AccountPosition(a.rows, source', input.externalID);
    if source' == source && input.externalID == externalID {
      assert a'.rows[p].data.email == input.email;
    } else if last.Some? {
      var i :| 0 <= i < |a.rows| && a.rows[i].data.source == source && a.rows[i].data.externalID == externalID
               && a.rows[i].data.email == last.value.email && a.rows[i].data.status == last.value.status;
      assert a'.rows[i] == a.rows[i];
    }
  }

  lemma OpKeepsAccount(s: StoreRows, op: Op, last: Option<AccountInput>, source: Bytes, externalID: Bytes)
    requires AccountIs(s.accounts, source, externalID, last)
    ensures AccountIs(ApplyOp(s, op).accounts, source, externalID, Later(op, last, AccountsTo(source, externalID)))
  {
    match op
    case Delivered(ConversationPayload(e)) => AccountIsWritten(s.accounts, e.source, e.account, source, externalID, last);
    case Delivered(AttemptPayload(e)) => AccountIsWritten(s.accounts, e.source, e.account, source, externalID, last);
    case _ =>
  }

  /** An account carries the e-mail and the status of the last delivery that names it. */
  lemma {:induction false} AccountIsLastDelivery(now: Time, ops: seq<Op>, source: Bytes, externalID: Bytes)
    ensures AccountIs(RunOps(Seeded(now), ops).accounts, source, externalID, Last(ops, AccountsTo(source, externalID)))
  {
    if ops != [] {
      var init, last := ops[..|ops| - 1], ops[|ops| - 1];
      AccountIsLastDelivery(now, init, source, externalID);
      OpKeepsAccount(RunOps(Seeded(now), init), last, Last(init, AccountsTo(source, externalID)), source, externalID);
    }
  }

  /** What a delivery says about a conversation and its account. */
  datatype Report = Report(account: AccountInput, conversation: ConversationInput)

  function ReportsTo(source: Bytes, externalID: Bytes): Op -> Option<Report> {
    (op: Op) =>
      match op
      case Delivered(ConversationPayload(e)) =>
        if e.source == source && e.conversation.externalID == externalID then Some(Report(e.account, e.conversation)) else None
      case Delivered(AttemptPayload(e)) =>
        if e.source == source && e.conversation.externalID == externalID then Some(Report(e.account, e.conversation)) else None
      case _ => None
  }

  /** What the operations report about a conversation, in order. */
  function Reports(ops: seq<Op>, source: Bytes, externalID: Bytes): seq<Report> {
    if ops == [] then []
    else
      var last := ReportsTo(source, externalID)(ops[|ops| - 1]);
      Reports(ops[..|ops| - 1], source, externalID) + if last.Some? then [last.value] else []
  }

  /** What the reports say about the conversation, without the account. */
  function Conversations(rs: seq<Report>): (ds: seq<Merge.Conversation>)
    ensures |ds| == |rs|
    ensures forall i :: 0 <= i < |rs| ==> ds[i] == Merge.FromInput(0, rs[i].conversation)
  {
    seq(|rs|, i requires 0 <= i < |rs| => Merge.FromInput(0, rs[i].conversation))
  }

  lemma {:induction false} ReportsAreDeliveries(ops: seq<Op>, source: Bytes, externalID: Bytes)
    ensures Deliveries(ops, source, externalID) == Conversations(Reports(ops, source, externalID))
  {
    if ops != [] {
      ReportsAreDeliveries(ops[..|ops| - 1], source, externalID);
    }
  }

  /** The row merges the reports: the earliest start, the latest end if there is one, the channel of the last
      report, and the status of the first report with the latest end, or of the last report if none has ended. */
  ghost predicate Merges(c: Merge.Conversation, rs: seq<Report>) {
    && rs != [] && c.channel == rs[|rs| - 1].conversation.channel
    && (exists i :: 0 <= i < |rs| && rs[i].conversation.startedAt == c.startedAt)
    && (forall i :: 0 <= i < |rs| ==> c.startedAt <= rs[i].conversation.startedAt)
    && match c.endedAt
       case None =>
         c.status == rs[|rs| - 1].conversation.status && forall i :: 0 <= i < |rs| ==> rs[i].conversation.endedAt.None?
       case Some(t) =>
         && (forall i :: 0 <= i < |rs| && rs[i].conversation.endedAt.Some? ==> rs[i].conversation.endedAt.value <= t)
         && (exists i :: 0 <= i < |rs| && rs[i].conversation.endedAt == Some(t) && rs[i].conversation.status == c.status
                         && forall j :: 0 <= j < i ==> rs[j].conversation.endedAt != Some(t))
  }

  lemma {:induction false} FoldMerges(rs: seq<Report>, c: Merge.Conversation)
    requires rs != [] && c.(accountID := 0) == Merge.Fold(Merge.InMemory, Conversations(rs))
    ensures Merges(c, rs)
  {
    var ds := Conversations(rs);
    var d := Merge.FoldMeaning(Merge.InMemory, ds);
    Merge.FoldTakesLast(Merge.InMemory, ds);
    var i :| 0 <= i < |ds| && ds[i].startedAt == c.startedAt;
    assert rs[i].conversation.startedAt == c.startedAt;
    forall j | 0 <= j < |rs|
      ensures c.startedAt <= rs[j].conversation.startedAt
      ensures c.endedAt.None? ==> rs[j].conversation.endedAt.None?
      ensures c.endedAt.Some? && rs[j].conversation.endedAt.Some? ==> rs[j].conversation.endedAt.value <= c.endedAt.value
    {
      assert ds[j].startedAt == rs[j].conversation.startedAt && ds[j].endedAt == rs[j].conversation.endedAt;
    }
    if c.endedAt.Some? {
      assert rs[d].conversation.endedAt == c.endedAt && rs[d].conversation.status == c.status;
    }
  }

  /** The conversation row of an identity merges what was reported about it, whatever else the run contains. */
  lemma ConversationMergesReports(now: Time, ops: seq<Op>, source: Bytes, externalID: Bytes)
    ensures var row := Lookup(RunOps(Seeded(now), ops).conversations, IngestKey(source, externalID));
            match row
            case None => Reports(ops, source, externalID) == []
            case Some(c) => Merges(c, Reports(ops, source, externalID))
  {
    RowIsFoldOfDeliveries(now, ops, source, externalID);
    ReportsAreDeliveries(ops, source, externalID);
    var row := Lookup(RunOps(Seeded(now), ops).conversations, IngestKey(source, externalID));
    if row.Some? {
      FoldMerges(Reports(ops, source, externalID), row.value);
    }
  }

  /** `id` is the id of the account row of the identity. */
  ghost predicate IsAccount(a: Accounts, id: int, source: Bytes, externalID: Bytes) {
    exists i :: 0 <= i < |a.rows| && a.rows[i].id == id
                && a.rows[i].data.source == source && a.rows[i].data.externalID == externalID
  }

  /** The conversation row belongs to the account that its last report names. */
  ghost predicate OwnerIs(accounts: Accounts, source: Bytes, row: Option<Merge.Conversation>, last: Option<Report>) {
    match last
    case None => row.None?
    case Some(r) => row.Some? && IsAccount(accounts, row.value.accountID, source, r.account.externalID)
  }

  lemma UpsertKeepsAccounts(a: Accounts, source': Bytes, input: AccountInput, id: int, source: Bytes, externalID: Bytes)
    requires IsAccount(a, id, source, externalID)
    ensures IsAccount(UpsertAccount(a, source', input), id, source, externalID)
  {
    var i :| 0 <= i < |a.rows| && a.rows[i].id == id
             && a.rows[i].data.source == source && a.rows[i].data.externalID == externalID;
    var a' := UpsertAccount(a, source', input);
    assert a'.rows[i].id == id;
  }

  lemma UpsertIsAccount(a: Accounts, source: Bytes, input: AccountInput)
    ensures IsAccount(UpsertAccount(a, source, input), AccountId(a, source, input.externalID), source, input.externalID)
  {
    var a', p := UpsertAccount(a, source, input), AccountPosition(a.rows, source, input.externalID);
    assert a'.rows[p].id == AccountId(a, source, input.externalID);
  }

  lemma ParentsKeepOwner(s: StoreRows, source': Bytes, account: AccountInput, conversation: ConversationInput,
                         source: Bytes, externalID: Bytes, last: Option<Report>)
    requires Intact(s) && OwnerIs(s.accounts, source, Lookup(s.conversations, IngestKey(source, externalID)), last)
    ensures var s' := PersistParents(s, source', account, conversation);
            OwnerIs(s'.accounts, source, Lookup(s'.conversations, IngestKey(source, externalID)),
                    if source' == source && conversation.externalID == externalID then Some(Report(account, conversation))
                    else last)
  {
    var key, mine := IngestKey(source', conversation.externalID), IngestKey(source, externalID);
    var input := Merge.FromInput(AccountId(s.accounts, source', account.externalID), conversation);
    IngestKeyIsInjective(source, externalID, source', conversation.externalID);
    UpsertRefinesMap(s.conversations, SEEDS, key, input, Merge.MergeInMemory, mine);
    UpsertIsAccount(s.accounts, source', account);
    if key != mine && last.Some? {
      UpsertKeepsAccounts(s.accounts, source', account, Lookup(s.conversations, mine).value.accountID, source,
                          last.value.account.externalID);
    }
  }

  lemma ParentsOfOp(s: StoreRows, op: Op, source: Bytes, externalID: Bytes)
    ensures var s', r := ApplyOp(s, op), ReportsTo(source, externalID)(op);
            match op
            case Delivered(ConversationPayload(e)) =>
              && s'.accounts == PersistParents(s, e.source, e.account, e.conversation).accounts
              && s'.conversations == PersistParents(s, e.source, e.account, e.conversation).conversations
              && r == if e.source == source && e.conversation.externalID == externalID
                      then Some(Report(e.account, e.conversation)) else None
            case Delivered(AttemptPayload(e)) =>
              && s'.accounts == PersistParents(s, e.source, e.account, e.conversation).accounts
              && s'.conversations == PersistParents(s, e.source, e.account, e.conversation).conversations
              && r == if e.source == source && e.conversation.externalID == externalID
                      then Some(Report(e.account, e.conversation)) else None
            case _ => s'.accounts == s.accounts && s'.conversations == s.conversations && r.None?
  {
  }

  lemma OpKeepsOwner(s: StoreRows, op: Op, last: Option<Report>, source: Bytes, externalID: Bytes)
    requires Intact(s) && OwnerIs(s.accounts, source, Lookup(s.conversations, IngestKey(source, externalID)), last)
    ensures var s' := ApplyOp(s, op);
            OwnerIs(s'.accounts, source, Lookup(s'.conversations, IngestKey(source, externalID)),
                    Later(op, last, ReportsTo(source, externalID)))
  {
    ParentsOfOp(s, op, source, externalID);
    if op.Delivered? && op.payload.ConversationPayload? {
      var e := op.payload.conversation;
      ParentsKeepOwner(s, e.source, e.account, e.conversation, source, externalID, last);
    } else if op.Delivered? && op.payload.AttemptPayload? {
      var e := op.payload.attempt;
      ParentsKeepOwner(s, e.source, e.account, e.conversation, source, externalID, last);
    }
  }

  /** A conversation belongs to the account that the last delivery about it names. */
  lemma {:induction false} OwnerIsLastDelivery(now: Time, ops: seq<Op>, source: Bytes, externalID: Bytes)
    ensures var s := RunOps(Seeded(now), ops);
            OwnerIs(s.accounts, source, Lookup(s.conversations, IngestKey(source, externalID)),
                    Last(ops, ReportsTo(source, externalID)))
  {
    if ops != [] {
      var init, last := ops[..|ops| - 1], ops[|ops| - 1];
      OwnerIsLastDelivery(now, init, source, externalID);
      ReachableIsIntact(now, init);
      OpKeepsOwner(RunOps(Seeded(now), init), last, Last(init, ReportsTo(source, externalID)), source, externalID);
    } else {
      NewStoreHasNoIdentities(now, IngestKey(source, externalID));
    }
  }
}
