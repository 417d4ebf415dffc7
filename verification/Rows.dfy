/** The rows of the in-memory store as a value: what persisting an event does to them, and what holds in
    every state that deliveries and retention can reach. */
module Rows {
  import opened Domain
  import opened Keys
  import opened Tables
  import opened Merge
  import Retention

  datatype Account = Account(source: Bytes, externalID: Bytes, email: string, status: string)

  datatype Message = Message(conversationID: int, role: string, contentMasked: string, createdAt: Time)

  datatype Attempt = Attempt(
    conversationID: int, provider: string, model: string, tokensIn: int, tokensOut: int,
    costUSD: real, latencyMS: int, success: bool, errorCode: Option<string>, createdAt: Time)

  datatype Snapshot = Snapshot(vpnPeerCount: int, openClawUp: bool, cpuPct: real, memPct: real, capturedAt: Time)

  datatype Accounts = Accounts(rows: seq<Row<Account>>, next: int)

  datatype StoreRows = StoreRows(
    accounts: Accounts, conversations: Table<Conversation>, messages: Table<Message>,
    attempts: Table<Attempt>, snapshots: Table<Snapshot>)

  /** The position of the first account of this identity, or the number of accounts. */
  function AccountPosition(rows: seq<Row<Account>>, source: Bytes, externalID: Bytes): (i: nat)
    ensures i <= |rows|
    ensures i < |rows| ==> rows[i].data.source == source && rows[i].data.externalID == externalID
    ensures forall j :: 0 <= j < i ==> rows[j].data.source != source || rows[j].data.externalID != externalID
  {
    if rows == [] || (rows[0].data.source == source && rows[0].data.externalID == externalID) then 0
    else 1 + AccountPosition(rows[1..], source, externalID)
  }

  function UpsertAccount(a: Accounts, source: Bytes, input: AccountInput): Accounts {
    var i := AccountPosition(a.rows, source, input.externalID);
    var data := Account(source, input.externalID, input.email, input.status);
    if i < |a.rows| then a.(rows := a.rows[i := Row(a.rows[i].id, data)])
    else Accounts(a.rows + [Row(a.next, data)], a.next + 1)
  }

  function AccountId(a: Accounts, source: Bytes, externalID: Bytes): int {
    var i := AccountPosition(a.rows, source, externalID);
    if i < |a.rows| then a.rows[i].id else a.next
  }

  /** Messages, attempts and snapshots are overwritten by a redelivery. */
  function Replace<T>(row: T, input: T): T {
    input
  }

  function MessageOf(conversationID: int, m: MessageInput): Message {
    Message(conversationID, m.role, m.contentMasked, m.createdAt)
  }

  function AttemptOf(conversationID: int, a: AttemptInput): Attempt {
    Attempt(conversationID, a.provider, a.model, a.tokensIn, a.tokensOut, a.costUSD, a.latencyMS, a.success,
            a.errorCode, a.createdAt)
  }

  function SnapshotOf(e: SnapshotEvent): Snapshot {
    Snapshot(e.vpnPeerCount, e.openClawUp, e.cpuPct, e.memPct, e.capturedAt)
  }

  /** The account and conversation part that two kinds of events share. */
  function PersistParents(s: StoreRows, source: Bytes, account: AccountInput, conversation: ConversationInput): StoreRows {
    var accountID := AccountId(s.accounts, source, account.externalID);
    s.(accounts := UpsertAccount(s.accounts, source, account),
       conversations := Upsert(s.conversations, IngestKey(source, conversation.externalID),
                               FromInput(accountID, conversation), MergeInMemory))
  }

  function ConversationId(s: StoreRows, source: Bytes, conversation: ConversationInput): int {
    UpsertId(s.conversations, IngestKey(source, conversation.externalID))
  }

  function PersistConversation(s: StoreRows, e: ConversationEvent): StoreRows {
    var parents := PersistParents(s, e.source, e.account, e.conversation);
    match e.message
    case None => parents
    case Some(m) =>
      parents.(messages := Upsert(s.messages, IngestKey(e.source, m.externalID),
                                  MessageOf(ConversationId(s, e.source, e.conversation), m), Replace<Message>))
  }

  function PersistAttempt(s: StoreRows, e: AttemptEvent): StoreRows {
    PersistParents(s, e.source, e.account, e.conversation).(
      attempts := Upsert(s.attempts, IngestKey(e.source, e.attempt.externalID),
                         AttemptOf(ConversationId(s, e.source, e.conversation), e.attempt), Replace<Attempt>))
  }

  function PersistSnapshot(s: StoreRows, e: SnapshotEvent): StoreRows {
    s.(snapshots := Upsert(s.snapshots, IngestKey(e.source, e.eventID), SnapshotOf(e), Replace<Snapshot>))
  }

  function Persist(s: StoreRows, payload: Payload): StoreRows {
    match payload
    case ConversationPayload(e) => PersistConversation(s, e)
    case SnapshotPayload(e) => PersistSnapshot(s, e)
    case AttemptPayload(e) => PersistAttempt(s, e)
    case Undecodable => s
  }

  function AccountIds(a: Accounts): set<int> {
    set i | 0 <= i < |a.rows| :: a.rows[i].id
  }

  /** Account ids are unique and below the next id, and an identity has one account at most. */
  ghost predicate SoundAccounts(a: Accounts) {
    && (forall i, j :: 0 <= i < j < |a.rows| ==> a.rows[i].id != a.rows[j].id)
    && (forall i :: 0 <= i < |a.rows| ==> a.rows[i].id < a.next)
    && (forall i, j :: 0 <= i < j < |a.rows| ==>
          a.rows[i].data.source != a.rows[j].data.source || a.rows[i].data.externalID != a.rows[j].data.externalID)
  }

  function AccountOf(c: Conversation): int { c.accountID }

  function ConversationOfMessage(m: Message): int { m.conversationID }

  function ConversationOfAttempt(a: Attempt): int { a.conversationID }

  /** Every row refers to one of `ids`. */
  ghost predicate RefersInto<T>(rows: seq<Row<T>>, parent: T -> int, ids: set<int>) {
    forall i :: 0 <= i < |rows| ==> parent(rows[i].data) in ids
  }

  ghost predicate ParentsExist(s: StoreRows) {
    && RefersInto(s.conversations.rows, AccountOf, AccountIds(s.accounts))
    && RefersInto(s.messages.rows, ConversationOfMessage, Ids(s.conversations))
    && RefersInto(s.attempts.rows, ConversationOfAttempt, Ids(s.conversations))
  }

  lemma UpsertRefersInto<T>(t: Table<T>, key: Bytes, input: T, merge: (T, T) -> T, parent: T -> int,
                            ids: set<int>, ids': set<int>)
    requires RefersInto(t.rows, parent, ids) && ids <= ids' && parent(input) in ids'
    requires forall row :: parent(merge(row, input)) == parent(input)
    ensures RefersInto(Upsert(t, key, input, merge).rows, parent, ids')
  {
  }

  const SEEDS: set<int> := {1}

  /** Store integrity. Only the snapshot index may dangle. */
  ghost predicate Intact(s: StoreRows) {
    && SoundAccounts(s.accounts)
    && Sound(s.conversations, SEEDS) && Dense(s.conversations)
    && Sound(s.messages, SEEDS) && Dense(s.messages)
    && Sound(s.attempts, SEEDS) && Dense(s.attempts)
    && Sound(s.snapshots, SEEDS)
    && ParentsExist(s)
  }

  lemma AccountUpsertKeepsSound(a: Accounts, source: Bytes, input: AccountInput)
    requires SoundAccounts(a)
    ensures SoundAccounts(UpsertAccount(a, source, input))
    ensures AccountIds(UpsertAccount(a, source, input)) == AccountIds(a) + {AccountId(a, source, input.externalID)}
  {
    AccountUpsertAddsId(a, source, input);
  }

  lemma AccountUpsertAddsId(a: Accounts, source: Bytes, input: AccountInput)
    requires SoundAccounts(a)
    ensures AccountIds(UpsertAccount(a, source, input)) == AccountIds(a) + {AccountId(a, source, input.externalID)}
  {
    var a' := UpsertAccount(a, source, input);
    var i := AccountPosition(a.rows, source, input.externalID);
    assert a'.rows[i].id == AccountId(a, source, input.externalID);
    assert forall j :: 0 <= j < |a.rows| ==> a'.rows[j].id == a.rows[j].id;
    forall id | id in AccountIds(a) ensures id in AccountIds(a') {
      var j :| 0 <= j < |a.rows| && a.rows[j].id == id;
      assert a'.rows[j].id == id;
    }
  }

  lemma ParentsStayIntact(s: StoreRows, source: Bytes, account: AccountInput, conversation: ConversationInput)
    requires Intact(s)
    ensures Intact(PersistParents(s, source, account, conversation))
    ensures ConversationId(s, source, conversation) in Ids(PersistParents(s, source, account, conversation).conversations)
  {
    var key := IngestKey(source, conversation.externalID);
    var input := FromInput(AccountId(s.accounts, source, account.externalID), conversation);
    AccountUpsertKeepsSound(s.accounts, source, account);
    UpsertKeepsSound(s.conversations, SEEDS, key, input, MergeInMemory);
    UpsertKeepsDense(s.conversations, key, input, MergeInMemory);
    UpsertIds(s.conversations, key, input, MergeInMemory);
    UpsertRefersInto(s.conversations, key, input, MergeInMemory, AccountOf, AccountIds(s.accounts),
                     AccountIds(UpsertAccount(s.accounts, source, account)));
  }

  /** Every delivery keeps the store intact. */
  lemma PersistKeepsIntact(s: StoreRows, payload: Payload)
    requires Intact(s)
    ensures Intact(Persist(s, payload))
  {
    match payload
    case ConversationPayload(e) =>
      ParentsStayIntact(s, e.source, e.account, e.conversation);
      if e.message.Some? {
        var m := e.message.value;
        var parents := PersistParents(s, e.source, e.account, e.conversation);
        ChildStaysIntact(s.messages, IngestKey(e.source, m.externalID),
                         MessageOf(ConversationId(s, e.source, e.conversation), m), ConversationOfMessage,
                         Ids(parents.conversations));
      }
    case AttemptPayload(e) =>
      ParentsStayIntact(s, e.source, e.account, e.conversation);
      var parents := PersistParents(s, e.source, e.account, e.conversation);
      ChildStaysIntact(s.attempts, IngestKey(e.source, e.attempt.externalID),
                       AttemptOf(ConversationId(s, e.source, e.conversation), e.attempt), ConversationOfAttempt,
                       Ids(parents.conversations));
    case SnapshotPayload(e) =>
      UpsertKeepsSound(s.snapshots, SEEDS, IngestKey(e.source, e.eventID), SnapshotOf(e), Replace<Snapshot>);
    case Undecodable =>
  }

  lemma ChildStaysIntact<T>(t: Table<T>, key: Bytes, input: T, parent: T -> int, ids: set<int>)
    requires Sound(t, SEEDS) && Dense(t) && RefersInto(t.rows, parent, ids) && parent(input) in ids
    ensures var t' := Upsert(t, key, input, Replace<T>);
            Sound(t', SEEDS) && Dense(t') && RefersInto(t'.rows, parent, ids)
  {
    UpsertKeepsSound(t, SEEDS, key, input, Replace<T>);
    UpsertKeepsDense(t, key, input, Replace<T>);
    UpsertRefersInto(t, key, input, Replace<T>, parent, ids, ids);
  }

  lemma AccountUpsertIsIdempotent(a: Accounts, source: Bytes, input: AccountInput)
    ensures var a' := UpsertAccount(a, source, input);
            && UpsertAccount(a', source, input) == a'
            && AccountId(a', source, input.externalID) == AccountId(a, source, input.externalID)
  {
    var a' := UpsertAccount(a, source, input);
    var i := AccountPosition(a.rows, source, input.externalID);
    assert AccountPosition(a'.rows, source, input.externalID) == i by {
      var j := AccountPosition(a'.rows, source, input.externalID);
      assert a'.rows[i].data.source == source && a'.rows[i].data.externalID == input.externalID;
      assert forall n :: 0 <= n < i ==> a'.rows[n] == a.rows[n];
    }
  }

  lemma ParentsAreIdempotent(s: StoreRows, source: Bytes, account: AccountInput, conversation: ConversationInput)
    requires Intact(s)
    ensures var s' := PersistParents(s, source, account, conversation);
            && PersistParents(s', source, account, conversation) == s'
            && ConversationId(s', source, conversation) == ConversationId(s, source, conversation)
  {
    var key := IngestKey(source, conversation.externalID);
    var input := FromInput(AccountId(s.accounts, source, account.externalID), conversation);
    AccountUpsertIsIdempotent(s.accounts, source, account);
    forall row ensures MergeInMemory(MergeInMemory(row, input), input) == MergeInMemory(row, input) {
      MergeIsIdempotent(InMemory, row, input);
    }
    MergeIsIdempotent(InMemory, input, input);
    UpsertIsIdempotent(s.conversations, SEEDS, key, input, MergeInMemory);
  }

  /** Replay idempotence: from every intact store, persisting an event twice equals persisting it once. */
  lemma PersistIsIdempotent(s: StoreRows, payload: Payload)
    requires Intact(s)
    ensures Persist(Persist(s, payload), payload) == Persist(s, payload)
  {
    match payload
    case ConversationPayload(e) =>
      ParentsAreIdempotent(s, e.source, e.account, e.conversation);
      if e.message.Some? {
        var m := e.message.value;
        UpsertIsIdempotent(s.messages, SEEDS, IngestKey(e.source, m.externalID),
                           MessageOf(ConversationId(s, e.source, e.conversation), m), Replace<Message>);
      }
    case AttemptPayload(e) =>
      ParentsAreIdempotent(s, e.source, e.account, e.conversation);
      UpsertIsIdempotent(s.attempts, SEEDS, IngestKey(e.source, e.attempt.externalID),
                         AttemptOf(ConversationId(s, e.source, e.conversation), e.attempt), Replace<Attempt>);
    case SnapshotPayload(e) =>
      UpsertIsIdempotent(s.snapshots, SEEDS, IngestKey(e.source, e.eventID), SnapshotOf(e), Replace<Snapshot>);
    case Undecodable =>
  }
}
