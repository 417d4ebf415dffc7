/** The conversation merge: the in-memory rule, the SQL rule, and what either computes over any
    sequence of deliveries of one conversation. */
module Merge {
  import opened Domain

  datatype Conversation = Conversation(
    accountID: int, channel: string, status: string, startedAt: Time, endedAt: Option<Time>)

  /** The row that a first delivery inserts. */
  function FromInput(accountID: int, input: ConversationInput): Conversation {
    Conversation(accountID, input.channel, input.status, input.startedAt, input.endedAt)
  }

  /** The in-memory store's update of an existing row by a delivery. */
  function MergeInMemory(row: Conversation, e: Conversation): Conversation {
    var c := row.(accountID := e.accountID, channel := e.channel,
                  startedAt := if row.startedAt > e.startedAt then e.startedAt else row.startedAt);
    match (row.endedAt, e.endedAt)
    case (None, _) => c.(status := e.status, endedAt := e.endedAt)
    case (Some(_), None) => c
    case (Some(t), Some(u)) => if u > t then c.(status := e.status, endedAt := e.endedAt) else c
  }

  /** The SQL upsert's update: CASE for the status, LEAST and GREATEST for the times. */
  function MergeInSql(row: Conversation, e: Conversation): Conversation {
    var keepsStatus := row.endedAt.Some? && (e.endedAt.None? || e.endedAt.value < row.endedAt.value);
    var startedAt := if e.startedAt < row.startedAt then e.startedAt else row.startedAt;
    var endedAt :=
      if row.endedAt.None? then e.endedAt
      else if e.endedAt.None? then row.endedAt
      else Some(if e.endedAt.value > row.endedAt.value then e.endedAt.value else row.endedAt.value);
    Conversation(e.accountID, e.channel, if keepsStatus then row.status else e.status, startedAt, endedAt)
  }

  datatype Rule = InMemory | Sql

  function Merged(rule: Rule, row: Conversation, e: Conversation): Conversation {
    if rule.InMemory? then MergeInMemory(row, e) else MergeInSql(row, e)
  }

  /** The row after a non-empty sequence of deliveries. */
  function Fold(rule: Rule, es: seq<Conversation>): Conversation
    requires es != []
  {
    if |es| == 1 then es[0] else Merged(rule, Fold(rule, es[..|es| - 1]), es[|es| - 1])
  }

  predicate IsEarliestStart(t: Time, es: seq<Conversation>) {
    (exists i :: 0 <= i < |es| && es[i].startedAt == t) &&
    forall i :: 0 <= i < |es| ==> t <= es[i].startedAt
  }

  predicate NoneEnded(es: seq<Conversation>) {
    forall i :: 0 <= i < |es| ==> es[i].endedAt.None?
  }

  predicate IsLatestEnd(t: Option<Time>, es: seq<Conversation>) {
    match t
    case None => NoneEnded(es)
    case Some(m) =>
      (exists i :: 0 <= i < |es| && es[i].endedAt == t) &&
      forall i :: 0 <= i < |es| && es[i].endedAt.Some? ==> es[i].endedAt.value <= m
  }

  /** Delivery `i` decides the status: it is the first (in memory) or the last (in SQL) to carry the
      latest end, or simply the last one when no delivery has ended. */
  predicate Decides(rule: Rule, i: int, es: seq<Conversation>) {
    0 <= i < |es| &&
    (if NoneEnded(es) then i == |es| - 1
     else
       IsLatestEnd(es[i].endedAt, es) && es[i].endedAt.Some? &&
       forall j :: 0 <= j < |es| && es[j].endedAt == es[i].endedAt ==>
         if rule.InMemory? then i <= j else j <= i)
  }

  /** Start, end and status of the row, for every sequence of deliveries. */
  lemma {:induction false} FoldMeaning(rule: Rule, es: seq<Conversation>) returns (decider: nat)
    requires es != []
    ensures IsEarliestStart(Fold(rule, es).startedAt, es)
    ensures IsLatestEnd(Fold(rule, es).endedAt, es)
    ensures Decides(rule, decider, es) && Fold(rule, es).status == es[decider].status
  {
    decider := 0;
    if |es| > 1 {
      var init, last := es[..|es| - 1], es[|es| - 1];
      var d := FoldMeaning(rule, init);
      var c := Fold(rule, init);
      StartOfStep(c, init, es);
      decider := StepDecides(rule, c, d, init, es);
    }
  }

  /** Channel and account are those of the last delivery. */
  lemma FoldTakesLast(rule: Rule, es: seq<Conversation>)
    requires es != []
    ensures Fold(rule, es).channel == es[|es| - 1].channel && Fold(rule, es).accountID == es[|es| - 1].accountID
  {
  }

  lemma StartOfStep(c: Conversation, init: seq<Conversation>, es: seq<Conversation>)
    requires |es| > 1 && init == es[..|es| - 1] && IsEarliestStart(c.startedAt, init)
    ensures IsEarliestStart(MergeInMemory(c, es[|es| - 1]).startedAt, es)
    ensures IsEarliestStart(MergeInSql(c, es[|es| - 1]).startedAt, es)
  {
    var last := |es| - 1;
    var i :| 0 <= i < |init| && init[i].startedAt == c.startedAt;
    assert es[i].startedAt == c.startedAt && es[last].startedAt == es[last].startedAt;
  }

  lemma StepDecides(rule: Rule, c: Conversation, d: nat, init: seq<Conversation>, es: seq<Conversation>)
    returns (decider: nat)
    requires |es| > 1 && init == es[..|es| - 1]
    requires IsLatestEnd(c.endedAt, init) && Decides(rule, d, init) && c.status == init[d].status
    ensures var c' := Merged(rule, c, es[|es| - 1]);
            IsLatestEnd(c'.endedAt, es) && Decides(rule, decider, es) && c'.status == es[decider].status
  {
    var last := |es| - 1;
    assert forall i :: 0 <= i < last ==> init[i] == es[i];
    var c' := Merged(rule, c, es[last]);
    assert es[last] == es[last] && es[d] == init[d];
    if c.endedAt.None? {
      decider := last;
    } else {
      assert init[d].endedAt == c.endedAt;
      decider := if c'.endedAt != c.endedAt || (rule.Sql? && es[last].endedAt == c.endedAt) then last else d;
    }
  }

  /** The same deliveries, in some other order. */
  predicate Reordered(es: seq<Conversation>, fs: seq<Conversation>) {
    multiset(es) == multiset(fs)
  }

  lemma ReorderedHasSameElements(es: seq<Conversation>, fs: seq<Conversation>)
    requires Reordered(es, fs)
    ensures forall e :: e in es <==> e in fs
  {
    forall e ensures e in es <==> e in fs {
      assert e in es <==> e in multiset(es);
      assert e in fs <==> e in multiset(fs);
    }
  }

  lemma TimesAreProper(es: seq<Conversation>, fs: seq<Conversation>, c: Conversation)
    requires forall e :: e in es <==> e in fs
    requires IsEarliestStart(c.startedAt, es) && IsLatestEnd(c.endedAt, es)
    ensures IsEarliestStart(c.startedAt, fs) && IsLatestEnd(c.endedAt, fs)
  {
    var i :| 0 <= i < |es| && es[i].startedAt == c.startedAt;
    assert es[i] in fs;
    if c.endedAt.Some? {
      var j :| 0 <= j < |es| && es[j].endedAt == c.endedAt;
      assert es[j] in fs;
    }
    assert forall k :: 0 <= k < |fs| ==> fs[k] in es;
  }

  lemma LatestEndIsUnique(es: seq<Conversation>, u: Option<Time>, u': Option<Time>)
    requires IsLatestEnd(u, es) && IsLatestEnd(u', es)
    ensures u == u'
  {
  }

  /** Start and end times converge: every order of the same deliveries, under either rule, gives the
      same two times. */
  lemma TimesAreOrderIndependent(rule: Rule, es: seq<Conversation>, rule': Rule, fs: seq<Conversation>)
    requires es != [] && fs != [] && Reordered(es, fs)
    ensures Fold(rule, es).startedAt == Fold(rule', fs).startedAt
    ensures Fold(rule, es).endedAt == Fold(rule', fs).endedAt
  {
    var d := FoldMeaning(rule, es);
    var d' := FoldMeaning(rule', fs);
    ReorderedHasSameElements(es, fs);
    var c, c' := Fold(rule, es), Fold(rule', fs);
    TimesAreProper(es, fs, c);
    LatestEndIsUnique(fs, c.endedAt, c'.endedAt);
  }

  /** Delivery `e` decides the status in some order of `es`. */
  predicate CouldDecide(e: Conversation, es: seq<Conversation>) {
    NoneEnded(es) || (e.endedAt.Some? && IsLatestEnd(e.endedAt, es))
  }

  predicate OneVerdict(es: seq<Conversation>) {
    forall i, j :: 0 <= i < |es| && 0 <= j < |es| && CouldDecide(es[i], es) && CouldDecide(es[j], es) ==>
      es[i].status == es[j].status
  }

  lemma CouldDecideIsProper(e: Conversation, es: seq<Conversation>, fs: seq<Conversation>)
    requires e in es && (forall x :: x in es <==> x in fs) && CouldDecide(e, es)
    ensures CouldDecide(e, fs)
  {
    assert forall k :: 0 <= k < |fs| ==> fs[k] in es;
    if !NoneEnded(es) {
      assert e in fs;
    }
  }

  lemma DeciderIsUnique(rule: Rule, es: seq<Conversation>, i: int, j: int)
    requires Decides(rule, i, es) && Decides(rule, j, es)
    ensures i == j
  {
  }

  /** The status of the row is decided by the one delivery that `Decides` names. */
  lemma StatusOf(rule: Rule, es: seq<Conversation>, i: int)
    requires Decides(rule, i, es)
    ensures Fold(rule, es).status == es[i].status
  {
    var d := FoldMeaning(rule, es);
    DeciderIsUnique(rule, es, d, i);
  }

  lemma SameElementsEndAlike(es: seq<Conversation>, fs: seq<Conversation>)
    requires forall x :: x in es <==> x in fs
    ensures NoneEnded(es) <==> NoneEnded(fs)
  {
    assert forall n :: 0 <= n < |fs| ==> fs[n] in es;
    assert forall n :: 0 <= n < |es| ==> es[n] in fs;
  }

  lemma MoveIsReordering(es: seq<Conversation>, i: nat)
    requires i < |es|
    ensures var others := es[..i] + es[i + 1..];
            Reordered(es, [es[i]] + others) && Reordered(es, others + [es[i]])
  {
    assert es == es[..i] + [es[i]] + es[i + 1..];
  }

  /** An order of `es` in which delivery `i` decides the status. */
  lemma OrderDecidedBy(rule: Rule, es: seq<Conversation>, i: nat) returns (fs: seq<Conversation>)
    requires i < |es| && CouldDecide(es[i], es)
    ensures fs != [] && Reordered(es, fs) && Fold(rule, fs).status == es[i].status
  {
    var others := es[..i] + es[i + 1..];
    MoveIsReordering(es, i);
    var first := rule.InMemory? && !NoneEnded(es);
    fs := if first then [es[i]] + others else others + [es[i]];
    ReorderedHasSameElements(es, fs);
    CouldDecideIsProper(es[i], es, fs);
    var k := if first then 0 else |fs| - 1;
    assert fs[k] == es[i];
    SameElementsEndAlike(es, fs);
    StatusOf(rule, fs, k);
  }

  /** The status converges exactly when all deliveries that could decide it agree: those carrying the
      latest end, or all of them when none has ended. */
  lemma StatusIsOrderIndependentIff(rule: Rule, es: seq<Conversation>)
    requires es != []
    ensures (forall fs :: fs != [] && Reordered(es, fs) ==> Fold(rule, fs).status == Fold(rule, es).status)
            <==> OneVerdict(es)
  {
    if OneVerdict(es) {
      forall fs | fs != [] && Reordered(es, fs) ensures Fold(rule, fs).status == Fold(rule, es).status {
        VerdictHolds(rule, es, fs);
      }
    } else {
      var i, j :| 0 <= i < |es| && 0 <= j < |es| && CouldDecide(es[i], es) && CouldDecide(es[j], es)
                  && es[i].status != es[j].status;
      var fs := OrderDecidedBy(rule, es, i);
      var gs := OrderDecidedBy(rule, es, j);
    }
  }

  lemma VerdictHolds(rule: Rule, es: seq<Conversation>, fs: seq<Conversation>)
    requires es != [] && fs != [] && Reordered(es, fs) && OneVerdict(es)
    ensures Fold(rule, fs).status == Fold(rule, es).status
  {
    ReorderedHasSameElements(es, fs);
    var d := FoldMeaning(rule, es);
    var d' := FoldMeaning(rule, fs);
    CouldDecideIsProper(fs[d'], fs, es);
    assert fs[d'] in es;
    var k :| 0 <= k < |es| && es[k] == fs[d'];
    assert CouldDecide(es[d], es) && CouldDecide(es[k], es);
  }

  /** Over any run the two rules keep the same times, and they keep the same status exactly when the
      first and the last delivery carrying the latest end agree on it. */
  lemma RulesAgreeIff(es: seq<Conversation>, first: int, last: int)
    requires Decides(InMemory, first, es) && Decides(Sql, last, es)
    ensures Fold(InMemory, es).startedAt == Fold(Sql, es).startedAt
    ensures Fold(InMemory, es).endedAt == Fold(Sql, es).endedAt
    ensures Fold(InMemory, es).status == Fold(Sql, es).status <==> es[first].status == es[last].status
  {
    StatusOf(InMemory, es, first);
    StatusOf(Sql, es, last);
    TimesAreOrderIndependent(InMemory, es, Sql, es);
  }

  predicate EqualEndsAgree(es: seq<Conversation>) {
    forall i, j :: 0 <= i < |es| && 0 <= j < |es| && es[i].endedAt.Some? && es[i].endedAt == es[j].endedAt ==>
      es[i].status == es[j].status
  }

  /** In particular they agree whenever deliveries with equal ends carry equal statuses. */
  lemma RulesAgree(es: seq<Conversation>)
    requires es != [] && EqualEndsAgree(es)
    ensures Fold(InMemory, es).status == Fold(Sql, es).status
  {
    var i := FoldMeaning(InMemory, es);
    var j := FoldMeaning(Sql, es);
    if !NoneEnded(es) {
      LatestEndIsUnique(es, es[i].endedAt, es[j].endedAt);
    }
  }

  /** Replaying a delivery changes nothing. */
  lemma MergeIsIdempotent(rule: Rule, row: Conversation, e: Conversation)
    ensures Merged(rule, Merged(rule, row, e), e) == Merged(rule, row, e)
    ensures Merged(rule, e, e) == e
  {
  }
}
