/** Exactly which persist errors can make the protocol complete an event whose payload was not persisted. */
module ProtocolErrors {
  import opened Domain
  import opened Ledger
  import opened Protocol
  import opened ProtocolSafety
  import opened ProtocolWitnesses

  /** The persist error of the step, if it is transient, is one of `errs`. Permanent errors may be any. */
  predicate Allowed(errs: Error -> bool, step: Step) {
    step.PersistError? && step.error.transient ==> errs(step.error)
  }

  ghost predicate AllAllowed(errs: Error -> bool, steps: seq<Step>) {
    forall i :: 0 <= i < |steps| ==> Allowed(errs, steps[i])
  }

  ghost predicate NoneMisleads(c: Config, errs: Error -> bool) {
    forall e: Error :: e.transient && errs(e) ==> !Misleads(c, e)
  }

  /** A run with these errors ends with `k` completed although its payload was never persisted. */
  ghost predicate LosesPayload(c: Config, errs: Error -> bool, start: Time, steps: seq<Step>, k: EventKey) {
    && Legal(c, Init(start), steps) && AllAllowed(errs, steps)
    && var s := Run(c, Init(start), steps);
       k in s.ledger && s.ledger[k].status == Completed && k !in s.applied
  }

  lemma AllowedErrorsArePlain(c: Config, errs: Error -> bool, steps: seq<Step>)
    requires AllAllowed(errs, steps) && NoneMisleads(c, errs)
    ensures AllPlain(c, steps)
  {
    forall i | 0 <= i < |steps| ensures Plain(c, steps[i]) {
      assert Allowed(errs, steps[i]);
    }
  }

  lemma AllowedErrorLosesPayload(c: Config, errs: Error -> bool, e: Error) returns (steps: seq<Step>, k: EventKey)
    requires c.Valid() && errs(e) && Misleads(c, e)
    ensures LosesPayload(c, errs, 0, steps, k)
  {
    k := EventKey([], [], []);
    steps := MisleadingErrorSkipsPayload(c, k, Undecodable, e);
  }

  /** Whatever else the stores answer, completed implies applied in every reachable state exactly when none of
      the transient errors that they return misleads. */
  lemma CompletedImpliesAppliedIff(c: Config, errs: Error -> bool)
    requires c.Valid()
    ensures (forall start, steps, k :: !LosesPayload(c, errs, start, steps, k)) <==> NoneMisleads(c, errs)
  {
    if NoneMisleads(c, errs) {
      forall start, steps, k ensures !LosesPayload(c, errs, start, steps, k) {
        if LosesPayload(c, errs, start, steps, k) {
          AllowedErrorsArePlain(c, errs, steps);
          CompletedImpliesApplied(c, start, steps, k);
        }
      }
    } else {
      var e: Error :| e.transient && errs(e) && Misleads(c, e);
      var steps, k := AllowedErrorLosesPayload(c, errs, e);
    }
  }

  /** How the text of every transient error of the repository's stores begins. */
  const TRANSIENT_TEXT := "transient failure"

  predicate StoreError(e: Error) {
    e.transient && TRANSIENT_TEXT <= e.text
  }

  /** The repository's own stores meet the condition. */
  lemma StoresDoNotMislead(c: Config)
    ensures NoneMisleads(c, StoreError)
  {
    assert TRANSIENT_TEXT[0] != COMPLETION_PREFIX[0];
    forall e | StoreError(e) ensures !Misleads(c, e) {
      assert e.text[0] == TRANSIENT_TEXT[0];
    }
  }
}
