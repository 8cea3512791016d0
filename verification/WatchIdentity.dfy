/** The key under which a watch is deduplicated, and the reading of the subject back out of it. */
module WatchIdentity {
  import opened Text

  const COLON: Unit := 0x3A

  datatype Severity = Warn | Crit

  datatype Condition =
    | RunStart(runId: Str)
    | RunFinished(runId: Str)
    | RunFailed(runId: Str)
    | BacklogDrain(queue: Str)
    | QueueDepthAbove(queue: Str, threshold: nat)
    | QueueDepthBelow(queue: Str, threshold: nat)
    | QueueStalled(queue: Str, ticks: nat)
    | QueueOldestAge(queue: Str, thresholdMinutes: nat)
    | ErrorRecurrence(fingerprint: Str)
    | HealthRecovery(fromSeverity: Severity)

  /** A watch: what it waits for, how often it looks, for how long, and why. */
  datatype Spec = Spec(condition: Condition, checkEveryMinutes: nat, maxHours: real, note: Str)

  datatype Kind =
    | RunStartKind | RunFinishedKind | RunFailedKind | BacklogDrainKind | QueueDepthAboveKind
    | QueueDepthBelowKind | QueueStalledKind | QueueOldestAgeKind | ErrorRecurrenceKind | HealthRecoveryKind

  function KindOf(c: Condition): Kind {
    match c
    case RunStart(_) => RunStartKind
    case RunFinished(_) => RunFinishedKind
    case RunFailed(_) => RunFailedKind
    case BacklogDrain(_) => BacklogDrainKind
    case QueueDepthAbove(_, _) => QueueDepthAboveKind
    case QueueDepthBelow(_, _) => QueueDepthBelowKind
    case QueueStalled(_, _) => QueueStalledKind
    case QueueOldestAge(_, _) => QueueOldestAgeKind
    case ErrorRecurrence(_) => ErrorRecurrenceKind
    case HealthRecovery(_) => HealthRecoveryKind
  }

  function KindName(k: Kind): Str {
    match k
    case RunStartKind => Lit("run_start")
    case RunFinishedKind => Lit("run_finished")
    case RunFailedKind => Lit("run_failed")
    case BacklogDrainKind => Lit("backlog_drain")
    case QueueDepthAboveKind => Lit("queue_depth_above")
    case QueueDepthBelowKind => Lit("queue_depth_below")
    case QueueStalledKind => Lit("queue_stalled")
    case QueueOldestAgeKind => Lit("queue_oldest_age")
    case ErrorRecurrenceKind => Lit("error_recurrence")
    case HealthRecoveryKind => Lit("health_recovery")
  }

  const HEALTH: Str := Lit("health")

  /** What is watched. */
  function Subject(c: Condition): Str {
    match c
    case RunStart(id) => id
    case RunFinished(id) => id
    case RunFailed(id) => id
    case BacklogDrain(q) => q
    case QueueDepthAbove(q, _) => q
    case QueueDepthBelow(q, _) => q
    case QueueStalled(q, _) => q
    case QueueOldestAge(q, _) => q
    case ErrorRecurrence(f) => f
    case HealthRecovery(_) => HEALTH
  }

  /** The threshold, for the kinds whose identity carries one. */
  function Threshold(c: Condition): Option<nat> {
    match c
    case QueueDepthAbove(_, t) => Some(t)
    case QueueDepthBelow(_, t) => Some(t)
    case QueueOldestAge(_, t) => Some(t)
    case _ => None
  }

  predicate HasTrailingValue(k: Kind) {
    k.QueueDepthAboveKind? || k.QueueDepthBelowKind? || k.QueueOldestAgeKind?
  }

  /** The part of an identity behind its kind. */
  function ValuePart(c: Condition): Str {
    match Threshold(c)
    case None => Subject(c)
    case Some(t) => Subject(c) + [COLON] + Decimal(t)
  }

  /** `watchIdentity`. */
  function Identity(spec: Spec): Str {
    KindName(KindOf(spec.condition)) + [COLON] + ValuePart(spec.condition)
  }

  // ---- Names ----

  predicate IsName(s: string) {
    forall i :: 0 <= i < |s| ==> s[i] as int < 0x80 && s[i] != ':'
  }

  lemma NamesHaveNoColon(s: string)
    requires IsName(s)
    ensures COLON !in Lit(s)
  {
    forall i | 0 <= i < |s| ensures Lit(s)[i] != COLON {
      assert s[i] != ':' && s[i] as int != 0x3A;
    }
  }

  lemma KindNamesHaveNoColon(k: Kind)
    ensures COLON !in KindName(k)
  {
    hide Lit;
    match k {
      case RunStartKind => NamesHaveNoColon("run_start");
      case RunFinishedKind => NamesHaveNoColon("run_finished");
      case RunFailedKind => NamesHaveNoColon("run_failed");
      case BacklogDrainKind => NamesHaveNoColon("backlog_drain");
      case QueueDepthAboveKind => NamesHaveNoColon("queue_depth_above");
      case QueueDepthBelowKind => NamesHaveNoColon("queue_depth_below");
      case QueueStalledKind => NamesHaveNoColon("queue_stalled");
      case QueueOldestAgeKind => NamesHaveNoColon("queue_oldest_age");
      case ErrorRecurrenceKind => NamesHaveNoColon("error_recurrence");
      case HealthRecoveryKind => NamesHaveNoColon("health_recovery");
    }
  }

  lemma KindNamesDiffer(k: Kind, l: Kind)
    ensures KindName(k) == KindName(l) <==> k == l
  {
    if k != l && |KindName(k)| == |KindName(l)| {
      // Names of the same length part at one of these places.
      assert KindName(k)[0] != KindName(l)[0] || KindName(k)[4] != KindName(l)[4] || KindName(k)[7] != KindName(l)[7]
          || KindName(k)[12] != KindName(l)[12];
    }
  }

  // ---- Equal identities ----

  /** Two watches share an identity exactly when they share kind, subject and threshold; ticks, cadence, window and note do not count. */
  lemma IdentitiesAreEqualExactly(a: Spec, b: Spec)
    ensures Identity(a) == Identity(b) <==>
      && KindOf(a.condition) == KindOf(b.condition)
      && Subject(a.condition) == Subject(b.condition)
      && Threshold(a.condition) == Threshold(b.condition)
  {
    hide KindName;
    var x, y := a.condition, b.condition;
    KindNamesHaveNoColon(KindOf(x));
    KindNamesHaveNoColon(KindOf(y));
    if Identity(a) == Identity(b) {
      FirstSeparatorIsUnique(KindName(KindOf(x)), ValuePart(x), KindName(KindOf(y)), ValuePart(y), COLON);
      KindNamesDiffer(KindOf(x), KindOf(y));
      if Threshold(x).Some? {
        var t, u := Threshold(x).value, Threshold(y).value;
        DecimalLacks(t, COLON);
        DecimalLacks(u, COLON);
        LastSeparatorIsUnique(Subject(x), Decimal(t), Subject(y), Decimal(u), COLON);
        DecimalIsInjective(t, u);
      }
    }
  }

  /** The same kind on the same subject, and at the same threshold for the three kinds that have one. */
  predicate SameWatch(a: Condition, b: Condition) {
    match (a, b)
    case (RunStart(x), RunStart(y)) => x == y
    case (RunFinished(x), RunFinished(y)) => x == y
    case (RunFailed(x), RunFailed(y)) => x == y
    case (BacklogDrain(x), BacklogDrain(y)) => x == y
    case (QueueDepthAbove(x, t), QueueDepthAbove(y, u)) => x == y && t == u
    case (QueueDepthBelow(x, t), QueueDepthBelow(y, u)) => x == y && t == u
    case (QueueStalled(x, _), QueueStalled(y, _)) => x == y
    case (QueueOldestAge(x, t), QueueOldestAge(y, u)) => x == y && t == u
    case (ErrorRecurrence(x), ErrorRecurrence(y)) => x == y
    case (HealthRecovery(_), HealthRecovery(_)) => true
    case _ => false
  }

  /** Kind by kind: what makes two watches one. */
  lemma SameIdentityExactly(a: Spec, b: Spec)
    ensures Identity(a) == Identity(b) <==> SameWatch(a.condition, b.condition)
  {
    hide Identity;
    IdentitiesAreEqualExactly(a, b);
  }

  // ---- Reading the subject back ----

  /** `value.lastIndexOf(":")`. */
  function LastColon(s: Str): (r: int)
    ensures -1 <= r < |s|
    ensures r >= 0 ==> s[r] == COLON
    ensures forall i :: r < i < |s| ==> s[i] != COLON
  {
    if s == [] then -1 else if s[|s| - 1] == COLON then |s| - 1 else LastColon(s[..|s| - 1])
  }

  /** `watchIdentityValue`. */
  function IdentityValue(k: Kind, identity: Str): Str {
    var prefix := KindName(k) + [COLON];
    var value := if prefix <= identity then identity[|prefix|..] else [];
    if HasTrailingValue(k) && LastColon(value) > 0 then value[..LastColon(value)] else value
  }

  lemma LastColonBeforeDigits(q: Str, d: Str)
    requires COLON !in d
    ensures LastColon(q + [COLON] + d) == |q| && (q + [COLON] + d)[..|q|] == q
  {
    hide LastColon;
    var value := q + [COLON] + d;
    assert value[|q|] == COLON && value[|q| + 1..] == d;
  }

  /** What is left of an identity behind its kind. */
  lemma ValueBehindTheKind(spec: Spec)
    ensures var prefix := KindName(KindOf(spec.condition)) + [COLON];
      prefix <= Identity(spec) && Identity(spec)[|prefix|..] == ValuePart(spec.condition)
  {
    hide KindName, ValuePart;
  }

  /**
    The subject comes back, colons and all, exactly if it is not the empty queue name of a kind with
    a threshold; that one comes back with the threshold attached.
   */
  lemma SubjectIsRecoveredExactly(spec: Spec)
    ensures var c := spec.condition;
      IdentityValue(KindOf(c), Identity(spec)) == Subject(c) <==> Threshold(c).None? || Subject(c) != []
  {
    hide KindName, Identity, LastColon;
    var c := spec.condition;
    ValueBehindTheKind(spec);
    if Threshold(c).Some? {
      DecimalLacks(Threshold(c).value, COLON);
      LastColonBeforeDigits(Subject(c), Decimal(Threshold(c).value));
    }
  }

  /** The empty queue name is read back as the threshold with its colon. */
  lemma EmptyQueueNameIsLost(threshold: nat, note: Str)
    ensures IdentityValue(QueueDepthAboveKind, Identity(Spec(QueueDepthAbove([], threshold), 5, 1.0, note))) == [COLON] + Decimal(threshold)
  {
    hide KindName, Identity, LastColon;
    var spec := Spec(QueueDepthAbove([], threshold), 5, 1.0, note);
    ValueBehindTheKind(spec);
    DecimalLacks(threshold, COLON);
    LastColonBeforeDigits([], Decimal(threshold));
    assert ValuePart(spec.condition) == [COLON] + Decimal(threshold);
  }
}
