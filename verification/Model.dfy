/** The rows of the store and the commands that change them: the value types of
    the root package (episode.go, queue.go, fact.go, forget.go). */
module Model {

  datatype Option<+T> = None | Some(value: T) {
    function GetOr(default: T): T { if Some? then value else default }
  }

  datatype Result<+T> = Ok(value: T) | Err(error: Error)

  /** The sentinels a caller of the store can tell apart. */
  datatype Error =
    | InvalidConfig
    | InvalidRequest
    | InvalidChannel
    | AllChannelsFailed
    | InvalidExtraction
    | InvalidJobState
    | NotFound
    | FactConflict
    | InvalidValidity
    | JobNotLeased
    | JobNotDead
    | JobOutstanding

  /** Instants are whole seconds. A row id is a number handed out by the store, and
      a larger id is a newer one. */
  type Instant = int
  type Id = nat
  type ScopeId = string
  type WorkerId = string
  type ModelId = string
  type ExtractorId = string
  type Vector = seq<real>

  const DEFAULT_MAX_ATTEMPTS := 5
  const DEFAULT_LEASE_DURATION := 300
  const MAX_ASSERTIONS := 64
  const MAX_RETRACTIONS := 64
  const MAX_APPEND_BATCH := 64
  const DEFAULT_PURGE_LIMIT := 1000

  // ---- L0 -------------------------------------------------------------------

  /** What a caller recorded: everything about an episode the store does not choose. */
  datatype Body = Body(
    content: string, role: string, actor: string, source: string,
    occurredAt: Instant, binding: map<string, string>)

  datatype NewEpisode = NewEpisode(scope: ScopeId, body: Body, ingestedAt: Instant)

  datatype Episode = Episode(id: Id, scope: ScopeId, seqNo: nat, body: Body, ingestedAt: Instant)

  // ---- Projections ----------------------------------------------------------

  datatype Encoding = Encoding(scope: ScopeId, ingestedAt: Instant, vector: Vector, encodedAt: Instant)

  datatype Marker = Marker(scope: ScopeId, ingestedAt: Instant, factCount: nat, extractedAt: Instant)

  /** A half-open window [from, to); no `to` means still true. */
  datatype Validity = Validity(from: Instant, to: Option<Instant>) {
    predicate IsOpen() { to.None? }

    predicate Contains(t: Instant) {
      if t < from then false else IsOpen() || t < to.value
    }

    predicate Overlaps(other: Validity) {
      if !IsOpen() && !(other.from < to.value) then false
      else if !other.IsOpen() && !(from < other.to.value) then false
      else true
    }

    predicate Valid() { IsOpen() || from < to.value }
  }

  datatype Triple = Triple(subject: string, predicat: string, object: string)

  datatype Fact = Fact(
    scope: ScopeId, extractor: ExtractorId, triple: Triple, statement: string,
    valid: Validity, confidence: real, episodes: set<Id>,
    assertedAt: Instant, updatedAt: Instant)

  datatype Assertion = Assertion(triple: Triple, statement: string, valid: Validity, confidence: real)

  datatype Retraction = Retraction(fact: Id, at: Instant)

  datatype ExtractCommand = ExtractCommand(
    scope: ScopeId, extractor: ExtractorId, episodes: seq<Id>,
    asserts: seq<Assertion>, retracts: seq<Retraction>, at: Instant)
  {
    predicate Valid() {
      && episodes != []
      && |asserts| <= MAX_ASSERTIONS
      && |retracts| <= MAX_RETRACTIONS
      && forall i :: 0 <= i < |asserts| ==> asserts[i].valid.Valid()
    }
  }

  // ---- Queue ----------------------------------------------------------------

  datatype JobKind = Encode | Extract

  datatype JobState = Pending | Running | Done | Dead

  datatype Job = Job(
    kind: JobKind, scope: ScopeId, episodes: seq<Id>, state: JobState,
    attempts: nat, maxAttempts: nat, runAfter: Instant,
    leasedUntil: Option<Instant>, leasedBy: Option<WorkerId>,
    createdAt: Instant, updatedAt: Instant)
  {
    predicate Outstanding() { state.Pending? || state.Running? }

    predicate SameWork(k: JobKind, s: ScopeId, es: seq<Id>) {
      kind == k && scope == s && episodes == es
    }

    predicate HeldBy(w: WorkerId) { state.Running? && leasedBy == Some(w) }
  }

  /** Work to enqueue. An absent `runAfter` means now; a zero `maxAttempts` means the default. */
  datatype NewJob = NewJob(
    kind: JobKind, scope: ScopeId, episodes: seq<Id>, runAfter: Option<Instant>, maxAttempts: nat)

  /** A job an append implies; the store fills in the episodes it mints. */
  datatype JobSpec = JobSpec(kind: JobKind, runAfter: Option<Instant>, maxAttempts: nat)

  datatype AppendCommand = AppendCommand(episodes: seq<NewEpisode>, jobs: seq<JobSpec>) {
    predicate Valid() {
      && episodes != []
      && (forall i :: 0 <= i < |episodes| ==> episodes[i].scope == episodes[0].scope)
      && (forall i, j :: 0 <= i < j < |jobs| ==> jobs[i].kind != jobs[j].kind)
    }
  }

  /** A claim. No kinds means any; a zero limit means one, a zero duration the default. */
  datatype LeaseRequest = LeaseRequest(
    kinds: set<JobKind>, worker: WorkerId, limit: nat, duration: nat, now: Instant)

  /** No states means both finished ones; a zero limit means the default. */
  datatype PurgeRequest = PurgeRequest(states: set<JobState>, before: Instant, limit: nat) {
    predicate Valid() { Pending !in states && Running !in states }
  }
}
