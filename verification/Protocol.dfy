/**
 The submit pipeline as a transition system. Any number of submitOne calls are in flight over one
 Redis store and one pair of tables; every store operation is one step, and between any two steps of
 one call the others may move, time may pass, and calls may die. A step that is not possible in a
 state leaves it unchanged, so every sequence of steps is a run.
 */
module Protocol {
  import opened Prelude
  import opened Uuid
  import opened Dedup
  import opened Canonical
  import Repo

  const TOPIC_JOBS_SUBMITTED := "jobs.submitted"
  const STATUS_APPLIED := 1

  function JobsSubmittedPayload(rec: Repo.Record): Repo.Payload {
    Repo.Marshalled(rec)
  }

  /** The parts of the pipeline that touch no store: the pure prefix of submitOne, and the dedup key. */
  datatype Config = Config(
    ttl: int,
    prepare: (Request, int) -> Result<Event, Rejection>,
    key: (string, string, string) -> string
  )

  function KeyOf(cfg: Config, e: Event): string {
    cfg.key(e.userID, e.company, e.jobTitle)
  }

  datatype SubmitError = Invalid(why: Rejection) | PendingDuplicate | InsertFailed(cause: Repo.RepoError)

  type SubmitResult = Result<string, SubmitError>

  /** Whether a call that went on to insert holds the claim, and since when. */
  datatype Claim = Unclaimed | Won(at: int)

  /** The next operation of a call; one constructor per store operation of submitOne. */
  datatype PC =
    | AtCheck
    | AtClaim
    | AtRecheck
    | AtInsert(claim: Claim)
    | AtSet(claim: Claim, id: Uuid)
    | AtRelease(claim: Claim, cause: Repo.RepoError)
    | Returned(result: SubmitResult)
    | Crashed

  /** One call: its request, when it began, and the event and key computed from it. */
  datatype Call = Call(req: Request, began: int, event: Event, key: string, pc: PC)

  const NO_EVENT := Event("", "", "", "", 0, 0, "")

  /** History kept for the statements only: which call wrote a row, under what claim, and when it was cached. */
  datatype Audit = Audit(writer: nat, key: string, claim: Claim, setAt: Option<int>)

  datatype State = State(
    calls: seq<Call>,
    store: Store,
    tables: Repo.Tables,
    now: int,
    audit: map<Uuid, Audit>
  )

  function Init(now: int): State {
    State([], map[], Repo.EMPTY_TABLES, now, map[])
  }

  datatype Step =
    | Start(req: Request)
    | Tick(elapsed: nat)
    | Crash(c: nat)
    | Redis(c: nat, fault: Fault)
    | Insert(c: nat, id: Uuid, createdAt: int, txFault: Repo.TxFault)

  // ---- the steps ----

  function Move(s: State, c: nat, pc: PC): State
    requires c < |s.calls|
  {
    s.(calls := s.calls[c := s.calls[c].(pc := pc)])
  }

  function Admit(cfg: Config, req: Request, now: int): Call {
    match cfg.prepare(req, now)
    case Ok(e) => Call(req, now, e, KeyOf(cfg, e), AtCheck)
    case Err(why) => Call(req, now, NO_EVENT, KeyOf(cfg, NO_EVENT), Returned(Err(Invalid(why))))
  }

  /** The first look at the cache: a hit is returned, a miss or an error goes on to the claim. */
  function StepCheck(s: State, c: nat, fault: Fault): State
    requires c < |s.calls|
  {
    var hit := CheckHit(s.store, s.calls[c].key, s.now);
    Move(s, c, if fault.Done? && hit.Some? then Returned(Ok(hit.value)) else AtClaim)
  }

  /** The claim: won, the call inserts; lost, it looks again; on an error it inserts without a claim. */
  function StepClaim(s: State, c: nat, fault: Fault): State
    requires c < |s.calls|
  {
    var key := s.calls[c].key;
    var free := Get(s.store, key, s.now).None?;
    var store := if Applied(fault) then SetNX(s.store, key, PENDING_SENTINEL, PENDING_TTL, s.now) else s.store;
    var pc := if fault.Failed? then AtInsert(Unclaimed) else if free then AtInsert(Won(s.now)) else AtRecheck;
    Move(s.(store := store), c, pc)
  }

  /** The second look, after a lost claim: an id if one has been cached since, else a pending duplicate. */
  function StepRecheck(s: State, c: nat, fault: Fault): State
    requires c < |s.calls|
  {
    var hit := CheckHit(s.store, s.calls[c].key, s.now);
    Move(s, c, Returned(if fault.Done? && hit.Some? then Ok(hit.value) else Err(PendingDuplicate)))
  }

  function Params(e: Event): Repo.InsertParams {
    Repo.InsertParams(e.userID, e.jobTitle, e.company, e.url, e.source, STATUS_APPLIED, e.appliedAt, e.schemaVersion)
  }

  function StepInsert(s: State, c: nat, id: Uuid, createdAt: int, fault: Repo.TxFault): State
    requires c < |s.calls| && s.calls[c].pc.AtInsert?
  {
    var call := s.calls[c];
    var (tables, r) := Repo.InsertTx(s.tables, Params(call.event), TOPIC_JOBS_SUBMITTED, JobsSubmittedPayload, id, createdAt, fault);
    var pc := if r.Ok? then AtSet(call.pc.claim, id) else AtRelease(call.pc.claim, r.error);
    var audit := if id in tables.applications && id !in s.tables.applications
                 then s.audit[id := Audit(c, call.key, call.pc.claim, None)] else s.audit;
    Move(s.(tables := tables, audit := audit), c, pc)
  }

  /** The id is cached and returned; whether caching worked is ignored. */
  function StepSet(cfg: Config, s: State, c: nat, fault: Fault): State
    requires c < |s.calls| && s.calls[c].pc.AtSet?
  {
    var key, id := s.calls[c].key, s.calls[c].pc.id;
    var s' := if Applied(fault)
              then s.(store := Set(s.store, key, UuidToString(id), cfg.ttl, s.now),
                      audit := if id in s.audit then s.audit[id := s.audit[id].(setAt := Some(s.now))] else s.audit)
              else s;
    Move(s', c, Returned(Ok(UuidToString(id))))
  }

  /** The key is deleted, whoever holds it now, and the insert's error is returned. */
  function StepRelease(s: State, c: nat, fault: Fault): State
    requires c < |s.calls| && s.calls[c].pc.AtRelease?
  {
    var store := if Applied(fault) then Del(s.store, s.calls[c].key) else s.store;
    Move(s.(store := store), c, Returned(Err(InsertFailed(s.calls[c].pc.cause))))
  }

  function StepRedis(cfg: Config, s: State, c: nat, fault: Fault): State
    requires c < |s.calls|
  {
    match s.calls[c].pc
    case AtCheck => StepCheck(s, c, fault)
    case AtClaim => StepClaim(s, c, fault)
    case AtRecheck => StepRecheck(s, c, fault)
    case AtSet(_, _) => StepSet(cfg, s, c, fault)
    case AtRelease(_, _) => StepRelease(s, c, fault)
    case _ => s
  }

  predicate InFlight(pc: PC) {
    !pc.Returned? && !pc.Crashed?
  }

  function Next(cfg: Config, s: State, step: Step): State {
    match step
    case Start(req) => s.(calls := s.calls + [Admit(cfg, req, s.now)])
    case Tick(elapsed) => s.(now := s.now + elapsed)
    case Crash(c) => if c < |s.calls| && InFlight(s.calls[c].pc) then Move(s, c, Crashed) else s
    case Redis(c, fault) => if c < |s.calls| then StepRedis(cfg, s, c, fault) else s
    case Insert(c, id, createdAt, fault) =>
      if c < |s.calls| && s.calls[c].pc.AtInsert? then StepInsert(s, c, id, createdAt, fault) else s
  }

  function Run(cfg: Config, s: State, steps: seq<Step>): State {
    if steps == [] then s
    else Next(cfg, Run(cfg, s, steps[..|steps| - 1]), steps[|steps| - 1])
  }

  lemma {:induction false} RunAppend(cfg: Config, s: State, a: seq<Step>, b: seq<Step>)
    ensures Run(cfg, s, a + b) == Run(cfg, Run(cfg, s, a), b)
  {
    if b == [] {
      assert a + b == a;
    } else {
      assert (a + b)[..|a + b| - 1] == a + b[..|b| - 1];
      RunAppend(cfg, s, a, b[..|b| - 1]);
    }
  }

  /** A run given state by state. */
  lemma {:induction false} RunThrough(cfg: Config, s: State, steps: seq<Step>, states: seq<State>)
    requires |states| == |steps| + 1 && states[0] == s
    requires forall i :: 0 <= i < |steps| ==> states[i + 1] == Next(cfg, states[i], steps[i])
    ensures Run(cfg, s, steps) == states[|steps|]
  {
    hide Next;
    if steps != [] {
      RunThrough(cfg, s, steps[..|steps| - 1], states[..|steps|]);
    }
  }

  /** The state before each step of such a run. */
  lemma RunPrefixes(cfg: Config, s: State, steps: seq<Step>, states: seq<State>)
    requires |states| == |steps| + 1 && states[0] == s
    requires forall i :: 0 <= i < |steps| ==> states[i + 1] == Next(cfg, states[i], steps[i])
    ensures forall i :: 0 <= i <= |steps| ==> Run(cfg, s, steps[..i]) == states[i]
  {
    hide Next, Run;
    forall i | 0 <= i <= |steps|
      ensures Run(cfg, s, steps[..i]) == states[i]
    {
      RunThrough(cfg, s, steps[..i], states[..i + 1]);
    }
  }

  lemma {:induction false} TimeAdvances(cfg: Config, s: State, a: seq<Step>, b: seq<Step>)
    ensures Run(cfg, s, a).now <= Run(cfg, s, a + b).now
  {
    hide UuidToString, Repo.InsertTx;
    if b == [] {
      assert a + b == a;
    } else {
      assert (a + b)[..|a + b| - 1] == a + b[..|b| - 1];
      TimeAdvances(cfg, s, a, b[..|b| - 1]);
    }
  }

  // ---- every call ends by itself ----

  /** Upper bound on the store operations a call still makes. */
  function Remaining(pc: PC): nat {
    match pc
    case AtCheck => 4
    case AtClaim => 3
    case AtRecheck => 1
    case AtInsert(_) => 2
    case AtSet(_, _) => 1
    case AtRelease(_, _) => 1
    case Returned(_) => 0
    case Crashed => 0
  }

  function OpOf(step: Step): Option<nat> {
    match step
    case Redis(c, _) => Some(c)
    case Insert(c, _, _, _) => Some(c)
    case _ => None
  }

  /** The step that is the next operation of call `c`. */
  predicate IsNextOp(s: State, c: nat, step: Step) {
    && c < |s.calls|
    && InFlight(s.calls[c].pc)
    && OpOf(step) == Some(c)
    && (s.calls[c].pc.AtInsert? <==> step.Insert?)
  }

  /** Each operation brings its own call nearer its end and moves no other call: at most four operations in all. */
  lemma {:induction false} OperationsRunOut(cfg: Config, s: State, c: nat, step: Step, d: nat)
    requires IsNextOp(s, c, step) && d < |s.calls|
    ensures var s' := Next(cfg, s, step);
            && |s'.calls| == |s.calls|
            && Remaining(s'.calls[c].pc) < Remaining(s.calls[c].pc)
            && (Remaining(s'.calls[c].pc) == 0 <==> !InFlight(s'.calls[c].pc))
            && (d != c ==> s'.calls[d] == s.calls[d])
  {
  }
}
