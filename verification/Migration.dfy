/** Migrating: one call under the advisory lock, and any number of calls of any number of
    builds interleaved, stopping anywhere. A build is the checksums of its migrations;
    their versions are contiguous from one. */
module Migration {
  import opened Model

  type Checksum = string
  type Build = seq<Checksum>
  type Ledger = map<int, Checksum>

  // ---- History --------------------------------------------------------------

  datatype Fault = DatabaseAhead(version: int) | ChecksumMismatch(version: int)

  /** Every recorded migration is one the build embeds, unedited. */
  predicate Agrees(ledger: Ledger, build: Build) {
    forall v :: v in ledger ==> 1 <= v <= |build| && ledger[v] == build[v - 1]
  }

  predicate Unknown(ledger: Ledger, build: Build, v: int) { v in ledger && !(1 <= v <= |build|) }

  predicate Edited(ledger: Ledger, build: Build, v: int) { 1 <= v <= |build| && v in ledger && ledger[v] != build[v - 1] }

  lemma HasMember(vs: set<int>)
    ensures vs == {} || exists v :: v in vs
  {
    if forall v :: v !in vs { assert vs == {}; }
  }

  lemma {:induction false} LeastVersion(vs: set<int>) returns (least: int)
    requires vs != {}
    ensures least in vs && forall v :: v in vs ==> least <= v
  {
    HasMember(vs);
    var first :| first in vs;
    least := first;
    if vs != {first} {
      var rest := LeastVersion(vs - {first});
      least := if first < rest then first else rest;
      forall v | v in vs ensures least <= v { assert v == first || v in vs - {first}; }
    }
  }

  /** A database with several problems always reports the same one: the lowest version the
      build does not know, else the lowest one that was edited. */
  method CheckHistory(build: Build, applied: Ledger) returns (fault: Option<Fault>)
    ensures fault == None <==> Agrees(applied, build)
    ensures fault.Some? && fault.value.DatabaseAhead? ==>
      Unknown(applied, build, fault.value.version) && forall v :: Unknown(applied, build, v) ==> fault.value.version <= v
    ensures fault.Some? && fault.value.ChecksumMismatch? ==>
      && Edited(applied, build, fault.value.version) && (forall v :: Edited(applied, build, v) ==> fault.value.version <= v)
      && forall v :: !Unknown(applied, build, v)
  {
    var left := applied.Keys;
    while left != {}
      invariant left <= applied.Keys
      invariant forall v, w :: v in applied && v !in left && w in left ==> v < w
      invariant forall v :: v in applied && v !in left ==> !Unknown(applied, build, v)
      decreases left
    {
      ghost var least := LeastVersion(left);
      var v :| v in left && forall w :: w in left ==> v <= w;
      if !(1 <= v <= |build|) { return Some(DatabaseAhead(v)); }
      left := left - {v};
    }
    for i := 0 to |build|
      invariant forall v :: Edited(applied, build, v) ==> v > i
    {
      if i + 1 in applied && applied[i + 1] != build[i] { return Some(ChecksumMismatch(i + 1)); }
    }
    forall v | v in applied ensures 1 <= v <= |build| && applied[v] == build[v - 1] {
      assert !Unknown(applied, build, v) && !Edited(applied, build, v);
    }
    return None;
  }

  // ---- One call, undisturbed --------------------------------------------------

  /** The ledger records versions 1..k, and they ran once each, in that order. */
  ghost predicate Chain(ledger: Ledger, ran: seq<int>) {
    && (forall i :: 0 <= i < |ran| ==> ran[i] == i + 1)
    && (forall v :: v in ledger <==> 1 <= v <= |ran|)
  }

  /** The versions from..to, in order. */
  function Versions(from: int, to: int): (vs: seq<int>)
    requires from <= to + 1
    ensures |vs| == to + 1 - from && forall i :: 0 <= i < |vs| ==> vs[i] == from + i
  {
    seq(to + 1 - from, i requires 0 <= i < to + 1 - from => from + i)
  }

  class Database {
    var ledger: Ledger
    var ran: seq<int>

    /** Brings the ledger up to the build, one transaction a migration. `fails` says whose
        transaction rolls back; the ones before it stand. `configured` says whether the schema
        then passes the check of its configuration: failing that is an error too, with
        everything applied. */
    method Migrate(build: Build, fails: int -> bool, configured: bool) returns (fault: Option<Fault>, applied: seq<int>, ok: bool)
      requires Chain(ledger, ran)
      modifies this
      ensures Chain(ledger, ran) && old(ran) <= ran && (forall v :: v in old(ledger) ==> v in ledger && ledger[v] == old(ledger)[v])
      ensures fault == None <==> Agrees(old(ledger), build)
      ensures fault.Some? ==> !ok && unchanged(this)
      ensures fault == None ==> Agrees(ledger, build) && applied == Versions(|old(ran)| + 1, |ran|)
      ensures ok <==> fault == None && |ran| == |build| && configured
      ensures fault == None && |ran| == |build| ==> Complete(ledger, build)
      ensures fault == None && |ran| != |build| ==> |ran| < |build| && fails(|ran| + 1)
    {
      applied, ok := [], false;
      ghost var before, k := ledger, |ran|;
      var snapshot := ledger;
      fault := CheckHistory(build, snapshot);
      if fault.Some? { return; }
      ChainFits(ledger, ran, build);
      for i := 0 to |build|
        invariant Chain(ledger, ran) && Agrees(ledger, build) && old(ran) <= ran
        invariant |ran| == if i < k then k else i
        invariant forall v :: v in before ==> v in ledger && ledger[v] == before[v]
        invariant applied == Versions(k + 1, |ran|)
      {
        if i + 1 in snapshot { continue; }
        if fails(i + 1) { return; }
        ledger, ran := ledger[i + 1 := build[i]], ran + [i + 1];
        applied := applied + [i + 1];
      }
      ok := configured;
    }
  }

  lemma ChainFits(ledger: Ledger, ran: seq<int>, build: Build)
    requires Chain(ledger, ran) && Agrees(ledger, build)
    ensures |ran| <= |build|
  {
    if |ran| > 0 { assert |ran| in ledger; }
  }

  /** The check alone does not make the ledger a prefix: a ledger with a gap passes it, so
      that it is one rests on every migration having been recorded by this protocol. */
  lemma GapPasses(build: Build)
    requires |build| >= 2
    ensures var ledger: Ledger := map[2 := build[1]]; Agrees(ledger, build) && forall ran :: !Chain(ledger, ran)
  {
    var ledger: Ledger := map[2 := build[1]];
    forall ran ensures !Chain(ledger, ran) { assert 1 !in ledger && 2 in ledger; }
  }

  // ---- Waiting for the lock ---------------------------------------------------

  const LOCK_POLL_INTERVAL := 50     // milliseconds
  const LOCK_POLL_MAX := 500

  function Backoff(n: nat): (ms: nat)
    ensures LOCK_POLL_INTERVAL <= ms <= LOCK_POLL_MAX
    ensures n > 0 ==> Backoff(n - 1) <= ms
  {
    if n == 0 then LOCK_POLL_INTERVAL
    else if 2 * Backoff(n - 1) < LOCK_POLL_MAX then 2 * Backoff(n - 1) else LOCK_POLL_MAX
  }

  /** How long the first n waits take together. */
  function Waited(n: nat): nat { if n == 0 then 0 else Waited(n - 1) + Backoff(n - 1) }

  /** The first wait is fifty milliseconds, and each after it twice the one before, up to half a second. */
  lemma NextWait(n: nat)
    ensures Waited(n + 1) == Waited(n) + Backoff(n) && Waited(0) == 0 && Backoff(0) == 50
    ensures Backoff(n + 1) == if 2 * Backoff(n) < 500 then 2 * Backoff(n) else 500
  {}

  predicate NeverBefore(got: nat -> bool, n: nat) { forall i: nat :: i < n ==> !got(i) }

  /** Polls until the lock is got, or until one more wait would reach the deadline. `got` says
      how each try turns out, and time passes only in the waits. */
  method AcquireLock(got: nat -> bool, timeout: nat) returns (ok: bool, tries: nat)
    ensures tries >= 1 && NeverBefore(got, tries - 1) && (ok <==> got(tries - 1))
    ensures Waited(tries - 1) < timeout || tries == 1
    ensures !ok ==> Waited(tries) >= timeout
  {
    var backoff, waited, waits := LOCK_POLL_INTERVAL, 0, 0;
    hide Backoff, Waited;
    NextWait(0);
    while !got(waits)
      invariant backoff == Backoff(waits) >= LOCK_POLL_INTERVAL && waited == Waited(waits)
      invariant NeverBefore(got, waits)
      invariant waited < timeout || waits == 0
      decreases timeout - waited
    {
      NextWait(waits);
      if waited + backoff >= timeout { return false, waits + 1; }
      waited, waits := waited + backoff, waits + 1;
      if backoff < LOCK_POLL_MAX {
        backoff := if backoff * 2 < LOCK_POLL_MAX then backoff * 2 else LOCK_POLL_MAX;
      }
    }
    return true, waits + 1;
  }

  // ---- Many calls -------------------------------------------------------------

  /** Where one call is. The lock belongs to its connection, which outlives a dead process
      until the server notices. */
  datatype Phase =
    | Waiting
    | Locked
    | Walking(applied: Ledger, i: nat)     // the snapshot it read, and the next migration to look at
    | InTx(applied: Ledger, i: nat)        // the migration's transaction is open
    | Finishing(ok: bool)
    | Returned(ok: bool)
    | Abandoned

  datatype Call = Call(build: Build, phase: Phase)

  datatype Sys = Sys(ledger: Ledger, ran: seq<int>, lock: Option<nat>, calls: map<nat, Call>)

  datatype Action =
    | Begin(c: nat, build: Build)
    | TryLock(c: nat)
    | GiveUp(c: nat)
    | Check(c: nat)
    | Advance(c: nat)
    | Commit(c: nat)
    | Roll(c: nat)
    | Conclude(c: nat, ok: bool)     // the configuration check, or any other error while walking
    | Unlock(c: nat)
    | Die(c: nat)
    | Reap(c: nat)

  /** Where an action takes a call that is not committing. */
  function PhaseAfter(ledger: Ledger, lock: Option<nat>, call: Call, a: Action): Phase {
    var (build, phase) := (call.build, call.phase);
    match a
    case TryLock(_) => if phase.Waiting? && lock.None? then Locked else phase
    case GiveUp(_) => if phase.Waiting? then Returned(false) else phase
    case Check(_) =>
      if !phase.Locked? then phase else if Agrees(ledger, build) then Walking(ledger, 0) else Finishing(false)
    case Advance(_) =>
      if !phase.Walking? || phase.i >= |build| then phase
      else if phase.i + 1 in phase.applied then Walking(phase.applied, phase.i + 1)
      else InTx(phase.applied, phase.i)
    case Commit(_) => if phase.InTx? then Finishing(false) else phase     // the version is the ledger's key
    case Roll(_) => if phase.InTx? then Finishing(false) else phase
    case Conclude(_, ok) => if phase.Walking? && (ok ==> phase.i == |build|) then Finishing(ok) else phase
    case Unlock(_) => if phase.Finishing? then Returned(phase.ok) else phase
    case Die(_) => if phase.Returned? then phase else Abandoned
    case _ => phase
  }

  function LockAfter(lock: Option<nat>, phase: Phase, a: Action): Option<nat> {
    if a.TryLock? && phase.Waiting? && lock.None? then Some(a.c)
    else if a.Unlock? && phase.Finishing? then None
    else lock
  }

  predicate Commits(sys: Sys, a: Action) {
    && a.Commit? && a.c in sys.calls && sys.calls[a.c].phase.InTx?
    && sys.calls[a.c].phase.i < |sys.calls[a.c].build| && sys.calls[a.c].phase.i + 1 !in sys.ledger
  }

  function Next(sys: Sys, a: Action): Sys {
    if a.c !in sys.calls then
      if a.Begin? then sys.(calls := sys.calls[a.c := Call(a.build, Waiting)]) else sys
    else
      var call := sys.calls[a.c];
      if a.Reap? && call.phase.Abandoned? then
        sys.(lock := if sys.lock == Some(a.c) then None else sys.lock, calls := sys.calls - {a.c})
      else if Commits(sys, a) then
        var i := call.phase.i;
        sys.(ledger := sys.ledger[i + 1 := call.build[i]], ran := sys.ran + [i + 1],
             calls := sys.calls[a.c := call.(phase := Walking(call.phase.applied, i + 1))])
      else
        sys.(lock := LockAfter(sys.lock, call.phase, a),
             calls := sys.calls[a.c := call.(phase := PhaseAfter(sys.ledger, sys.lock, call, a))])
  }

  function Run(sys: Sys, actions: seq<Action>): Sys
    decreases |actions|
  {
    if actions == [] then sys else Run(Next(sys, actions[0]), actions[1..])
  }

  predicate Inside(phase: Phase) { phase.Locked? || phase.Walking? || phase.InTx? || phase.Finishing? }

  /** The ledger holds the whole of the build. */
  ghost predicate Complete(ledger: Ledger, build: Build) {
    forall v :: 1 <= v <= |build| ==> v in ledger && ledger[v] == build[v - 1]
  }

  /** What a call inside the lock may rely on. Once it has applied anything it walks at the
      head of the ledger; until then its snapshot is the ledger. */
  ghost predicate CallOk(sys: Sys, call: Call) {
    match call.phase
    case Walking(applied, i) =>
      && Agrees(sys.ledger, call.build) && i <= |call.build|
      && applied.Keys <= sys.ledger.Keys && (i == |sys.ran| || (i < |sys.ran| && applied == sys.ledger))
    case InTx(applied, i) =>
      Agrees(sys.ledger, call.build) && i == |sys.ran| < |call.build| && applied.Keys <= sys.ledger.Keys
    case Finishing(ok) => ok ==> Complete(sys.ledger, call.build)
    case Returned(ok) => ok ==> Complete(sys.ledger, call.build)
    case _ => true
  }

  ghost predicate Inv(sys: Sys) {
    && Chain(sys.ledger, sys.ran)
    && (forall c :: c in sys.calls && Inside(sys.calls[c].phase) ==> sys.lock == Some(c))
    && (forall c :: c in sys.calls ==> CallOk(sys, sys.calls[c]))
  }

  /** Rows of the ledger are only ever added at its end. */
  ghost predicate Extends(sys: Sys, sys': Sys) {
    sys.ran <= sys'.ran && forall v :: v in sys.ledger ==> v in sys'.ledger && sys'.ledger[v] == sys.ledger[v]
  }

  /** The lock keeps every other call out while one is inside. */
  lemma Alone(sys: Sys, c: nat, d: nat)
    requires Inv(sys) && c in sys.calls && d in sys.calls && c != d && Inside(sys.calls[c].phase)
    ensures !Inside(sys.calls[d].phase)
  {}

  lemma CommitKeeps(sys: Sys, a: Action)
    requires Inv(sys) && Commits(sys, a)
    ensures Inv(Next(sys, a)) && Extends(sys, Next(sys, a))
  {
    var sys' := Next(sys, a);
    assert CallOk(sys, sys.calls[a.c]);
    assert CallOk(sys', sys'.calls[a.c]);
    forall d | d in sys'.calls && d != a.c ensures CallOk(sys', sys'.calls[d]) {
      Alone(sys, a.c, d);
      assert CallOk(sys, sys.calls[d]);
    }
  }

  /** Moving one call on, and the lock with it, with the tables as they are. */
  lemma MoveKeeps(sys: Sys, c: nat, phase: Phase, lock: Option<nat>)
    requires Inv(sys) && c in sys.calls && CallOk(sys, sys.calls[c].(phase := phase))
    requires Inside(phase) ==> lock == Some(c)
    requires lock == sys.lock || (sys.lock.None? && lock == Some(c)) || (sys.lock == Some(c) && lock.None?)
    ensures Inv(sys.(lock := lock, calls := sys.calls[c := sys.calls[c].(phase := phase)]))
  {
    var sys' := sys.(lock := lock, calls := sys.calls[c := sys.calls[c].(phase := phase)]);
    forall d | d in sys'.calls ensures CallOk(sys', sys'.calls[d]) {
      assert CallOk(sys, if d == c then sys'.calls[c] else sys.calls[d]);
    }
  }

  /** Wherever an action takes a call, it keeps what the call relies on. */
  lemma PhaseOk(sys: Sys, a: Action)
    requires Inv(sys) && a.c in sys.calls && !Commits(sys, a)
    ensures var call := sys.calls[a.c];
      var phase := PhaseAfter(sys.ledger, sys.lock, call, a);
      CallOk(sys, call.(phase := phase)) && (Inside(phase) ==> LockAfter(sys.lock, call.phase, a) == Some(a.c))
  {
    var call := sys.calls[a.c];
    assert CallOk(sys, call) && (Inside(call.phase) ==> sys.lock == Some(a.c));
    if call.phase.Walking? { ChainFits(sys.ledger, sys.ran, call.build); }
  }

  lemma ReapKeeps(sys: Sys, c: nat)
    requires Inv(sys) && c in sys.calls && sys.calls[c].phase.Abandoned?
    ensures Inv(Next(sys, Reap(c)))
  {
    var sys' := Next(sys, Reap(c));
    forall d | d in sys'.calls ensures CallOk(sys', sys'.calls[d]) { assert CallOk(sys, sys.calls[d]); }
  }

  lemma BeginKeeps(sys: Sys, c: nat, build: Build)
    requires Inv(sys) && c !in sys.calls
    ensures Inv(Next(sys, Begin(c, build)))
  {
    var sys' := Next(sys, Begin(c, build));
    forall d | d in sys'.calls ensures CallOk(sys', sys'.calls[d]) { if d in sys.calls { assert CallOk(sys, sys.calls[d]); } }
  }

  lemma Step(sys: Sys, a: Action)
    requires Inv(sys)
    ensures Inv(Next(sys, a)) && Extends(sys, Next(sys, a))
  {
    if a.c !in sys.calls {
      if a.Begin? { BeginKeeps(sys, a.c, a.build); }
    } else if Commits(sys, a) {
      CommitKeeps(sys, a);
    } else if a.Reap? && sys.calls[a.c].phase.Abandoned? {
      ReapKeeps(sys, a.c);
    } else {
      var call := sys.calls[a.c];
      PhaseOk(sys, a);
      assert a.Unlock? && call.phase.Finishing? ==> sys.lock == Some(a.c);
      hide Inv, CallOk, PhaseAfter;
      MoveKeeps(sys, a.c, PhaseAfter(sys.ledger, sys.lock, call, a), LockAfter(sys.lock, call.phase, a));
    }
  }

  /** However calls interleave, and wherever they die, the ledger stays versions 1..k, each run
      once and in order, rows never change, and every call that returned no error left its
      build's migrations there for good. */
  lemma {:induction false} MigrationsSafe(sys: Sys, actions: seq<Action>)
    requires Inv(sys)
    ensures Inv(Run(sys, actions)) && Extends(sys, Run(sys, actions))
    ensures forall c :: c in Run(sys, actions).calls && Run(sys, actions).calls[c].phase == Returned(true) ==>
      Complete(Run(sys, actions).ledger, Run(sys, actions).calls[c].build)
    decreases |actions|
  {
    if actions == [] {
      forall c | c in sys.calls && sys.calls[c].phase == Returned(true) ensures Complete(sys.ledger, sys.calls[c].build) {
        assert CallOk(sys, sys.calls[c]);
      }
    } else {
      Step(sys, actions[0]);
      MigrationsSafe(Next(sys, actions[0]), actions[1..]);
    }
  }

  // ---- One build --------------------------------------------------------------

  ghost predicate OnlyBuild(sys: Sys, build: Build) {
    Agrees(sys.ledger, build) && forall c :: c in sys.calls ==> sys.calls[c].build == build
  }

  lemma OnlyBuildStep(sys: Sys, a: Action, build: Build)
    requires OnlyBuild(sys, build) && (a.Begin? ==> a.build == build)
    ensures OnlyBuild(Next(sys, a), build)
  {}

  /** With one build, no call is refused for disagreeing with the database, and one that has
      returned without error means the whole build has run. */
  lemma OnlyBuildMeans(sys: Sys, build: Build, c: nat)
    requires Inv(sys) && OnlyBuild(sys, build)
    ensures |sys.ran| <= |build|
    ensures c in sys.calls && sys.calls[c].phase == Returned(true) ==> |sys.ran| == |build|
    ensures c in sys.calls && sys.calls[c].phase.Locked? ==> Next(sys, Check(c)).calls[c].phase == Walking(sys.ledger, 0)
  {
    ChainFits(sys.ledger, sys.ran, build);
    if c in sys.calls && sys.calls[c].phase == Returned(true) {
      assert CallOk(sys, sys.calls[c]);
      if |build| > 0 { assert |build| in sys.ledger; }
    }
  }

  /** So the ledger is always a prefix of that build, checksums and all. */
  lemma {:induction false} LedgerIsPrefix(sys: Sys, actions: seq<Action>, build: Build, c: nat)
    requires Inv(sys) && OnlyBuild(sys, build)
    requires forall i :: 0 <= i < |actions| && actions[i].Begin? ==> actions[i].build == build
    ensures var sys' := Run(sys, actions);
      && Chain(sys'.ledger, sys'.ran) && Agrees(sys'.ledger, build) && |sys'.ran| <= |build|
      && (c in sys'.calls && sys'.calls[c].phase == Returned(true) ==> |sys'.ran| == |build|)
      && (c in sys'.calls && sys'.calls[c].phase.Locked? ==> Next(sys', Check(c)).calls[c].phase == Walking(sys'.ledger, 0))
    decreases |actions|
  {
    if actions == [] {
      OnlyBuildMeans(sys, build, c);
    } else {
      hide Next, OnlyBuild;
      Step(sys, actions[0]);
      OnlyBuildStep(sys, actions[0], build);
      LedgerIsPrefix(Next(sys, actions[0]), actions[1..], build, c);
    }
  }

  lemma EmptyDatabase(build: Build)
    ensures Inv(Sys(map[], [], None, map[])) && OnlyBuild(Sys(map[], [], None, map[]), build)
  {}

  // ---- A call gets through ------------------------------------------------------

  /** An abandoned call's lock comes free when the server notices, and a finished one's when it is let go. */
  lemma LockComesFree(sys: Sys, c: nat)
    requires Inv(sys) && c in sys.calls && sys.lock == Some(c)
    ensures sys.calls[c].phase.Abandoned? ==> Next(sys, Reap(c)).lock == None && c !in Next(sys, Reap(c)).calls
    ensures sys.calls[c].phase.Finishing? ==> Next(sys, Unlock(c)).lock == None && Next(sys, Unlock(c)).calls[c].phase == Returned(sys.calls[c].phase.ok)
  {
    hide Inv;
  }

  lemma {:induction false} RunJoins(sys: Sys, xs: seq<Action>, ys: seq<Action>)
    ensures Run(sys, xs + ys) == Run(Run(sys, xs), ys)
    decreases |xs|
  {
    hide Next;
    if xs == [] {
      assert xs + ys == ys;
    } else {
      assert (xs + ys)[1..] == xs[1..] + ys;
      RunJoins(Next(sys, xs[0]), xs[1..], ys);
    }
  }

  lemma RunTwo(sys: Sys, a: Action, b: Action)
    ensures Run(sys, [a, b]) == Next(Next(sys, a), b) && Run(sys, [a]) == Next(sys, a)
  {
    hide Next;
    assert [a, b][1..] == [b] && [b][1..] == [] && [a][1..] == [];
    assert Run(Next(sys, a), [b]) == Next(Next(sys, a), b);
  }

  ghost predicate WalkingAt(sys: Sys, c: nat, build: Build, i: nat) {
    && Inv(sys) && c in sys.calls && sys.calls[c].build == build && sys.lock == Some(c)
    && sys.calls[c].phase.Walking? && sys.calls[c].phase.i == i <= |build|
  }

  /** One migration on: noted as applied, or applied. */
  lemma WalksOne(sys: Sys, c: nat, build: Build, i: nat) returns (actions: seq<Action>)
    requires WalkingAt(sys, c, build, i) && i < |build|
    ensures WalkingAt(Run(sys, actions), c, build, i + 1)
  {
    var a := Next(sys, Advance(c));
    Step(sys, Advance(c));
    if i + 1 in sys.calls[c].phase.applied {
      actions := [Advance(c)];
      RunTwo(sys, Advance(c), Advance(c));
    } else {
      actions := [Advance(c), Commit(c)];
      assert CallOk(a, a.calls[c]) && i + 1 !in a.ledger;
      Step(a, Commit(c));
      RunTwo(sys, Advance(c), Commit(c));
    }
  }

  lemma {:induction false} WalksOn(sys: Sys, c: nat, build: Build, i: nat) returns (actions: seq<Action>)
    requires WalkingAt(sys, c, build, i) && i <= |build|
    ensures WalkingAt(Run(sys, actions), c, build, |build|)
    decreases |build| - i
  {
    hide WalkingAt;
    actions := [];
    if i < |build| {
      var first := WalksOne(sys, c, build, i);
      var rest := WalksOn(Run(sys, first), c, build, i + 1);
      RunJoins(sys, first, rest);
      actions := first + rest;
    }
  }

  lemma BeginsWalking(sys: Sys, c: nat)
    requires Inv(sys) && c in sys.calls && sys.calls[c].phase.Waiting? && sys.lock.None? && Agrees(sys.ledger, sys.calls[c].build)
    ensures WalkingAt(Run(sys, [TryLock(c), Check(c)]), c, sys.calls[c].build, 0)
  {
    Step(sys, TryLock(c));
    Step(Next(sys, TryLock(c)), Check(c));
    RunTwo(sys, TryLock(c), Check(c));
    hide Inv;
  }

  lemma EndsWalking(sys: Sys, c: nat, build: Build)
    requires WalkingAt(sys, c, build, |build|)
    ensures var sys' := Run(sys, [Conclude(c, true), Unlock(c)]);
      c in sys'.calls && sys'.calls[c] == Call(build, Returned(true)) && sys'.lock.None? && Complete(sys'.ledger, build)
  {
    var a := Next(sys, Conclude(c, true));
    RunTwo(sys, Conclude(c, true), Unlock(c));
    Step(sys, Conclude(c, true));
    Step(a, Unlock(c));
    var done := Next(a, Unlock(c));
    assert CallOk(done, done.calls[c]);
  }

  /** Wherever others have left it, a call that waits for a free lock on a database its build agrees
      with can go through to the end: it returns without error, with the whole build in the
      ledger and the lock free again. */
  lemma CallCompletes(sys: Sys, c: nat) returns (actions: seq<Action>)
    requires Inv(sys) && c in sys.calls && sys.calls[c].phase.Waiting? && sys.lock.None? && Agrees(sys.ledger, sys.calls[c].build)
    ensures var sys' := Run(sys, actions);
      c in sys'.calls && sys'.calls[c] == Call(sys.calls[c].build, Returned(true)) && sys'.lock.None? && Complete(sys'.ledger, sys.calls[c].build)
  {
    hide Inv, Run, Next, WalkingAt, Complete, Agrees;
    var build := sys.calls[c].build;
    var (first, last) := ([TryLock(c), Check(c)], [Conclude(c, true), Unlock(c)]);
    BeginsWalking(sys, c);
    var walk := WalksOn(Run(sys, first), c, build, 0);
    RunJoins(sys, first, walk);
    EndsWalking(Run(sys, first + walk), c, build);
    RunJoins(sys, first + walk, last);
    actions := first + walk + last;
  }
}
