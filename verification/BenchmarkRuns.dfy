/** The life of benchmark runs: the state machine with its audit trail, and the
    limit on concurrent runs when requests interleave. Each database
    transaction is one atomic step. */
module BenchmarkRuns {
  import opened Wrappers

  const MAX_CONCURRENT_RUNS: nat := 3

  // Other stands for any string that is not a known status.
  datatype Status =
    | Queued | Building | Deploying | Running | Collecting | Scoring
    | Complete
    | BuildFailed | BuildTimeout | SandboxCrash | NetworkSetupFailed | NoEndpoints
    | ProvisioningTimeout | InsufficientCapacity | CollectionTimeout | Failed
    | Other(name: string)

  predicate IsTerminal(s: Status) {
    || s.Complete? || s.BuildFailed? || s.BuildTimeout? || s.SandboxCrash? || s.NetworkSetupFailed?
    || s.NoEndpoints? || s.ProvisioningTimeout? || s.InsufficientCapacity? || s.CollectionTimeout? || s.Failed?
  }

  function AllowedFrom(s: Status): set<Status> {
    match s
    case Queued => {Building, Failed, BuildFailed}
    case Building => {Deploying, BuildFailed, BuildTimeout, Failed}
    case Deploying => {Running, SandboxCrash, NetworkSetupFailed, NoEndpoints, Failed}
    case Running => {Collecting, SandboxCrash, InsufficientCapacity, Failed}
    case Collecting => {Scoring, CollectionTimeout, Failed}
    case Scoring => {Complete, Failed}
    case _ => {}
  }

  // How far along a status is. Every allowed transition goes up.
  function Rank(s: Status): nat {
    match s
    case Queued => 0
    case Building => 1
    case Deploying => 2
    case Running => 3
    case Collecting => 4
    case Scoring => 5
    case _ => 6
  }

  type RunId = nat
  type ContestantId = string

  datatype Request = Request(contestant: ContestantId, submission: string, botCount: int)

  datatype Run = Run(contestant: ContestantId, submission: string, status: Status, botCount: int)

  // No prior state for the first row of a run.
  datatype AuditRow = AuditRow(runId: RunId, prior: Option<Status>, next: Status, actor: string, reason: string)

  datatype Db = Db(runs: map<RunId, Run>, audit: seq<AuditRow>)

  datatype Error = NotFound | AlreadyTerminal | InvalidTransition | ResourceExhausted

  // ------------------------------------------------------------- transactions

  function NonTerminalRuns(runs: map<RunId, Run>, contestant: ContestantId): set<RunId> {
    set id | id in runs && runs[id].contestant == contestant && !IsTerminal(runs[id].status)
  }

  // A queued run as requested; a thousand bots unless the request says how many.
  ghost predicate Fresh(run: Run, req: Request) {
    && run.contestant == req.contestant && run.submission == req.submission && run.status == Queued
    && (req.botCount == 0 ==> run.botCount == 1000)
    && (req.botCount != 0 ==> run.botCount == req.botCount)
  }

  function Insert(db: Db, id: RunId, req: Request): Db {
    var botCount := if req.botCount == 0 then 1000 else req.botCount;
    Db(db.runs[id := Run(req.contestant, req.submission, Queued, botCount)],
       db.audit + [AuditRow(id, None, Queued, req.contestant, "")])
  }

  function TransitionError(db: Db, id: RunId, next: Status): Option<Error> {
    if id !in db.runs then Some(NotFound)
    else if IsTerminal(db.runs[id].status) then Some(AlreadyTerminal)
    else if next !in AllowedFrom(db.runs[id].status) then Some(InvalidTransition)
    else None
  }

  function Transition(db: Db, id: RunId, actor: string, next: Status, reason: string): Db {
    if TransitionError(db, id, next).Some? then db
    else
      Db(db.runs[id := db.runs[id].(status := next)],
         db.audit + [AuditRow(id, Some(db.runs[id].status), next, actor, reason)])
  }

  class BenchmarkService {
    var runs: map<RunId, Run>
    var audit: seq<AuditRow>

    constructor ()
      ensures Contents() == Db(map[], [])
    {
      runs := map[];
      audit := [];
    }

    function Contents(): Db
      reads this
    {
      Db(runs, audit)
    }

    method CountNonTerminalRuns(contestant: ContestantId) returns (count: nat)
      ensures count == |NonTerminalRuns(runs, contestant)|
    {
      count := 0;
      var ids := runs.Keys;
      while ids != {}
        invariant ids <= runs.Keys
        invariant count == |NonTerminalRuns(runs, contestant) - ids|
        decreases |ids|
      {
        var id :| id in ids;
        ghost var before := NonTerminalRuns(runs, contestant) - ids;
        if runs[id].contestant == contestant && !IsTerminal(runs[id].status) {
          count := count + 1;
          assert NonTerminalRuns(runs, contestant) - (ids - {id}) == before + {id};
        } else {
          assert NonTerminalRuns(runs, contestant) - (ids - {id}) == before;
        }
        ids := ids - {id};
      }
    }

    // The insert transaction of CreateRun. The database makes up a fresh id.
    method InsertRun(id: RunId, req: Request)
      requires id !in runs
      modifies this
      ensures Contents() == Insert(old(Contents()), id, req)
      ensures audit == old(audit) + [AuditRow(id, None, Queued, req.contestant, "")]
      ensures forall other :: other in runs <==> other in old(runs) || other == id
      ensures forall other :: other in old(runs) ==> runs[other] == old(runs)[other]
      ensures Fresh(runs[id], req)
    {
      var botCount := if req.botCount == 0 then 1000 else req.botCount;
      runs := runs[id := Run(req.contestant, req.submission, Queued, botCount)];
      audit := audit + [AuditRow(id, None, Queued, req.contestant, "")];
    }

    // With nothing in between, the limit is exact.
    method CreateRun(id: RunId, req: Request) returns (r: Result<Run, Error>)
      requires id !in runs
      modifies this
      ensures var count := |NonTerminalRuns(old(runs), req.contestant)|;
              if count >= 3 then r == Failure(ResourceExhausted) && Contents() == old(Contents())
              else Contents() == Insert(old(Contents()), id, req) && r == Success(runs[id]) && Fresh(runs[id], req)
    {
      var count := CountNonTerminalRuns(req.contestant);
      if count >= MAX_CONCURRENT_RUNS {
        return Failure(ResourceExhausted);
      }
      InsertRun(id, req);
      return Success(runs[id]);
    }

    // Reads and updates the locked row and appends to the trail, or changes nothing.
    method TransitionState(id: RunId, actor: string, next: Status, reason: string) returns (error: Option<Error>)
      modifies this
      ensures error == TransitionError(old(Contents()), id, next)
      ensures Contents() == Transition(old(Contents()), id, actor, next, reason)
      ensures error == None ==>
                && id in old(runs) && audit == old(audit) + [AuditRow(id, Some(old(runs)[id].status), next, actor, reason)]
                && runs == old(runs)[id := Run(old(runs)[id].contestant, old(runs)[id].submission, next, old(runs)[id].botCount)]
      ensures error != None ==> runs == old(runs) && audit == old(audit)
    {
      if id !in runs {
        return Some(NotFound);
      }
      var current := runs[id].status;
      if IsTerminal(current) {
        return Some(AlreadyTerminal);
      }
      if next !in AllowedFrom(current) {
        return Some(InvalidTransition);
      }
      runs := runs[id := runs[id].(status := next)];
      audit := audit + [AuditRow(id, Some(current), next, actor, reason)];
      return None;
    }

    method CancelRun(id: RunId) returns (error: Option<Error>)
      modifies this
      ensures error == TransitionError(old(Contents()), id, Failed)
      ensures Contents() == Transition(old(Contents()), id, "operator", Failed, "cancelled by operator")
    {
      error := TransitionState(id, "operator", Failed, "cancelled by operator");
    }
  }

  // ------------------------------------------------------------- interleaving

  // The database, and the CreateRun calls that have counted but not committed.
  datatype System = System(db: Db, pending: map<nat, Request>)

  const START := System(Db(map[], []), map[])

  datatype Action =
    | Count(caller: nat, req: Request)
    | Commit(caller: nat, id: RunId)
    | Abort(caller: nat)
    | Move(id: RunId, actor: string, next: Status, reason: string)

  // One atomic step. A step that cannot be taken changes nothing.
  function Do(s: System, a: Action): System {
    match a
    case Count(caller, req) =>
      if caller in s.pending || |NonTerminalRuns(s.db.runs, req.contestant)| >= MAX_CONCURRENT_RUNS then s
      else s.(pending := s.pending[caller := req])
    case Commit(caller, id) =>
      if caller !in s.pending || id in s.db.runs then s
      else System(Insert(s.db, id, s.pending[caller]), s.pending - {caller})
    case Abort(caller) =>
      s.(pending := s.pending - {caller})
    case Move(id, actor, next, reason) =>
      s.(db := Transition(s.db, id, actor, next, reason))
  }

  function After(actions: seq<Action>): System {
    if actions == [] then START else Do(After(actions[..|actions| - 1]), actions[|actions| - 1])
  }

  function Active(s: System, contestant: ContestantId): nat {
    |NonTerminalRuns(s.db.runs, contestant)|
  }

  function Callers(pending: map<nat, Request>, contestant: ContestantId): set<nat> {
    set p | p in pending && pending[p].contestant == contestant
  }

  function InFlight(s: System, contestant: ContestantId): nat {
    |Callers(s.pending, contestant)|
  }

  // ---- the audit trail

  function Trail(audit: seq<AuditRow>, id: RunId): seq<AuditRow> {
    if audit == [] then []
    else
      var last := audit[|audit| - 1];
      Trail(audit[..|audit| - 1], id) + if last.runId == id then [last] else []
  }

  // From nothing to QUEUED and on along allowed transitions to the current status.
  ghost predicate IsChain(rows: seq<AuditRow>, current: Status) {
    && rows != []
    && rows[0].prior == None && rows[0].next == Queued
    && (forall i :: 0 < i < |rows| ==>
          rows[i].prior == Some(rows[i - 1].next) && rows[i].next in AllowedFrom(rows[i - 1].next))
    && rows[|rows| - 1].next == current
  }

  ghost predicate Audited(db: Db) {
    && (forall id :: id in db.runs ==> IsChain(Trail(db.audit, id), db.runs[id].status))
    && (forall id :: id !in db.runs ==> Trail(db.audit, id) == [])
  }

  lemma TrailGrows(audit: seq<AuditRow>, row: AuditRow, id: RunId)
    ensures Trail(audit + [row], id) == Trail(audit, id) + if row.runId == id then [row] else []
  {
    assert (audit + [row])[..|audit|] == audit;
  }

  lemma InsertIsAudited(db: Db, id: RunId, req: Request)
    requires Audited(db) && id !in db.runs
    ensures Audited(Insert(db, id, req))
  {
    var db' := Insert(db, id, req);
    var row := db'.audit[|db.audit|];
    forall other ensures Trail(db'.audit, other) == Trail(db.audit, other) + if other == id then [row] else [] {
      TrailGrows(db.audit, row, other);
    }
  }

  lemma ChainGrows(rows: seq<AuditRow>, current: Status, row: AuditRow)
    requires IsChain(rows, current) && row.prior == Some(current) && row.next in AllowedFrom(current)
    ensures IsChain(rows + [row], row.next)
  {
  }

  lemma TransitionIsAudited(db: Db, id: RunId, actor: string, next: Status, reason: string)
    requires Audited(db)
    ensures Audited(Transition(db, id, actor, next, reason))
  {
    if TransitionError(db, id, next).None? {
      var db' := Transition(db, id, actor, next, reason);
      var row := db'.audit[|db.audit|];
      forall other | other in db'.runs ensures IsChain(Trail(db'.audit, other), db'.runs[other].status) {
        TrailGrows(db.audit, row, other);
        if other == id {
          ChainGrows(Trail(db.audit, id), db.runs[id].status, row);
        }
      }
      forall other | other !in db'.runs ensures Trail(db'.audit, other) == [] {
        TrailGrows(db.audit, row, other);
      }
    }
  }

  // After any interleaving, every run's rows are one chain to its status.
  lemma {:induction false} AlwaysAudited(actions: seq<Action>)
    ensures Audited(After(actions).db)
  {
    if actions != [] {
      var front, a := actions[..|actions| - 1], actions[|actions| - 1];
      AlwaysAudited(front);
      var s := After(front);
      match a
      case Count(_, _) =>
      case Commit(caller, id) =>
        if caller in s.pending && id !in s.db.runs { InsertIsAudited(s.db, id, s.pending[caller]); }
      case Abort(_) =>
      case Move(id, actor, next, reason) =>
        TransitionIsAudited(s.db, id, actor, next, reason);
    }
  }

  lemma {:induction false} RanksRise(rows: seq<AuditRow>, current: Status, i: nat, j: nat)
    requires IsChain(rows, current) && i < j < |rows|
    ensures Rank(rows[i].next) + (j - i) <= Rank(rows[j].next)
    ensures !IsTerminal(rows[i].next)
    decreases j - i
  {
    assert rows[i + 1].next in AllowedFrom(rows[i].next);
    if i + 1 < j { RanksRise(rows, current, i + 1, j); }
  }

  // A run makes at most six transitions, never repeats a status, and only its
  // latest status can be terminal.
  lemma TrailIsShort(actions: seq<Action>, id: RunId)
    requires id in After(actions).db.runs
    ensures var rows := Trail(After(actions).db.audit, id);
            && 1 <= |rows| <= 7
            && (forall i, j :: 0 <= i < j < |rows| ==> rows[i].next != rows[j].next && !IsTerminal(rows[i].next))
            && rows[|rows| - 1].next == After(actions).db.runs[id].status
  {
    AlwaysAudited(actions);
    ChainIsShort(Trail(After(actions).db.audit, id), After(actions).db.runs[id].status);
  }

  lemma ChainIsShort(rows: seq<AuditRow>, current: Status)
    requires IsChain(rows, current)
    ensures 1 <= |rows| <= 7
    ensures forall i, j :: 0 <= i < j < |rows| ==> rows[i].next != rows[j].next && !IsTerminal(rows[i].next)
  {
    forall i, j | 0 <= i < j < |rows| ensures rows[i].next != rows[j].next && !IsTerminal(rows[i].next) {
      RanksRise(rows, current, i, j);
    }
    if |rows| > 1 { RanksRise(rows, current, 0, |rows| - 1); }
  }

  // A terminal run keeps its status and its trail, whatever happens later.
  lemma {:induction false} TerminalIsForever(actions: seq<Action>, more: seq<Action>, id: RunId)
    requires id in After(actions).db.runs && IsTerminal(After(actions).db.runs[id].status)
    ensures id in After(actions + more).db.runs
    ensures After(actions + more).db.runs[id] == After(actions).db.runs[id]
    ensures Trail(After(actions + more).db.audit, id) == Trail(After(actions).db.audit, id)
    decreases |more|
  {
    var all := actions + more;
    if more == [] {
      assert all == actions;
    } else {
      var front := more[..|more| - 1];
      assert all[..|all| - 1] == actions + front;
      TerminalIsForever(actions, front, id);
      var s := After(actions + front);
      match all[|all| - 1]
      case Count(_, _) =>
      case Commit(caller, newId) =>
        if caller in s.pending && newId !in s.db.runs {
          TrailGrows(s.db.audit, Insert(s.db, newId, s.pending[caller]).audit[|s.db.audit|], id);
        }
      case Abort(_) =>
      case Move(moved, actor, next, reason) =>
        if TransitionError(s.db, moved, next).None? {
          TrailGrows(s.db.audit, Transition(s.db, moved, actor, next, reason).audit[|s.db.audit|], id);
        }
    }
  }

  // ---- which transitions there are

  // A status that every unfinished run accepts next is FAILED and no other.
  lemma AcceptedFromEverywhere(next: Status)
    ensures (forall s: Status :: !IsTerminal(s) && !s.Other? ==> next in AllowedFrom(s)) <==> next == Failed
  {
    if forall s: Status :: !IsTerminal(s) && !s.Other? ==> next in AllowedFrom(s) {
      assert next in AllowedFrom(Queued) && next in AllowedFrom(Scoring);
    }
  }

  lemma ChainEndsKnown(rows: seq<AuditRow>, status: Status)
    requires IsChain(rows, status)
    ensures !status.ProvisioningTimeout? && !status.Other?
  {
    assert |rows| > 1 ==> rows[|rows| - 1].next in AllowedFrom(rows[|rows| - 2].next);
  }

  // A run can be in any known status but PROVISIONING_TIMEOUT.
  lemma ReachableStatuses(status: Status)
    ensures (exists actions: seq<Action>, id: RunId :: HasStatus(actions, id, status))
            <==> !status.ProvisioningTimeout? && !status.Other?
  {
    if actions: seq<Action>, id: RunId :| HasStatus(actions, id, status) {
      AlwaysAudited(actions);
      ChainEndsKnown(Trail(After(actions).db.audit, id), status);
    }
    if !status.ProvisioningTimeout? && !status.Other? {
      var path := CanReach(status);
    }
  }

  ghost predicate HasStatus(actions: seq<Action>, id: RunId, status: Status) {
    id in After(actions).db.runs && After(actions).db.runs[id].status == status
  }

  function Previous(status: Status): Status {
    match status
    case Building | BuildFailed | Failed => Queued
    case Deploying | BuildTimeout => Building
    case Running | SandboxCrash | NetworkSetupFailed | NoEndpoints => Deploying
    case Collecting | InsufficientCapacity => Running
    case Scoring | CollectionTimeout => Collecting
    case Complete => Scoring
    case _ => Queued
  }

  lemma {:induction false} CanReach(status: Status) returns (actions: seq<Action>)
    requires !status.ProvisioningTimeout? && !status.Other?
    ensures HasStatus(actions, 0, status)
    decreases Rank(status)
  {
    if status == Queued {
      var req := Request("", "", 0);
      actions := [Count(0, req), Commit(0, 0)];
      assert actions[..1] == [Count(0, req)];
      assert [Count(0, req)][..0] == [];
      assert NonTerminalRuns(map[], "") == {};
      assert After([Count(0, req)]) == System(Db(map[], []), map[0 := req]);
    } else {
      var before := CanReach(Previous(status));
      actions := before + [Move(0, "", status, "")];
      assert actions[..|before|] == before;
    }
  }

  // The stages of a run that goes well, in order.
  const STAGES: seq<Status> := [Queued, Building, Deploying, Running, Collecting, Scoring, Complete]

  // The stages in which a run may fail with this status.
  function FailsIn(failure: Status): set<nat> {
    match failure
    case BuildFailed => {0, 1}
    case BuildTimeout => {1}
    case SandboxCrash => {2, 3}
    case NetworkSetupFailed | NoEndpoints => {2}
    case InsufficientCapacity => {3}
    case CollectionTimeout => {4}
    case Failed => {0, 1, 2, 3, 4, 5}
    case _ => {}
  }

  ghost predicate MovesFrom(i: nat, s: Status, next: Status)
    requires i < 6
  {
    s == STAGES[i] && (next == STAGES[i + 1] || i in FailsIn(next))
  }

  // The allowed transitions, failure by failure: from each stage to the next
  // one, and to the failures of that stage.
  lemma AllowedTransitions(s: Status, next: Status)
    ensures next in AllowedFrom(s) <==> exists i :: 0 <= i < 6 && MovesFrom(i, s, next)
  {
    assert forall i :: 0 <= i < 6 && s == STAGES[i] ==> (next in AllowedFrom(s) <==> MovesFrom(i, s, next));
    if next in AllowedFrom(s) {
      assert s == STAGES[Rank(s)];
    }
  }

  // Terminal are COMPLETE and the failures, that is, all known statuses that allow nothing.
  lemma TerminalStatuses(s: Status)
    ensures IsTerminal(s) <==> !s.Other? && AllowedFrom(s) == {}
    ensures IsTerminal(s) <==> !s.Other? && forall i :: 0 <= i < 6 ==> s != STAGES[i]
  {
    if s.Complete? { assert s == STAGES[6]; }
    assert !IsTerminal(s) && !s.Other? ==> s == STAGES[Rank(s)] && Failed in AllowedFrom(s);
  }

  // A run has gone through the stages in order, each exactly once, whatever
  // the interleaving; only its last status may be a failure, of the stage before.
  lemma {:induction false} StagesInOrder(rows: seq<AuditRow>, current: Status, i: nat)
    requires IsChain(rows, current) && i < |rows|
    ensures i + 1 < |rows| ==> i < 6 && rows[i].next == STAGES[i]
    ensures i > 0 ==> i - 1 < 6 && MovesFrom(i - 1, rows[i - 1].next, rows[i].next)
  {
    if i > 0 {
      StagesInOrder(rows, current, i - 1);
      AllowedTransitions(rows[i - 1].next, rows[i].next);
    }
    if i + 1 < |rows| {
      AllowedTransitions(rows[i].next, rows[i + 1].next);
    }
  }

  // COMPLETE is reached only through all stages, in order.
  lemma CompleteAfterAllStages(actions: seq<Action>, id: RunId)
    requires HasStatus(actions, id, Complete)
    ensures var rows := Trail(After(actions).db.audit, id);
            |rows| == 7 && forall i :: 0 <= i < 7 ==> rows[i].next == STAGES[i]
  {
    AlwaysAudited(actions);
    var rows := Trail(After(actions).db.audit, id);
    var last := |rows| - 1;
    forall i | 0 <= i < |rows| ensures i < last ==> i < 6 && rows[i].next == STAGES[i] {
      StagesInOrder(rows, Complete, i);
    }
    StagesInOrder(rows, Complete, last);
  }

  // ---- what the rows say

  ghost predicate CountedAs(actions: seq<Action>, req: Request) {
    exists i :: 0 <= i < |actions| && actions[i].Count? && actions[i].req == req
  }

  // The run is as some request asked, but for its status, and its first audit
  // row names the contestant.
  ghost predicate AsRequested(run: Run, first: AuditRow, req: Request) {
    && Fresh(run.(status := Queued), req)
    && first.actor == req.contestant && first.reason == ""
  }

  ghost predicate RunAsRequested(actions: seq<Action>, db: Db, id: RunId)
    requires id in db.runs && Trail(db.audit, id) != []
  {
    exists req :: CountedAs(actions, req) && AsRequested(db.runs[id], Trail(db.audit, id)[0], req)
  }

  // Every further row reports a transition that somebody asked for.
  ghost predicate AskedFor(actions: seq<Action>, row: AuditRow) {
    exists i :: 0 <= i < |actions| && actions[i] == Move(row.runId, row.actor, row.next, row.reason)
  }

  ghost predicate Faithful(actions: seq<Action>, s: System) {
    && (forall caller :: caller in s.pending ==> CountedAs(actions, s.pending[caller]))
    && (forall id :: id in s.db.runs ==> Trail(s.db.audit, id) != [] && RunAsRequested(actions, s.db, id))
    && (forall k :: 0 <= k < |s.db.audit| && s.db.audit[k].prior.Some? ==> AskedFor(actions, s.db.audit[k]))
  }

  lemma MoreActions(actions: seq<Action>, a: Action, s: System)
    requires Faithful(actions, s)
    ensures Faithful(actions + [a], s)
  {
    var all := actions + [a];
    assert forall i :: 0 <= i < |actions| ==> all[i] == actions[i];
    forall req | CountedAs(actions, req) ensures CountedAs(all, req) {
      var i :| 0 <= i < |actions| && actions[i].Count? && actions[i].req == req;
      assert all[i].Count? && all[i].req == req;
    }
    forall id | id in s.db.runs ensures RunAsRequested(all, s.db, id) {
      assert RunAsRequested(actions, s.db, id);
      var req :| CountedAs(actions, req) && AsRequested(s.db.runs[id], Trail(s.db.audit, id)[0], req);
      assert CountedAs(all, req);
    }
    forall k | 0 <= k < |s.db.audit| && s.db.audit[k].prior.Some? ensures AskedFor(all, s.db.audit[k]) {
      var row := s.db.audit[k];
      var i :| 0 <= i < |actions| && actions[i] == Move(row.runId, row.actor, row.next, row.reason);
      assert all[i] == actions[i];
    }
  }

  lemma CommitFaithful(actions: seq<Action>, s: System, caller: nat, id: RunId)
    requires Faithful(actions, s) && Audited(s.db) && caller in s.pending && id !in s.db.runs
    ensures Faithful(actions, Do(s, Commit(caller, id)))
  {
    var s' := Do(s, Commit(caller, id));
    var row := s'.db.audit[|s.db.audit|];
    forall other | other in s'.db.runs ensures Trail(s'.db.audit, other) != [] && RunAsRequested(actions, s'.db, other) {
      TrailGrows(s.db.audit, row, other);
      if other == id {
        assert CountedAs(actions, s.pending[caller]);
        assert AsRequested(s'.db.runs[id], row, s.pending[caller]);
      } else {
        assert RunAsRequested(actions, s.db, other);
        var req :| CountedAs(actions, req) && AsRequested(s.db.runs[other], Trail(s.db.audit, other)[0], req);
        assert AsRequested(s'.db.runs[other], Trail(s'.db.audit, other)[0], req);
      }
    }
  }

  lemma MoveFaithful(actions: seq<Action>, s: System, a: Action)
    requires Faithful(actions, s) && a.Move? && a in actions && TransitionError(s.db, a.id, a.next).None?
    ensures Faithful(actions, Do(s, a))
  {
    var s' := Do(s, a);
    var row := s'.db.audit[|s.db.audit|];
    forall other | other in s'.db.runs ensures Trail(s'.db.audit, other) != [] && RunAsRequested(actions, s'.db, other) {
      TrailGrows(s.db.audit, row, other);
      assert RunAsRequested(actions, s.db, other);
      var req :| CountedAs(actions, req) && AsRequested(s.db.runs[other], Trail(s.db.audit, other)[0], req);
      assert AsRequested(s'.db.runs[other], Trail(s'.db.audit, other)[0], req);
    }
    var i :| 0 <= i < |actions| && actions[i] == a;
    assert AskedFor(actions, row);
  }

  // In any interleaving every run is as some counted call requested it, and
  // every transition in the trail was asked for, by this actor and for this reason.
  lemma {:induction false} AlwaysFaithful(actions: seq<Action>)
    ensures Faithful(actions, After(actions))
  {
    if actions != [] {
      var front, a := actions[..|actions| - 1], actions[|actions| - 1];
      assert actions == front + [a];
      AlwaysFaithful(front);
      AlwaysAudited(front);
      var s := After(front);
      MoreActions(front, a, s);
      match a
      case Count(_, req) =>
        assert actions[|front|].Count? && actions[|front|].req == req;
      case Commit(caller, id) =>
        if caller in s.pending && id !in s.db.runs { CommitFaithful(actions, s, caller, id); }
      case Abort(_) =>
      case Move(id, _, next, _) =>
        if TransitionError(s.db, id, next).None? { MoveFaithful(actions, s, a); }
    }
  }

  // An operator can cancel exactly the runs that exist and are not finished.
  lemma CancellableRuns(actions: seq<Action>, id: RunId)
    ensures var db := After(actions).db;
            TransitionError(db, id, Failed).None? <==> id in db.runs && !IsTerminal(db.runs[id].status)
  {
    var db := After(actions).db;
    if id in db.runs {
      assert HasStatus(actions, id, db.runs[id].status);
      ReachableStatuses(db.runs[id].status);
    }
  }

  // ---- the limit on concurrent runs

  lemma InsertActive(db: Db, id: RunId, req: Request, contestant: ContestantId)
    requires id !in db.runs
    ensures |NonTerminalRuns(Insert(db, id, req).runs, contestant)|
            == |NonTerminalRuns(db.runs, contestant)| + if req.contestant == contestant then 1 else 0
  {
    var before := NonTerminalRuns(db.runs, contestant);
    assert NonTerminalRuns(Insert(db, id, req).runs, contestant)
        == if req.contestant == contestant then before + {id} else before;
  }

  lemma TransitionActive(db: Db, id: RunId, actor: string, next: Status, reason: string, contestant: ContestantId)
    ensures |NonTerminalRuns(Transition(db, id, actor, next, reason).runs, contestant)|
            <= |NonTerminalRuns(db.runs, contestant)|
  {
    var before := NonTerminalRuns(db.runs, contestant);
    var after := NonTerminalRuns(Transition(db, id, actor, next, reason).runs, contestant);
    assert after == before || after == before - {id};
  }

  lemma PendingChanges(pending: map<nat, Request>, caller: nat, req: Request, contestant: ContestantId)
    ensures caller !in pending ==>
              |Callers(pending[caller := req], contestant)|
              == |Callers(pending, contestant)| + if req.contestant == contestant then 1 else 0
    ensures |Callers(pending - {caller}, contestant)|
            == |Callers(pending, contestant)| - if caller in Callers(pending, contestant) then 1 else 0
  {
    var before := Callers(pending, contestant);
    if caller !in pending {
      assert Callers(pending[caller := req], contestant)
          == if req.contestant == contestant then before + {caller} else before;
    }
    assert Callers(pending - {caller}, contestant) == before - {caller};
  }

  // At most k calls of the contestant are between count and commit at any time.
  ghost predicate AtMostInFlight(actions: seq<Action>, contestant: ContestantId, k: nat) {
    && InFlight(After(actions), contestant) <= k
    && (actions != [] ==> AtMostInFlight(actions[..|actions| - 1], contestant, k))
  }

  lemma StepBound(s: System, a: Action, contestant: ContestantId, k: nat)
    requires Active(s, contestant) + InFlight(s, contestant) <= k + 2
    requires InFlight(Do(s, a), contestant) <= k
    ensures Active(Do(s, a), contestant) + InFlight(Do(s, a), contestant) <= k + 2
  {
    match a
    case Count(caller, req) =>
      PendingChanges(s.pending, caller, req, contestant);
    case Commit(caller, id) =>
      if caller in s.pending && id !in s.db.runs {
        PendingChanges(s.pending, caller, s.pending[caller], contestant);
        InsertActive(s.db, id, s.pending[caller], contestant);
      }
    case Abort(caller) =>
      PendingChanges(s.pending, caller, Request("", "", 0), contestant);
    case Move(id, actor, next, reason) =>
      TransitionActive(s.db, id, actor, next, reason, contestant);
  }

  lemma {:induction false} RunBound(actions: seq<Action>, contestant: ContestantId, k: nat)
    requires AtMostInFlight(actions, contestant, k)
    ensures Active(After(actions), contestant) + InFlight(After(actions), contestant) <= k + 2
  {
    if actions == [] {
      assert NonTerminalRuns(START.db.runs, contestant) == {} && Callers(START.pending, contestant) == {};
    } else {
      var front := actions[..|actions| - 1];
      RunBound(front, contestant, k);
      StepBound(After(front), actions[|actions| - 1], contestant, k);
    }
  }

  // With at most k calls in flight a contestant never has more than k + 2
  // unfinished runs; one call at a time keeps the limit of three.
  lemma ConcurrentRunLimit(actions: seq<Action>, contestant: ContestantId, k: nat)
    requires AtMostInFlight(actions, contestant, k)
    ensures Active(After(actions), contestant) <= k + 2
  {
    RunBound(actions, contestant, k);
  }

  // ---- the bound is reached

  function Numbers(lo: nat, hi: nat): (s: set<nat>)
    ensures forall p :: p in s <==> lo <= p < hi
    ensures |s| == if lo <= hi then hi - lo else 0
  {
    if hi <= lo then {} else Numbers(lo, hi - 1) + {hi - 1}
  }

  lemma WithoutFirst(lo: nat, hi: nat)
    requires lo < hi
    ensures lo in Numbers(lo, hi) && Numbers(lo, hi) - {lo} == Numbers(lo + 1, hi)
  {
  }

  // Runs 0, 1, ... of one contestant, all queued, and these callers in flight.
  ghost predicate Standing(s: System, req: Request, active: nat, callers: set<nat>) {
    && s.db.runs.Keys == Numbers(0, active)
    && (forall id :: id in s.db.runs ==> s.db.runs[id].contestant == req.contestant && s.db.runs[id].status == Queued)
    && s.pending.Keys == callers
    && (forall p :: p in s.pending ==> s.pending[p] == req)
  }

  lemma StandingCounts(s: System, req: Request, active: nat, callers: set<nat>)
    requires Standing(s, req, active, callers)
    ensures Active(s, req.contestant) == active && InFlight(s, req.contestant) == |callers|
  {
    assert NonTerminalRuns(s.db.runs, req.contestant) == Numbers(0, active);
    assert Callers(s.pending, req.contestant) == callers;
  }

  // A history, where it stands, and that it kept to k calls in flight.
  ghost predicate Stage(actions: seq<Action>, req: Request, active: nat, callers: set<nat>, k: nat) {
    Standing(After(actions), req, active, callers) && AtMostInFlight(actions, req.contestant, k)
  }

  lemma OneMore(actions: seq<Action>, a: Action, contestant: ContestantId, k: nat)
    requires AtMostInFlight(actions, contestant, k) && InFlight(Do(After(actions), a), contestant) <= k
    ensures After(actions + [a]) == Do(After(actions), a) && AtMostInFlight(actions + [a], contestant, k)
  {
    assert (actions + [a])[..|actions|] == actions;
  }

  lemma CountStage(actions: seq<Action>, caller: nat, req: Request, active: nat, callers: set<nat>, k: nat)
    requires Stage(actions, req, active, callers, k)
    requires caller !in callers && active < MAX_CONCURRENT_RUNS && |callers| < k
    ensures Stage(actions + [Count(caller, req)], req, active, callers + {caller}, k)
  {
    StandingCounts(After(actions), req, active, callers);
    var s := Do(After(actions), Count(caller, req));
    StandingCounts(s, req, active, callers + {caller});
    OneMore(actions, Count(caller, req), req.contestant, k);
  }

  lemma CommitStage(actions: seq<Action>, caller: nat, req: Request, active: nat, callers: set<nat>, k: nat)
    requires Stage(actions, req, active, callers, k) && |callers| <= k
    requires caller in callers
    ensures Stage(actions + [Commit(caller, active)], req, active + 1, callers - {caller}, k)
  {
    var s := Do(After(actions), Commit(caller, active));
    StandingCounts(s, req, active + 1, callers - {caller});
    OneMore(actions, Commit(caller, active), req.contestant, k);
  }

  // n runs created one after the other.
  lemma {:induction false} CreateAlone(req: Request, n: nat, k: nat) returns (actions: seq<Action>)
    requires 1 <= k && n < MAX_CONCURRENT_RUNS
    ensures Stage(actions, req, n, {}, k)
  {
    if n == 0 {
      actions := [];
      StandingCounts(START, req, 0, {});
    } else {
      actions := CreateAlone(req, n - 1, k);
      CountStage(actions, 0, req, n - 1, {}, k);
      CommitStage(actions + [Count(0, req)], 0, req, n - 1, {} + {0}, k);
      actions := actions + [Count(0, req)] + [Commit(0, n - 1)];
      assert {} + {0} - {0} == {};
    }
  }

  // Then j callers count.
  lemma {:induction false} CountMany(req: Request, j: nat, k: nat) returns (actions: seq<Action>)
    requires 1 <= k && j <= k
    ensures Stage(actions, req, 2, Numbers(1, j + 1), k)
  {
    if j == 0 {
      actions := CreateAlone(req, 2, k);
    } else {
      actions := CountMany(req, j - 1, k);
      CountStage(actions, j, req, 2, Numbers(1, j), k);
      actions := actions + [Count(j, req)];
    }
  }

  // Then j of k callers commit.
  lemma {:induction false} CommitMany(req: Request, j: nat, k: nat) returns (actions: seq<Action>)
    requires 1 <= k && j <= k
    ensures Stage(actions, req, 2 + j, Numbers(j + 1, k + 1), k)
  {
    if j == 0 {
      actions := CountMany(req, k, k);
    } else {
      actions := CommitMany(req, j - 1, k);
      WithoutFirst(j, k + 1);
      CommitStage(actions, j, req, 1 + j, Numbers(j, k + 1), k);
      actions := actions + [Commit(j, j + 1)];
    }
  }

  // For every k there is an interleaving with at most k calls in flight that
  // ends with k + 2 unfinished runs: the limit of three fails as soon as two
  // calls may overlap.
  lemma LimitIsExceeded(req: Request, k: nat) returns (actions: seq<Action>)
    requires k >= 1
    ensures AtMostInFlight(actions, req.contestant, k)
    ensures Active(After(actions), req.contestant) == k + 2
  {
    actions := CommitMany(req, k, k);
    StandingCounts(After(actions), req, 2 + k, {});
  }

  // The limit of three holds in every interleaving exactly when no two calls
  // of a contestant may overlap.
  lemma LimitHoldsUnlessCallsOverlap(contestant: ContestantId, k: nat)
    ensures (forall actions | AtMostInFlight(actions, contestant, k) :: Active(After(actions), contestant) <= 3)
            <==> k <= 1
  {
    if k <= 1 {
      forall actions | AtMostInFlight(actions, contestant, k) ensures Active(After(actions), contestant) <= 3 {
        ConcurrentRunLimit(actions, contestant, k);
      }
    } else {
      var actions := LimitIsExceeded(Request(contestant, "", 0), k);
    }
  }
}
