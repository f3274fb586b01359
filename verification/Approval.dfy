/**
 * The approval gate in front of mutating tools. Approve and Reject calls are cut into the steps
 * between which other calls may run; every store access may fail before or after it took effect.
 */
module Approval {
  import opened Common

  datatype Status = Pending | Approved | Executed | Failed | Rejected

  predicate Terminal(s: Status) {
    s.Executed? || s.Failed? || s.Rejected?
  }

  datatype Row = Row(tool: string, args: string, status: Status, decidedBy: string, result: string, error: string)

  /** What a tool handler did: it returned a text and perhaps an error, or it panicked. */
  datatype Outcome = Returned(text: string, failure: Option<string>) | Panicked(message: string)

  function TextOf(o: Outcome): string {
    if o.Returned? then o.text else ""
  }

  function FailureOf(o: Outcome): Option<string> {
    if o.Returned? then o.failure else Some("tool handler panicked: " + o.message)
  }

  /** One handler run, under the identity of the admin who approved. */
  datatype Run = Run(id: string, admin: string, outcome: Outcome)

  /** How far one Approve or Reject call has come. */
  datatype Phase =
    | Approving(id: string, admin: string)
    | Claimed(id: string, admin: string)
    | Loaded(id: string, admin: string, row: Row)
    | Ran(id: string, decision: Row)
    | Retrying(id: string, decision: Row)
    | Rejecting(id: string, admin: string, reason: string)
    | Checked(id: string, admin: string, decision: Row)
    | Holding(id: string, decision: Row)
    | Finished(id: string, answer: Option<Row>)

  /** claims records whose claim moved an action out of pending; tools are those with a handler. */
  datatype System = System(rows: map<string, Row>, calls: map<nat, Phase>, claims: map<string, nat>, log: seq<Run>, tools: set<string>)

  /** `applies`: the write reached the store. `reports`: its answer reached the caller. */
  datatype Step =
    | Register(tool: string)
    | Submit(id: string, tool: string, args: string)
    | BeginApprove(c: nat, id: string, admin: string)
    | BeginReject(c: nat, id: string, admin: string, reason: string)
    | Load(c: nat, ok: bool)
    | Claim(c: nat, applies: bool, reports: bool)
    | Execute(c: nat, outcome: Outcome)
    | Decide(c: nat, applies: bool, reports: bool, trouble: string)

  const START := System(map[], map[], map[], [], {})

  // ------------------------------------------------------------- the store's two swaps

  function ClaimRow(rows: map<string, Row>, id: string, admin: string): map<string, Row> {
    if id in rows && rows[id].status.Pending? then rows[id := rows[id].(status := Approved, decidedBy := admin)] else rows
  }

  /** Overwrites the decision columns of a row still approved. */
  function DecideRow(rows: map<string, Row>, id: string, d: Row): map<string, Row> {
    if id in rows && rows[id].status.Approved?
    then rows[id := rows[id].(status := d.status, decidedBy := d.decidedBy, result := d.result, error := d.error)]
    else rows
  }

  // ------------------------------------------------------------- the decisions

  function Verdict(row: Row, admin: string, o: Outcome): Row {
    var r := row.(decidedBy := admin, result := TextOf(o));
    match FailureOf(o)
    case None => r.(status := Executed)
    case Some(e) => r.(status := Failed, error := e)
  }

  function PersistFailed(decision: Row, trouble: string): Row {
    decision.(status := Failed, error := "decision persist failed: " + trouble)
  }

  function Refusal(row: Row, admin: string, reason: string): Row {
    row.(status := Rejected, decidedBy := admin, result := "rejected: " + reason)
  }

  // ------------------------------------------------------------- steps

  function AfterLoad(tools: set<string>, rows: map<string, Row>, p: Phase, ok: bool): Phase {
    if p.Claimed? then
      if ok && p.id in rows && rows[p.id].tool in tools then Loaded(p.id, p.admin, rows[p.id]) else Finished(p.id, None)
    else if p.Rejecting? then
      if ok && p.id in rows && rows[p.id].status.Pending?
      then Checked(p.id, p.admin, Refusal(rows[p.id], p.admin, p.reason))
      else Finished(p.id, None)
    else p
  }

  function AfterClaim(p: Phase, won: bool): Phase {
    if p.Approving? then (if won then Claimed(p.id, p.admin) else Finished(p.id, None))
    else if p.Checked? then (if won then Holding(p.id, p.decision) else Finished(p.id, None))
    else p
  }

  function AfterDecide(p: Phase, done: bool, trouble: string): Phase {
    if p.Ran? then (if done then Finished(p.id, Some(p.decision)) else Retrying(p.id, PersistFailed(p.decision, trouble)))
    else if p.Retrying? then Finished(p.id, None)
    else if p.Holding? then Finished(p.id, if done then Some(p.decision) else None)
    else p
  }

  /** A step whose call is not at that point does nothing. */
  function Apply(sys: System, s: Step): System {
    match s
    case Register(tool) => sys.(tools := sys.tools + {tool})
    case Submit(id, tool, args) =>
      if id in sys.rows then sys else sys.(rows := sys.rows[id := Row(tool, args, Pending, "", "", "")])
    case BeginApprove(c, id, admin) =>
      if c in sys.calls then sys else sys.(calls := sys.calls[c := Approving(id, admin)])
    case BeginReject(c, id, admin, reason) =>
      if c in sys.calls then sys else sys.(calls := sys.calls[c := Rejecting(id, admin, reason)])
    case Load(c, ok) =>
      if c in sys.calls then sys.(calls := sys.calls[c := AfterLoad(sys.tools, sys.rows, sys.calls[c], ok)]) else sys
    case Claim(c, applies, reports) =>
      if c in sys.calls && (sys.calls[c].Approving? || sys.calls[c].Checked?) then
        var p := sys.calls[c];
        var won := applies && p.id in sys.rows && sys.rows[p.id].status.Pending?;
        sys.(rows := if applies then ClaimRow(sys.rows, p.id, p.admin) else sys.rows,
             claims := if won then sys.claims[p.id := c] else sys.claims,
             calls := sys.calls[c := AfterClaim(p, won && reports)])
      else sys
    case Execute(c, outcome) =>
      if c in sys.calls && sys.calls[c].Loaded? then
        var p := sys.calls[c];
        sys.(log := sys.log + [Run(p.id, p.admin, outcome)], calls := sys.calls[c := Ran(p.id, Verdict(p.row, p.admin, outcome))])
      else sys
    case Decide(c, applies, reports, trouble) =>
      if c in sys.calls && (sys.calls[c].Ran? || sys.calls[c].Retrying? || sys.calls[c].Holding?) then
        var p := sys.calls[c];
        var done := applies && reports && p.id in sys.rows && sys.rows[p.id].status.Approved?;
        sys.(rows := if applies then DecideRow(sys.rows, p.id, p.decision) else sys.rows,
             calls := sys.calls[c := AfterDecide(p, done, trouble)])
      else sys
  }

  function Play(sys: System, steps: seq<Step>): System {
    if steps == [] then sys else Apply(Play(sys, steps[..|steps| - 1]), steps[|steps| - 1])
  }

  lemma {:induction false} PlayConcat(sys: System, first: seq<Step>, rest: seq<Step>)
    ensures Play(sys, first + rest) == Play(Play(sys, first), rest)
  {
    if rest == [] {
      assert first + rest == first;
    } else {
      assert (first + rest)[..|first + rest| - 1] == first + rest[..|rest| - 1];
      PlayConcat(sys, first, rest[..|rest| - 1]);
    }
  }

  // ------------------------------------------------------------- the invariant

  function RunsOf(log: seq<Run>, id: string): seq<Run> {
    if log == [] then [] else
      RunsOf(log[..|log| - 1], id) + if log[|log| - 1].id == id then [log[|log| - 1]] else []
  }

  /** What a row's status says about the handler runs of its action. */
  predicate Honest(row: Row, runs: seq<Run>) {
    match row.status
    case Pending => runs == []
    case Rejected => runs == []
    case Approved => |runs| <= 1
    case Executed =>
      |runs| == 1 && FailureOf(runs[0].outcome).None? && row.result == TextOf(runs[0].outcome) && row.decidedBy == runs[0].admin
    case Failed =>
      |runs| == 1 && row.result == TextOf(runs[0].outcome) && row.decidedBy == runs[0].admin
  }

  /** The decision a call is about to write is honest about its own run. */
  predicate Faithful(decision: Row, runs: seq<Run>) {
    Terminal(decision.status) && Honest(decision, runs)
  }

  /** Where the call that claimed an action may stand. */
  predicate Stands(p: Phase, row: Row, runs: seq<Run>) {
    match p
    case Claimed(_, _) => row.status.Approved? && runs == []
    case Loaded(_, _, r) => row.status.Approved? && runs == []
    case Ran(_, d) => row.status.Approved? && Faithful(d, runs) && !d.status.Rejected?
    case Retrying(_, d) => !row.status.Rejected? && d.status.Failed? && Faithful(d, runs)
    case Holding(_, d) => row.status.Approved? && d.status.Rejected? && Faithful(d, runs)
    case Finished(_, Some(d)) => row.status == d.status
    case Finished(_, None) => true
    case _ => false
  }

  /** Phases only the claimant of an action reaches. */
  predicate Owning(p: Phase) {
    p.Claimed? || p.Loaded? || p.Ran? || p.Retrying? || p.Holding? || (p.Finished? && p.answer.Some?)
  }

  predicate Kept(sys: System, id: string) {
    var runs := RunsOf(sys.log, id);
    if id !in sys.rows then runs == [] && id !in sys.claims else
      && Honest(sys.rows[id], runs)
      && (sys.rows[id].status.Pending? <==> id !in sys.claims)
      && (id in sys.claims ==>
            var c := sys.claims[id]; c in sys.calls && sys.calls[c].id == id && Stands(sys.calls[c], sys.rows[id], runs))
  }

  predicate OwnsItsClaim(sys: System, c: nat) {
    c in sys.calls ==>
      && (Owning(sys.calls[c]) ==> sys.calls[c].id in sys.claims && sys.claims[sys.calls[c].id] == c)
      && (sys.calls[c].Checked? ==> sys.calls[c].decision.status.Rejected?)
  }

  ghost predicate Inv(sys: System) {
    (forall id: string :: Kept(sys, id)) && (forall c: nat :: OwnsItsClaim(sys, c))
  }

  lemma StepKeepsOwners(sys: System, s: Step, c: nat)
    requires Inv(sys)
    ensures OwnsItsClaim(Apply(sys, s), c)
  {
    hide RunsOf, Honest, Stands, Verdict;
    assert OwnsItsClaim(sys, c);
    if s.Claim? && s.c in sys.calls && c in sys.calls {
      assert Kept(sys, sys.calls[s.c].id) && Kept(sys, sys.calls[c].id);
    }
  }

  lemma StepKeepsRow(sys: System, s: Step, id: string)
    requires Inv(sys)
    ensures Kept(Apply(sys, s), id)
  {
    hide PersistFailed, Refusal, RunsOf;
    assert Kept(sys, id);
    if !s.Submit? && !s.Register? && s.c in sys.calls {
      assert OwnsItsClaim(sys, s.c);
      assert Kept(sys, sys.calls[s.c].id);
    }
    match s
    case Execute(c, outcome) => RanOnce(sys, c, outcome, id);
    case Decide(c, _, _, _) => DecidedHonestly(sys, s, id);
    case _ =>
  }

  lemma RunsOfMore(log: seq<Run>, run: Run, id: string)
    ensures RunsOf(log + [run], id) == RunsOf(log, id) + if run.id == id then [run] else []
  {
    assert (log + [run])[..|log|] == log;
  }

  lemma VerdictIsFaithful(row: Row, id: string, admin: string, o: Outcome)
    ensures Faithful(Verdict(row, admin, o), [Run(id, admin, o)]) && !Verdict(row, admin, o).status.Rejected?
  {
  }

  lemma ApprovedIsHonest(row: Row, run: Run)
    requires row.status.Approved?
    ensures Honest(row, [run])
  {
  }

  lemma RanOnce(sys: System, c: nat, outcome: Outcome, id: string)
    requires Inv(sys)
    ensures Kept(Apply(sys, Execute(c, outcome)), id)
  {
    hide RunsOf, Honest, Verdict, Faithful;
    assert Kept(sys, id) && OwnsItsClaim(sys, c);
    if c in sys.calls && sys.calls[c].Loaded? {
      var p := sys.calls[c];
      assert Kept(sys, p.id);
      var run := Run(p.id, p.admin, outcome);
      RunsOfMore(sys.log, run, id);
      VerdictIsFaithful(p.row, p.id, p.admin, outcome);
      if p.id == id {
        assert [] + [run] == [run];
        ApprovedIsHonest(sys.rows[id], run);
      } else {
        assert RunsOf(sys.log, id) + [] == RunsOf(sys.log, id);
      }
    }
  }

  lemma DecidedHonestly(sys: System, s: Step, id: string)
    requires Inv(sys) && s.Decide?
    ensures Kept(Apply(sys, s), id)
  {
    hide RunsOf;
    assert Kept(sys, id) && OwnsItsClaim(sys, s.c);
  }

  lemma StepKeepsInv(sys: System, s: Step)
    requires Inv(sys)
    ensures Inv(Apply(sys, s))
  {
    hide Apply, Kept, OwnsItsClaim;
    var next := Apply(sys, s);
    forall id: string ensures Kept(next, id) { StepKeepsRow(sys, s, id); }
    forall c: nat ensures OwnsItsClaim(next, c) { StepKeepsOwners(sys, s, c); }
  }

  lemma {:induction false} PlayKeepsInv(sys: System, steps: seq<Step>)
    requires Inv(sys)
    ensures Inv(Play(sys, steps))
  {
    hide Apply, Inv;
    if steps != [] {
      PlayKeepsInv(sys, steps[..|steps| - 1]);
      StepKeepsInv(Play(sys, steps[..|steps| - 1]), steps[|steps| - 1]);
    }
  }

  // ------------------------------------------------------------- safety over every interleaving

  /** In any interleaving of any calls, with any faults: a handler runs at most once per action;
      a pending or rejected action never ran; an executed or failed one ran exactly once, under
      the admin recorded on the row, and the row holds that run's text. */
  lemma HandlersRunAtMostOnce(steps: seq<Step>, id: string)
    ensures var end := Play(START, steps);
      && |RunsOf(end.log, id)| <= 1
      && (id in end.rows ==> Honest(end.rows[id], RunsOf(end.log, id)))
  {
    hide Play, Stands;
    assert Inv(START) by { hide Honest; }
    PlayKeepsInv(START, steps);
    assert Kept(Play(START, steps), id);
  }

  /** In any interleaving an executed row's handler came back without an error, and the row holds
      the text it returned. */
  lemma ExecutedRunsSucceeded(steps: seq<Step>, id: string)
    ensures var end := Play(START, steps);
      id in end.rows && end.rows[id].status == Executed ==>
        var runs := RunsOf(end.log, id);
        |runs| == 1 && runs[0].outcome == Returned(end.rows[id].result, None) && end.rows[id].decidedBy == runs[0].admin
  {
    hide Play, RunsOf;
    HandlersRunAtMostOnce(steps, id);
  }

  /** Of all calls on one action at most one succeeds, and its answer is the status the row keeps. */
  lemma AtMostOneCallSucceeds(steps: seq<Step>, c: nat, d: nat)
    ensures var end := Play(START, steps);
      c in end.calls && end.calls[c].Finished? && end.calls[c].answer.Some? ==>
        && end.calls[c].id in end.rows && end.rows[end.calls[c].id].status == end.calls[c].answer.value.status
        && (d in end.calls && end.calls[d].Finished? && end.calls[d].answer.Some? && end.calls[d].id == end.calls[c].id ==> c == d)
  {
    hide Play, Honest;
    assert Inv(START) by { hide Stands; }
    PlayKeepsInv(START, steps);
    var end := Play(START, steps);
    assert OwnsItsClaim(end, c) && OwnsItsClaim(end, d);
    if c in end.calls { assert Kept(end, end.calls[c].id); }
  }

  /** A row once executed, failed or rejected is never changed again. */
  lemma {:induction false} TerminalRowsAreFinal(sys: System, steps: seq<Step>, id: string)
    requires id in sys.rows && Terminal(sys.rows[id].status)
    ensures var end := Play(sys, steps); id in end.rows && end.rows[id] == sys.rows[id]
  {
    hide AfterLoad, AfterClaim, AfterDecide, Verdict;
    if steps != [] { TerminalRowsAreFinal(sys, steps[..|steps| - 1], id); }
  }

  // ------------------------------------------------------------- actions left approved

  /** The call that claimed the action is still under way. */
  predicate InGoodHands(sys: System, id: string) {
    id in sys.claims && sys.claims[id] in sys.calls && id in sys.rows && !sys.calls[sys.claims[id]].Finished?
  }

  lemma AbandonedStepwise(sys: System, s: Step, id: string)
    requires Inv(sys) && id in sys.rows && sys.rows[id].status.Approved? && !InGoodHands(sys, id)
    ensures var next := Apply(sys, s);
      id in next.rows && next.rows[id].status.Approved? && !InGoodHands(next, id)
  {
    hide RunsOf, Honest, Faithful, Verdict, PersistFailed, Refusal;
    assert Kept(sys, id);
    if !s.Submit? && !s.Register? { assert OwnsItsClaim(sys, s.c); }
  }

  lemma {:induction false} AbandonedStays(sys: System, steps: seq<Step>, id: string)
    requires Inv(sys) && id in sys.rows && sys.rows[id].status.Approved? && !InGoodHands(sys, id)
    ensures var end := Play(sys, steps);
      id in end.rows && end.rows[id].status.Approved? && !InGoodHands(end, id)
  {
    hide Apply, Inv, InGoodHands;
    if steps != [] {
      AbandonedStays(sys, steps[..|steps| - 1], id);
      PlayKeepsInv(sys, steps[..|steps| - 1]);
      AbandonedStepwise(Play(sys, steps[..|steps| - 1]), steps[|steps| - 1], id);
    }
  }

  /** Steps that bring a call in good hands to its decision when nothing fails. */
  function Finishing(tool: string, c: nat): seq<Step> {
    [Register(tool), Load(c, true), Execute(c, Returned("", None)), Decide(c, true, true, "")]
  }

  lemma GoodHandsFinish(sys: System, id: string)
    requires Inv(sys) && id in sys.rows && sys.rows[id].status.Approved? && InGoodHands(sys, id)
    ensures var end := Play(sys, Finishing(sys.rows[id].tool, sys.claims[id])); id in end.rows && Terminal(end.rows[id].status)
  {
    hide RunsOf, Honest, Apply;
    assert Kept(sys, id);
    var c := sys.claims[id];
    var all := Finishing(sys.rows[id].tool, c);
    FourSteps(sys, all);
    hide Play;
    FinishingStages(sys, c, id);
  }

  lemma FourSteps(sys: System, s: seq<Step>)
    requires |s| == 4
    ensures Play(sys, s) == Apply(Apply(Apply(Apply(sys, s[0]), s[1]), s[2]), s[3])
  {
    hide Apply;
    assert s[..3][..2] == s[..2] && s[..2][..1] == s[..1] && s[..1][..0] == [];
    assert Play(sys, s[..1]) == Apply(sys, s[0]);
    assert Play(sys, s[..2]) == Apply(Apply(sys, s[0]), s[1]);
    assert Play(sys, s[..3]) == Apply(Apply(Apply(sys, s[0]), s[1]), s[2]);
  }

  lemma FinishingStages(sys: System, c: nat, id: string)
    requires c in sys.calls && sys.calls[c].id == id && id in sys.rows && sys.rows[id].status.Approved?
    requires sys.calls[c].Ran? || sys.calls[c].Retrying? || sys.calls[c].Holding? ==> Terminal(sys.calls[c].decision.status)
    requires var p := sys.calls[c]; p.Claimed? || p.Loaded? || p.Ran? || p.Retrying? || p.Holding?
    ensures var all := Finishing(sys.rows[id].tool, c);
      var end := Apply(Apply(Apply(Apply(sys, all[0]), all[1]), all[2]), all[3]);
      id in end.rows && Terminal(end.rows[id].status)
  {
  }

  /** Once claimed and not yet decided, an action stays approved for ever exactly when the call
      that claimed it has returned. */
  lemma StuckIffAbandoned(sys: System, id: string)
    requires Inv(sys) && id in sys.rows && sys.rows[id].status.Approved?
    ensures !InGoodHands(sys, id) <==>
      forall steps: seq<Step> :: var end := Play(sys, steps); id in end.rows && end.rows[id].status.Approved?
  {
    hide Inv, Play;
    if InGoodHands(sys, id) {
      GoodHandsFinish(sys, id);
      assert !Play(sys, Finishing(sys.rows[id].tool, sys.claims[id])).rows[id].status.Approved?;
    } else {
      forall steps: seq<Step> ensures id in Play(sys, steps).rows && Play(sys, steps).rows[id].status.Approved? {
        AbandonedStays(sys, steps, id);
      }
    }
  }

  /** Such an action is reachable, and has run nothing: a claim takes effect, but its answer is lost. */
  lemma AbandonedIsReachable(id: string, tool: string, args: string, admin: string)
    ensures var end := Play(START, [Submit(id, tool, args), BeginApprove(0, id, admin), Claim(0, true, false), Load(0, true)]);
      && Inv(end) && id in end.rows && end.rows[id].status.Approved? && !InGoodHands(end, id) && RunsOf(end.log, id) == []
  {
    var steps := [Submit(id, tool, args), BeginApprove(0, id, admin), Claim(0, true, false), Load(0, true)];
    FourSteps(START, steps);
    hide Play, Inv;
    assert Inv(START) by { StartIsSafe(); }
    PlayKeepsInv(START, steps);
  }

  lemma StartIsSafe()
    ensures Inv(START)
  {
    hide Honest, Stands;
  }

  // ------------------------------------------------------------- the service, call after call

  /** A tool handler, given the admin's name and the arguments. */
  type ToolFunc = (string, string) -> Outcome

  /** Which store accesses of one call take effect and which report back. */
  datatype Faults = Faults(
    claimApplies: bool, claimReports: bool, loads: bool,
    decideApplies: bool, decideReports: bool, trouble: string, retryApplies: bool, retryReports: bool)

  const NO_FAULTS := Faults(true, true, true, true, true, "", true, true)

  /** The steps of call number c. */
  function ApproveScript(c: nat, id: string, admin: string, o: Outcome, f: Faults): seq<Step> {
    [BeginApprove(c, id, admin), Claim(c, f.claimApplies, f.claimReports), Load(c, f.loads), Execute(c, o),
     Decide(c, f.decideApplies, f.decideReports, f.trouble), Decide(c, f.retryApplies, f.retryReports, "")]
  }

  function RejectScript(c: nat, id: string, admin: string, reason: string, f: Faults): seq<Step> {
    [BeginReject(c, id, admin, reason), Load(c, f.loads), Claim(c, f.claimApplies, f.claimReports),
     Decide(c, f.decideApplies, f.decideReports, f.trouble)]
  }

  /** What the handler registered for an action's tool does when this admin approves it. */
  function Effect(originals: map<string, ToolFunc>, rows: map<string, Row>, id: string, admin: string): Outcome {
    if id in rows && rows[id].tool in originals then originals[rows[id].tool](admin, rows[id].args) else Panicked("")
  }

  class ApprovalService {
    var originals: map<string, ToolFunc>
    var gated: set<string>
    var rows: map<string, Row>
    ghost var log: seq<Run>
    ghost var history: seq<Step>
    ghost var nextCall: nat

    constructor ()
      ensures Valid() && originals == map[] && gated == {} && rows == map[] && log == [] && history == []
    {
      originals, gated, rows, log, history, nextCall := map[], {}, map[], [], [], 0;
    }

    /** The machine after everything done through the service so far. */
    ghost function Machine(): System
      reads this
    {
      Play(START, history)
    }

    /** Store, handlers and runs are the machine's, and no call was ever numbered nextCall or above. */
    ghost predicate Valid()
      reads this
    {
      && Machine().rows == rows && Machine().log == log && Machine().tools == originals.Keys
      && forall c :: c in Machine().calls ==> c < nextCall
    }

    /** So whatever sequence of calls a service has been through, and whatever failed in it, no
        handler has run twice for an action and each row is honest about its runs. */
    lemma ServiceIsSafe(id: string)
      requires Valid()
      ensures |RunsOf(log, id)| <= 1 && (id in rows ==> Honest(rows[id], RunsOf(log, id)))
    {
      HandlersRunAtMostOnce(history, id);
    }

    method Gate(name: string, handler: ToolFunc)
      requires Valid()
      modifies this`originals, this`gated, this`history
      ensures Valid() && history == old(history) + [Register(name)]
      ensures originals == old(originals)[name := handler] && gated == old(gated) + {name}
    {
      PlayConcat(START, history, [Register(name)]);
      PlayOne(Machine(), Register(name));
      originals := originals[name := handler];
      gated := gated + {name};
      history := history + [Register(name)];
    }

    /** A gated tool files the call for approval and runs nothing. */
    method SubmitAction(id: string, tool: string, args: string)
      requires Valid()
      modifies this`rows, this`history
      ensures Valid() && history == old(history) + [Submit(id, tool, args)]
      ensures rows == if id in old(rows) then old(rows) else old(rows)[id := Row(tool, args, Pending, "", "", "")]
    {
      PlayConcat(START, history, [Submit(id, tool, args)]);
      PlayOne(Machine(), Submit(id, tool, args));
      if id !in rows {
        rows := rows[id := Row(tool, args, Pending, "", "", "")];
      }
      history := history + [Submit(id, tool, args)];
    }

    /** The store's atomic swap from pending. */
    method ClaimAction(id: string, admin: string, applies: bool) returns (claimed: bool)
      modifies this`rows
      ensures claimed == (applies && id in old(rows) && old(rows)[id].status.Pending?)
      ensures rows == if applies then ClaimRow(old(rows), id, admin) else old(rows)
    {
      claimed := applies && id in rows && rows[id].status.Pending?;
      if claimed {
        rows := rows[id := rows[id].(status := Approved, decidedBy := admin)];
      }
    }

    /** The store's swap from approved. */
    method UpdateActionDecision(id: string, d: Row, applies: bool) returns (applied: bool)
      modifies this`rows
      ensures applied == (applies && id in old(rows) && old(rows)[id].status.Approved?)
      ensures rows == if applies then DecideRow(old(rows), id, d) else old(rows)
    {
      applied := applies && id in rows && rows[id].status.Approved?;
      if applied {
        rows := rows[id := rows[id].(status := d.status, decidedBy := d.decidedBy, result := d.result, error := d.error)];
      }
    }

    /** A call nobody interferes with extends the machine's run by its script, ending in its answer. */
    method Approve(id: string, admin: string, f: Faults) returns (answer: Option<Row>)
      requires Valid()
      modifies this`rows, this`log, this`history, this`nextCall
      ensures Valid() && nextCall == old(nextCall) + 1
      ensures history == old(history) + ApproveScript(old(nextCall), id, admin, Effect(originals, old(rows), id, admin), f)
      ensures Alone(Machine(), old(Machine()), old(nextCall), rows, Finished(id, answer), log)
    {
      hide Play, Apply, At;
      ghost var start, c := Machine(), nextCall;
      ghost var s := ApproveScript(c, id, admin, Effect(originals, rows, id, admin), f);
      PlayConcat(START, history, s);
      history, nextCall := history + s, nextCall + 1;
      answer := ApproveStored(id, admin, f, start, c);
    }

    method Reject(id: string, admin: string, reason: string, f: Faults) returns (answer: Option<Row>)
      requires Valid()
      modifies this`rows, this`history, this`nextCall
      ensures Valid() && nextCall == old(nextCall) + 1
      ensures history == old(history) + RejectScript(old(nextCall), id, admin, reason, f)
      ensures Alone(Machine(), old(Machine()), old(nextCall), rows, Finished(id, answer), log)
    {
      hide Play, Apply, At;
      ghost var start, c := Machine(), nextCall;
      ghost var s := RejectScript(c, id, admin, reason, f);
      PlayConcat(START, history, s);
      history, nextCall := history + s, nextCall + 1;
      answer := RejectStored(id, admin, reason, f, start, c);
    }

    /** The approval itself, against store and handlers. */
    method ApproveStored(id: string, admin: string, f: Faults, ghost start: System, ghost c: nat) returns (answer: Option<Row>)
      requires start.rows == rows && start.log == log && start.tools == originals.Keys && c !in start.calls
      modifies this`rows, this`log
      ensures Alone(Play(start, ApproveScript(c, id, admin, Effect(originals, old(rows), id, admin), f)), start, c, rows, Finished(id, answer), log)
    {
      hide Play, Apply, At, Alone;
      ghost var s := ApproveScript(c, id, admin, Effect(originals, rows, id, admin), f);
      Begun(start, s, c);
      Claiming(start, s, c, 1, rows, Approving(id, admin), log);
      answer := None;
      var claimed := ClaimAction(id, admin, f.claimApplies);
      if !f.claimReports || !claimed {
        Resting(start, s, c, 2, rows, Finished(id, None), log);
        return;
      }
      Loading(start, s, c, 2, rows, Claimed(id, admin), log);
      if !f.loads || rows[id].tool !in originals {
        Resting(start, s, c, 3, rows, Finished(id, None), log);
        return;
      }
      var action := rows[id];
      Executing(start, s, c, 3, rows, Loaded(id, admin, action), log);
      var outcome := originals[action.tool](admin, action.args);
      log := log + [Run(id, admin, outcome)];
      var failure := FailureOf(outcome);
      action := action.(decidedBy := admin, result := TextOf(outcome));
      if failure.Some? {
        action := action.(status := Failed, error := failure.value);
      } else {
        action := action.(status := Executed);
      }
      Deciding(start, s, c, 4, rows, Ran(id, action), log);
      var applied := UpdateActionDecision(id, action, f.decideApplies);
      if !f.decideReports || !applied {
        var failed := PersistFailed(action, f.trouble);
        Deciding(start, s, c, 5, rows, Retrying(id, failed), log);
        var _ := UpdateActionDecision(id, failed, f.retryApplies);
        Resting(start, s, c, 6, rows, Finished(id, None), log);
        return;
      }
      answer := Some(action);
      Resting(start, s, c, 5, rows, Finished(id, answer), log);
    }

    method RejectStored(id: string, admin: string, reason: string, f: Faults, ghost start: System, ghost c: nat) returns (answer: Option<Row>)
      requires start.rows == rows && start.log == log && start.tools == originals.Keys && c !in start.calls
      modifies this`rows
      ensures Alone(Play(start, RejectScript(c, id, admin, reason, f)), start, c, rows, Finished(id, answer), log)
    {
      hide Play, Apply, At, Alone;
      ghost var s := RejectScript(c, id, admin, reason, f);
      Begun(start, s, c);
      Loading(start, s, c, 1, rows, Rejecting(id, admin, reason), log);
      answer := None;
      if !f.loads || id !in rows || !rows[id].status.Pending? {
        Resting(start, s, c, 2, rows, Finished(id, None), log);
        return;
      }
      var action := Refusal(rows[id], admin, reason);
      Claiming(start, s, c, 2, rows, Checked(id, admin, action), log);
      var applied := ClaimAction(id, admin, f.claimApplies);
      if !f.claimReports || !applied {
        Resting(start, s, c, 3, rows, Finished(id, None), log);
        return;
      }
      Deciding(start, s, c, 3, rows, Holding(id, action), log);
      var decided := UpdateActionDecision(id, action, f.decideApplies);
      if f.decideReports && decided {
        answer := Some(action);
      }
      Resting(start, s, c, 4, rows, Finished(id, answer), log);
    }
  }

  lemma PlayOne(sys: System, s: Step)
    ensures Play(sys, [s]) == Apply(sys, s)
  {
    assert [s][..0] == [];
  }

  // ------------------------------------------------------------- following one call through its script

  /** Since `start` only call c has moved, and it stands at p. */
  predicate Alone(sys: System, start: System, c: nat, rows: map<string, Row>, p: Phase, log: seq<Run>) {
    sys.rows == rows && sys.calls == start.calls[c := p] && sys.log == log && sys.tools == start.tools
  }

  /** After k steps of the script. */
  predicate At(sys: System, script: seq<Step>, c: nat, k: nat, rows: map<string, Row>, p: Phase, log: seq<Run>)
    requires k <= |script|
  {
    Alone(Play(sys, script[..k]), sys, c, rows, p, log)
  }

  lemma Advance(sys: System, script: seq<Step>, k: nat)
    requires k < |script|
    ensures Play(sys, script[..k + 1]) == Apply(Play(sys, script[..k]), script[k])
  {
    assert script[..k + 1][..k] == script[..k];
  }

  lemma Begun(sys: System, script: seq<Step>, c: nat)
    requires script != [] && c !in sys.calls
    ensures script[0].BeginApprove? && script[0].c == c ==> At(sys, script, c, 1, sys.rows, Approving(script[0].id, script[0].admin), sys.log)
    ensures script[0].BeginReject? && script[0].c == c ==>
      At(sys, script, c, 1, sys.rows, Rejecting(script[0].id, script[0].admin, script[0].reason), sys.log)
  {
    Advance(sys, script, 0);
  }

  lemma Claiming(sys: System, script: seq<Step>, c: nat, k: nat, rows: map<string, Row>, p: Phase, log: seq<Run>)
    requires k < |script| && script[k].Claim? && script[k].c == c && At(sys, script, c, k, rows, p, log)
    requires p.Approving? || p.Checked?
    ensures var s := script[k];
      At(sys, script, c, k + 1, if s.applies then ClaimRow(rows, p.id, p.admin) else rows,
        AfterClaim(p, s.applies && p.id in rows && rows[p.id].status.Pending? && s.reports), log)
  {
    hide Play, AfterClaim, ClaimRow;
    Advance(sys, script, k);
  }

  lemma Loading(sys: System, script: seq<Step>, c: nat, k: nat, rows: map<string, Row>, p: Phase, log: seq<Run>)
    requires k < |script| && script[k].Load? && script[k].c == c && At(sys, script, c, k, rows, p, log)
    ensures At(sys, script, c, k + 1, rows, AfterLoad(sys.tools, rows, p, script[k].ok), log)
  {
    hide Play, AfterLoad;
    Advance(sys, script, k);
  }

  lemma Executing(sys: System, script: seq<Step>, c: nat, k: nat, rows: map<string, Row>, p: Phase, log: seq<Run>)
    requires k < |script| && script[k].Execute? && script[k].c == c && At(sys, script, c, k, rows, p, log) && p.Loaded?
    ensures At(sys, script, c, k + 1, rows, Ran(p.id, Verdict(p.row, p.admin, script[k].outcome)), log + [Run(p.id, p.admin, script[k].outcome)])
  {
    hide Play, Verdict;
    Advance(sys, script, k);
  }

  lemma Deciding(sys: System, script: seq<Step>, c: nat, k: nat, rows: map<string, Row>, p: Phase, log: seq<Run>)
    requires k < |script| && script[k].Decide? && script[k].c == c && At(sys, script, c, k, rows, p, log)
    requires p.Ran? || p.Retrying? || p.Holding?
    ensures var s := script[k];
      At(sys, script, c, k + 1, if s.applies then DecideRow(rows, p.id, p.decision) else rows,
        AfterDecide(p, s.applies && s.reports && p.id in rows && rows[p.id].status.Approved?, s.trouble), log)
  {
    hide Play, AfterDecide, DecideRow;
    Advance(sys, script, k);
  }

  /** A call that has returned takes no further steps. */
  lemma {:induction false} Resting(sys: System, script: seq<Step>, c: nat, k: nat, rows: map<string, Row>, p: Phase, log: seq<Run>)
    requires k <= |script| && At(sys, script, c, k, rows, p, log) && p.Finished?
    requires forall i :: k <= i < |script| ==> !script[i].Submit? && !script[i].Register? && script[i].c == c
    ensures Alone(Play(sys, script), sys, c, rows, p, log)
    decreases |script| - k
  {
    if k == |script| {
      assert script[..k] == script;
    } else {
      Advance(sys, script, k);
      Idling(Play(sys, script[..k]), sys, c, script[k], rows, p, log);
      Resting(sys, script, c, k + 1, rows, p, log);
    }
  }

  lemma Idling(sys: System, start: System, c: nat, s: Step, rows: map<string, Row>, p: Phase, log: seq<Run>)
    requires Alone(sys, start, c, rows, p, log) && p.Finished? && !s.Submit? && !s.Register? && s.c == c
    ensures Alone(Apply(sys, s), start, c, rows, p, log)
  {
  }

  /** The row a decision leaves behind. */
  predicate Decided(row: Row, was: Row, status: Status, admin: string, result: string, error: string) {
    row == Row(was.tool, was.args, status, admin, result, error)
  }

  /** Undisturbed and without faults, an approved action ends executed with the text its handler returned,
      or failed with the text and the error it returned, or failed with the panic it recovered from;
      decided by the admin each time. */
  lemma FaultlessApprovalRecords(originals: map<string, ToolFunc>, sys: System, c: nat, id: string, admin: string)
    requires c !in sys.calls && sys.tools == originals.Keys
    requires id in sys.rows && sys.rows[id].status.Pending? && sys.rows[id].tool in originals
    ensures var was, o := sys.rows[id], originals[sys.rows[id].tool](admin, sys.rows[id].args);
      var end := Play(sys, ApproveScript(c, id, admin, o, NO_FAULTS));
      && id in end.rows && end.log == sys.log + [Run(id, admin, o)]
      && match o
         case Returned(text, None) => Decided(end.rows[id], was, Executed, admin, text, was.error)
         case Returned(text, Some(failure)) => Decided(end.rows[id], was, Failed, admin, text, failure)
         case Panicked(message) => Decided(end.rows[id], was, Failed, admin, "", "tool handler panicked: " + message)
  {
    FaultlessApprovalDecides(originals, sys, c, id, admin);
    hide Play, ApproveScript;
  }

  /** When the action was claimed and its handler ran, the row keeps the first decision that reaches the
      store: what the handler did, else a failure naming the trouble with storing that; with neither
      it stays approved. The handler has run once in any case. */
  lemma LostDecisionIsMarkedFailed(originals: map<string, ToolFunc>, sys: System, c: nat, id: string, admin: string, f: Faults)
    requires c !in sys.calls && sys.tools == originals.Keys
    requires id in sys.rows && sys.rows[id].status.Pending? && sys.rows[id].tool in originals
    requires f.claimApplies && f.claimReports && f.loads && !f.decideApplies
    ensures var was, o := sys.rows[id], originals[sys.rows[id].tool](admin, sys.rows[id].args);
      var end := Play(sys, ApproveScript(c, id, admin, o, f));
      && id in end.rows && end.log == sys.log + [Run(id, admin, o)] && end.calls == sys.calls[c := Finished(id, None)]
      && if f.retryApplies then
           Decided(end.rows[id], was, Failed, admin, if o.Returned? then o.text else "", "decision persist failed: " + f.trouble)
         else
           Decided(end.rows[id], was, Approved, admin, was.result, was.error)
  {
    hide Play, Apply, At;
    var o := originals[sys.rows[id].tool](admin, sys.rows[id].args);
    var s := ApproveScript(c, id, admin, o, f);
    Begun(sys, s, c);
    Claiming(sys, s, c, 1, sys.rows, Approving(id, admin), sys.log);
    var rows := ClaimRow(sys.rows, id, admin);
    Loading(sys, s, c, 2, rows, Claimed(id, admin), sys.log);
    Executing(sys, s, c, 3, rows, Loaded(id, admin, rows[id]), sys.log);
    var log := sys.log + [Run(id, admin, o)];
    var d := Verdict(rows[id], admin, o);
    Deciding(sys, s, c, 4, rows, Ran(id, d), log);
    var failed := PersistFailed(d, f.trouble);
    Deciding(sys, s, c, 5, rows, Retrying(id, failed), log);
    Resting(sys, s, c, 6, if f.retryApplies then DecideRow(rows, id, failed) else rows, Finished(id, None), log);
  }

  /** Undisturbed and without faults, rejecting a pending action runs nothing and records admin and reason. */
  lemma FaultlessRejectRecords(sys: System, c: nat, id: string, admin: string, reason: string)
    requires c !in sys.calls && id in sys.rows && sys.rows[id].status.Pending?
    ensures var was := sys.rows[id];
      var end := Play(sys, RejectScript(c, id, admin, reason, NO_FAULTS));
      && id in end.rows && end.log == sys.log && end.rows == sys.rows[id := end.rows[id]]
      && Decided(end.rows[id], was, Rejected, admin, "rejected: " + reason, was.error)
      && c in end.calls && end.calls[c].Finished? && end.calls[c].answer.Some?
  {
    hide Play, Apply, At;
    var s := RejectScript(c, id, admin, reason, NO_FAULTS);
    Begun(sys, s, c);
    Loading(sys, s, c, 1, sys.rows, Rejecting(id, admin, reason), sys.log);
    var d := Refusal(sys.rows[id], admin, reason);
    Claiming(sys, s, c, 2, sys.rows, Checked(id, admin, d), sys.log);
    var rows := ClaimRow(sys.rows, id, admin);
    Deciding(sys, s, c, 3, rows, Holding(id, d), sys.log);
    Resting(sys, s, c, 4, DecideRow(rows, id, d), Finished(id, Some(d)), sys.log);
  }

  /** Undisturbed and without faults, approving a pending action of a registered tool runs its
      handler once and records the outcome. */
  lemma FaultlessApprovalDecides(originals: map<string, ToolFunc>, sys: System, c: nat, id: string, admin: string)
    requires c !in sys.calls && sys.tools == originals.Keys
    requires id in sys.rows && sys.rows[id].status.Pending? && sys.rows[id].tool in originals
    ensures var o := originals[sys.rows[id].tool](admin, sys.rows[id].args);
      var end := Play(sys, ApproveScript(c, id, admin, o, NO_FAULTS));
      && end.log == sys.log + [Run(id, admin, o)]
      && end.rows == sys.rows[id := Verdict(sys.rows[id], admin, o)]
      && Terminal(end.rows[id].status)
  {
    hide Play, Apply, At;
    var o := originals[sys.rows[id].tool](admin, sys.rows[id].args);
    var s := ApproveScript(c, id, admin, o, NO_FAULTS);
    Begun(sys, s, c);
    Claiming(sys, s, c, 1, sys.rows, Approving(id, admin), sys.log);
    var rows := ClaimRow(sys.rows, id, admin);
    Loading(sys, s, c, 2, rows, Claimed(id, admin), sys.log);
    Executing(sys, s, c, 3, rows, Loaded(id, admin, rows[id]), sys.log);
    var log := sys.log + [Run(id, admin, o)];
    var d := Verdict(rows[id], admin, o);
    Deciding(sys, s, c, 4, rows, Ran(id, d), log);
    Resting(sys, s, c, 5, DecideRow(rows, id, d), Finished(id, Some(d)), log);
  }
}
