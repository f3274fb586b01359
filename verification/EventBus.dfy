/**
 * The in-memory event bus. Registrations sit in slices that are appended to and shifted in
 * place; publishing copies the slice and dispatches from the copy, so handlers may register and
 * unregister while a publish is under way.
 */
module EventBus {
  import opened Common

  /** A registration: the identity Subscribe gave it, and the handler's name. */
  datatype Reg = Reg(id: nat, handler: string)

  datatype Outcome = Fine | Failed(error: string) | Panicked(reason: string)

  datatype Op = Join(topic: string, handler: string) | Leave(topic: string, id: nat)

  // ------------------------------------------------------------- the bus as a value

  datatype Bus = Bus(subs: map<string, seq<Reg>>, next: nat)

  function On(b: Bus, topic: string): seq<Reg> {
    if topic in b.subs then b.subs[topic] else []
  }

  /** The sequence without its first registration of that identity. */
  function Without(s: seq<Reg>, id: nat): seq<Reg> {
    if s == [] then [] else if s[0].id == id then s[1..] else [s[0]] + Without(s[1..], id)
  }

  function Perform(b: Bus, op: Op): Bus {
    match op
    case Join(topic, h) => Bus(b.subs[topic := On(b, topic) + [Reg(b.next, h)]], b.next + 1)
    case Leave(topic, id) => if topic in b.subs then b.(subs := b.subs[topic := Without(b.subs[topic], id)]) else b
  }

  function PerformAll(b: Bus, ops: seq<Op>): Bus {
    if ops == [] then b else Perform(PerformAll(b, ops[..|ops| - 1]), ops[|ops| - 1])
  }

  ghost predicate Distinct(s: seq<Reg>) {
    forall i, j :: 0 <= i < j < |s| ==> s[i].id != s[j].id
  }

  ghost predicate DistinctWithin(b: Bus) {
    forall t :: t in b.subs ==> Distinct(b.subs[t])
  }

  ghost predicate IdsBelow(b: Bus) {
    forall t, i :: t in b.subs && 0 <= i < |b.subs[t]| ==> b.subs[t][i].id < b.next
  }

  ghost predicate TopicsApart(b: Bus) {
    forall t, u, i, j :: t in b.subs && u in b.subs && t != u && 0 <= i < |b.subs[t]| && 0 <= j < |b.subs[u]| ==>
      b.subs[t][i].id != b.subs[u][j].id
  }

  /** Identities are never reused within a topic, nor across topics. */
  ghost predicate WellFormed(b: Bus) {
    DistinctWithin(b) && IdsBelow(b) && TopicsApart(b)
  }

  /** The registrations of every other identity, in order. */
  function Others(s: seq<Reg>, id: nat): seq<Reg> {
    if s == [] then [] else (if s[0].id == id then [] else [s[0]]) + Others(s[1..], id)
  }

  lemma {:induction false} OthersMembers(s: seq<Reg>, id: nat)
    ensures forall r :: r in Others(s, id) <==> r in s && r.id != id
    ensures Distinct(s) ==> Distinct(Others(s, id))
  {
    if s != [] {
      OthersMembers(s[1..], id);
      assert s == [s[0]] + s[1..];
    }
  }

  lemma {:induction false} OthersOfNone(s: seq<Reg>, id: nat)
    requires forall i :: 0 <= i < |s| ==> s[i].id != id
    ensures Others(s, id) == s
  {
    if s != [] { OthersOfNone(s[1..], id); }
  }

  /** Removing the first registration found removes exactly that identity and keeps the others'
      order; doing it again changes nothing. */
  lemma {:induction false} UnsubscribeRemovesOnlyItself(s: seq<Reg>, id: nat)
    requires Distinct(s)
    ensures Without(s, id) == Others(s, id)
    ensures Without(Without(s, id), id) == Without(s, id)
  {
    if s != [] {
      UnsubscribeRemovesOnlyItself(s[1..], id);
      if s[0].id == id {
        OthersOfNone(s[1..], id);
        WithoutAbsent(s[1..], id);
      }
    }
  }

  lemma {:induction false} WithoutAbsent(s: seq<Reg>, id: nat)
    requires forall i :: 0 <= i < |s| ==> s[i].id != id
    ensures Without(s, id) == s
  {
    if s != [] { WithoutAbsent(s[1..], id); }
  }

  lemma {:induction false} WithoutAt(s: seq<Reg>, i: nat)
    requires i < |s| && forall j :: 0 <= j < i ==> s[j].id != s[i].id
    ensures Without(s, s[i].id) == s[..i] + s[i + 1..]
  {
    if i > 0 {
      WithoutAt(s[1..], i - 1);
      assert s[..i] == [s[0]] + s[1..][..i - 1];
    }
  }

  lemma PerformKeepsWellFormed(b: Bus, op: Op)
    requires WellFormed(b)
    ensures WellFormed(Perform(b, op))
  {
    if op.Leave? && op.topic in b.subs {
      UnsubscribeRemovesOnlyItself(b.subs[op.topic], op.id);
      OthersMembers(b.subs[op.topic], op.id);
      LeaveKeepsWellFormed(b, op.topic, Others(b.subs[op.topic], op.id));
    } else if op.Join? {
      JoinKeepsWellFormed(b, op.topic, op.handler);
    }
  }

  lemma LeaveKeepsWellFormed(b: Bus, topic: string, rest: seq<Reg>)
    requires WellFormed(b) && topic in b.subs && Distinct(rest)
    requires forall r :: r in rest ==> r in b.subs[topic]
    ensures WellFormed(b.(subs := b.subs[topic := rest]))
  {
    forall i | 0 <= i < |rest|
      ensures rest[i].id < b.next
      ensures forall u, j :: u in b.subs && u != topic && 0 <= j < |b.subs[u]| ==> rest[i].id != b.subs[u][j].id
    {
      assert rest[i] in b.subs[topic];
      var k: nat :| k < |b.subs[topic]| && b.subs[topic][k] == rest[i];
    }
  }

  lemma JoinKeepsWellFormed(b: Bus, topic: string, handler: string)
    requires WellFormed(b)
    ensures WellFormed(Perform(b, Join(topic, handler)))
  {
    hide DistinctWithin, IdsBelow, TopicsApart, Perform;
    JoinKeepsDistinct(b, topic, handler);
    JoinKeepsBelow(b, topic, handler);
    JoinKeepsApart(b, topic, handler);
  }

  lemma JoinKeepsDistinct(b: Bus, topic: string, handler: string)
    requires DistinctWithin(b) && IdsBelow(b)
    ensures DistinctWithin(Perform(b, Join(topic, handler)))
  {
  }

  lemma JoinKeepsBelow(b: Bus, topic: string, handler: string)
    requires IdsBelow(b)
    ensures IdsBelow(Perform(b, Join(topic, handler)))
  {
  }

  lemma JoinKeepsApart(b: Bus, topic: string, handler: string)
    requires IdsBelow(b) && TopicsApart(b)
    ensures TopicsApart(Perform(b, Join(topic, handler)))
  {
  }

  // ------------------------------------------------------------- publishes interleaved with everything else

  /** A publish under way: the copy it took, and what its handlers did so far. */
  datatype Publishing = Publishing(snapshot: seq<Reg>, log: seq<(Reg, Outcome)>)

  datatype System = System(bus: Bus, publishes: map<nat, Publishing>)

  /** A handler's own subscriptions and publishes are steps of their own. */
  datatype Step =
    | Do(op: Op)
    | Begin(p: nat, topic: string)
    | Dispatch(p: nat, outcome: Outcome)

  const START := System(Bus(map[], 0), map[])

  function Apply(sys: System, s: Step): System {
    match s
    case Do(op) => sys.(bus := Perform(sys.bus, op))
    case Begin(p, topic) =>
      if p in sys.publishes then sys else sys.(publishes := sys.publishes[p := Publishing(On(sys.bus, topic), [])])
    case Dispatch(p, outcome) =>
      if p in sys.publishes && |sys.publishes[p].log| < |sys.publishes[p].snapshot| then
        var u := sys.publishes[p];
        sys.(publishes := sys.publishes[p := u.(log := u.log + [(u.snapshot[|u.log|], outcome)])])
      else sys
  }

  function Play(sys: System, steps: seq<Step>): System {
    if steps == [] then sys else Apply(Play(sys, steps[..|steps| - 1]), steps[|steps| - 1])
  }

  function Dispatches(p: nat, steps: seq<Step>): nat {
    if steps == [] then 0 else
      Dispatches(p, steps[..|steps| - 1]) + if steps[|steps| - 1].Dispatch? && steps[|steps| - 1].p == p then 1 else 0
  }

  function Called(log: seq<(Reg, Outcome)>): seq<Reg> {
    seq(|log|, i requires 0 <= i < |log| => log[i].0)
  }

  lemma StepKeepsPublish(sys: System, s: Step, p: nat)
    requires p in sys.publishes
    ensures var u, v := sys.publishes[p], Apply(sys, s).publishes[p];
      && p in Apply(sys, s).publishes && v.snapshot == u.snapshot
      && (if s.Dispatch? && s.p == p && |u.log| < |u.snapshot|
          then v.log == u.log + [(u.snapshot[|u.log|], s.outcome)] else v.log == u.log)
  {
    hide Perform;
  }

  /** Whatever is subscribed, unsubscribed or published meanwhile, and however the handlers end:
      a publish calls exactly the handlers registered when it began, in registration order, one
      for each time it is scheduled, until all have been called. */
  lemma {:induction false} EveryHandlerOnceInOrder(sys: System, p: nat, topic: string, rest: seq<Step>)
    requires p !in sys.publishes
    ensures var end := Play(Apply(sys, Begin(p, topic)), rest);
      && p in end.publishes && end.publishes[p].snapshot == On(sys.bus, topic)
      && Called(end.publishes[p].log) == On(sys.bus, topic)[..Min(Dispatches(p, rest), |On(sys.bus, topic)|)]
  {
    hide Perform, Apply;
    if rest == [] {
      assert p in Apply(sys, Begin(p, topic)).publishes
        && Apply(sys, Begin(p, topic)).publishes[p] == Publishing(On(sys.bus, topic), []) by { BeginCopies(sys, p, topic); }
    } else {
      var n := |rest| - 1;
      EveryHandlerOnceInOrder(sys, p, topic, rest[..n]);
      StepKeepsPublish(Play(Apply(sys, Begin(p, topic)), rest[..n]), rest[n], p);
    }
  }

  lemma BeginCopies(sys: System, p: nat, topic: string)
    requires p !in sys.publishes
    ensures p in Apply(sys, Begin(p, topic)).publishes
      && Apply(sys, Begin(p, topic)).publishes[p] == Publishing(On(sys.bus, topic), [])
  {
  }

  /** In every reachable state identities are distinct, so no registration is called twice by one publish. */
  lemma {:induction false} NoHandlerTwice(steps: seq<Step>, p: nat)
    ensures var end := Play(START, steps);
      WellFormed(end.bus) && (p in end.publishes ==> Distinct(end.publishes[p].snapshot))
  {
    hide Perform, WellFormed, Distinct;
    if steps == [] {
      assert WellFormed(START.bus) by { StartWellFormed(); }
    } else {
      var n := |steps| - 1;
      NoHandlerTwice(steps[..n], p);
      var before := Play(START, steps[..n]);
      if steps[n].Do? { PerformKeepsWellFormed(before.bus, steps[n].op); }
      if steps[n].Begin? { TopicsDistinct(before.bus, steps[n].topic); }
    }
  }

  lemma StartWellFormed()
    ensures WellFormed(START.bus)
  {
  }

  lemma TopicsDistinct(b: Bus, topic: string)
    requires WellFormed(b)
    ensures Distinct(On(b, topic))
  {
  }

  // ------------------------------------------------------------- slices in memory

  /** The first `len` cells of a backing array. */
  datatype Slice = Slice(buf: array<Reg>, len: nat)

  class InMemoryBus {
    var subs: map<string, Slice>
    var next: nat

    constructor ()
      ensures Valid() && View() == START.bus && Buffers() == {}
    {
      subs, next := map[], 0;
    }

    function Buffers(): set<array<Reg>>
      reads this`subs
    {
      set t | t in subs :: subs[t].buf
    }

    /** Every topic has a backing array of its own. */
    ghost predicate Valid()
      reads this`subs
    {
      && (forall t :: t in subs ==> subs[t].len <= subs[t].buf.Length)
      && (forall t, u :: t in subs && u in subs && t != u ==> subs[t].buf != subs[u].buf)
    }

    function Contents(): map<string, seq<Reg>>
      reads this`subs, Buffers()
      requires Valid()
    {
      map t | t in subs :: subs[t].buf[..subs[t].len]
    }

    function View(): Bus
      reads this, Buffers()
      requires Valid()
    {
      Bus(Contents(), next)
    }

    method Subscribe(topic: string, handler: string) returns (id: nat)
      requires Valid()
      modifies this, Buffers()
      ensures Valid() && View() == Perform(old(View()), Join(topic, handler)) && id == old(next)
      ensures forall b :: b in Buffers() ==> b in old(Buffers()) || fresh(b)
    {
      hide Contents;
      id := next;
      var s := Appended(topic, Reg(id, handler));
      Put(topic, s);
      Rebuilt(old(Contents()), Contents(), topic);
      next := next + 1;
    }

    method Appended(topic: string, r: Reg) returns (s: Slice)
      requires Valid()
      modifies Buffers()
      ensures s.len <= s.buf.Length && s.buf[..s.len] == On(Bus(old(Contents()), next), topic) + [r]
      ensures Contents() - {topic} == old(Contents()) - {topic}
      ensures forall t :: t in subs && t != topic ==> subs[t].buf != s.buf
      ensures s.buf in Buffers() || fresh(s.buf)
    {
      if topic in subs {
        s := Append(subs[topic], r);
      } else {
        var buf := new Reg[1](_ => r);
        s := Slice(buf, 1);
        assert buf[..1] == [r];
      }
    }

    /** Removes the registration by identity, in place. */
    method Unsubscribe(topic: string, id: nat)
      requires Valid()
      modifies Buffers(), this`subs
      ensures Valid() && View() == Perform(old(View()), Leave(topic, id))
      ensures Buffers() <= old(Buffers())
    {
      hide Without, Contents;
      Cells(topic);
      if topic !in subs {
        return;
      }
      ghost var was := Contents()[topic];
      var s := subs[topic];
      var i := IndexOf(s, id);
      if i == s.len {
        WithoutAbsent(was, id);
        assert Contents()[topic := was] == Contents();
        return;
      }
      WithoutAt(was, i);
      Shift(topic, i);
      Put(topic, Slice(s.buf, s.len - 1));
      Rebuilt(old(Contents()), Contents(), topic);
    }

    method Shift(topic: string, i: nat)
      requires Valid() && topic in subs && i < subs[topic].len
      modifies Buffers()
      ensures var was := old(Contents())[topic];
        |was| == subs[topic].len && subs[topic].buf[..subs[topic].len - 1] == was[..i] + was[i + 1..]
      ensures Contents() - {topic} == old(Contents()) - {topic}
    {
      ShiftLeft(subs[topic].buf, i, subs[topic].len);
    }

    /** Points a topic at a slice no other topic uses. */
    method Put(topic: string, s: Slice)
      requires Valid() && s.len <= s.buf.Length
      requires forall t :: t in subs && t != topic ==> subs[t].buf != s.buf
      modifies this`subs
      ensures Valid() && topic in Contents() && Contents()[topic] == s.buf[..s.len]
      ensures Contents() - {topic} == old(Contents()) - {topic}
      ensures Buffers() <= old(Buffers()) + {s.buf}
    {
      subs := subs[topic := s];
    }

    lemma Cells(topic: string)
      requires Valid()
      ensures topic in Contents() <==> topic in subs
      ensures topic in subs ==> Contents()[topic] == subs[topic].buf[..subs[topic].len]
    {
    }

    /** The copy Publish dispatches from: an array of its own, so that no later registration or
        removal, which change the backing arrays in place, can reach it. */
    method Snapshot(topic: string) returns (handlers: array<Reg>)
      requires Valid()
      ensures fresh(handlers) && handlers[..] == On(View(), topic)
    {
      if topic in subs {
        var s := subs[topic];
        handlers := new Reg[s.len](i requires 0 <= i < s.len && s.len <= s.buf.Length reads s.buf => s.buf[i]);
      } else {
        handlers := new Reg[0];
      }
    }

    method Do(op: Op)
      requires Valid()
      modifies this, Buffers()
      ensures Valid() && View() == Perform(old(View()), op)
      ensures forall b :: b in Buffers() ==> b in old(Buffers()) || fresh(b)
    {
      match op
      case Join(topic, h) => var _ := Subscribe(topic, h);
      case Leave(topic, id) => Unsubscribe(topic, id);
    }

    /** Calls every handler of the copy in order. The i-th reacts with an outcome and with
        subscriptions of its own; errors and panics are logged and the next handler runs. */
    method Publish(topic: string, reactions: seq<Reaction>) returns (called: seq<Reg>, logged: seq<(Reg, Outcome)>)
      requires Valid() && |reactions| == |On(View(), topic)|
      modifies this, Buffers()
      ensures Valid() && View() == React(old(View()), reactions)
      ensures called == On(old(View()), topic)
      ensures logged == Complaints(On(old(View()), topic), reactions)
    {
      hide Contents, Perform, PerformAll, On;
      called, logged := [], [];
      var handlers := Snapshot(topic);
      ghost var snap := handlers[..];
      for i := 0 to handlers.Length
        invariant Valid() && handlers !in Buffers() && handlers[..] == snap
        invariant forall b :: b in Buffers() ==> b in old(Buffers()) || fresh(b)
        invariant View() == React(old(View()), reactions[..i])
        invariant called == snap[..i] && logged == Complaints(snap[..i], reactions[..i])
      {
        assert reactions[..i + 1][..i] == reactions[..i] && snap[..i + 1][..i] == snap[..i];
        var rh := handlers[i];
        called := called + [rh];
        if reactions[i].outcome != Fine {
          logged := logged + [(rh, reactions[i].outcome)];
        }
        DoAll(reactions[i].ops, handlers);
      }
      assert reactions[..|reactions|] == reactions && snap[..|snap|] == snap;
    }

    method DoAll(ops: seq<Op>, bystander: array<Reg>)
      requires Valid() && bystander !in Buffers()
      modifies this, Buffers()
      ensures Valid() && View() == PerformAll(old(View()), ops)
      ensures forall b :: b in Buffers() ==> b in old(Buffers()) || fresh(b)
    {
      for n := 0 to |ops|
        invariant Valid() && View() == PerformAll(old(View()), ops[..n])
        invariant forall b :: b in Buffers() ==> b in old(Buffers()) || fresh(b)
      {
        assert ops[..n + 1][..n] == ops[..n];
        Do(ops[n]);
      }
      assert ops[..|ops|] == ops;
    }
  }

  lemma Rebuilt(m: map<string, seq<Reg>>, n: map<string, seq<Reg>>, topic: string)
    requires topic in n && n - {topic} == m - {topic}
    ensures n == m[topic := n[topic]]
  {
    assert forall t :: t != topic ==> (t in m <==> t in m - {topic}) && (t in n <==> t in n - {topic});
    assert forall t :: t in m - {topic} ==> m[t] == (m - {topic})[t] && n[t] == (n - {topic})[t];
  }

  /** Appends in place when the backing array has room, else to a larger copy. */
  method Append(s: Slice, r: Reg) returns (longer: Slice)
    requires s.len <= s.buf.Length
    modifies s.buf
    ensures longer.buf == s.buf || fresh(longer.buf)
    ensures longer.len == s.len + 1 <= longer.buf.Length
    ensures longer.buf[..longer.len] == old(s.buf[..s.len]) + [r]
  {
    if s.len < s.buf.Length {
      s.buf[s.len] := r;
      longer := Slice(s.buf, s.len + 1);
    } else {
      var buf := new Reg[2 * s.len + 1](i requires 0 <= i reads s.buf => if i < s.len <= s.buf.Length then s.buf[i] else r);
      longer := Slice(buf, s.len + 1);
    }
  }

  method IndexOf(s: Slice, id: nat) returns (i: nat)
    requires s.len <= s.buf.Length
    ensures i <= s.len && (i < s.len ==> s.buf[i].id == id)
    ensures forall j :: 0 <= j < i ==> s.buf[j].id != id
  {
    i := 0;
    while i < s.len && s.buf[i].id != id
      invariant i <= s.len
      invariant forall j :: 0 <= j < i ==> s.buf[j].id != id
    {
      i := i + 1;
    }
  }

  /** Moves the cells after i one place to the left, within the first n. */
  method ShiftLeft(buf: array<Reg>, i: nat, n: nat)
    requires i < n <= buf.Length
    modifies buf
    ensures buf[..n - 1] == old(buf[..i] + buf[i + 1..n])
  {
    for k := i to n - 1
      invariant forall j :: 0 <= j < n ==> buf[j] == old(buf[if i <= j < k then j + 1 else j])
    {
      buf[k] := buf[k + 1];
    }
  }

  // ------------------------------------------------------------- one publish on its own

  /** How one handler ends, and what it asked of the bus while it ran. */
  datatype Reaction = Reaction(outcome: Outcome, ops: seq<Op>)

  function React(b: Bus, reactions: seq<Reaction>): Bus {
    if reactions == [] then b else
      PerformAll(React(b, reactions[..|reactions| - 1]), reactions[|reactions| - 1].ops)
  }

  /** The k-th handler is r and ended in failure or panic with o. */
  predicate Misbehaved(regs: seq<Reg>, reactions: seq<Reaction>, k: nat, r: Reg, o: Outcome) {
    k < |regs| && k < |reactions| && regs[k] == r && reactions[k].outcome == o && (o.Failed? || o.Panicked?)
  }

  /** Exactly the handlers that failed or panicked are complained about, each with what it did. */
  lemma {:induction false} NoFailureIsSwallowed(regs: seq<Reg>, reactions: seq<Reaction>, r: Reg, o: Outcome)
    requires |regs| == |reactions|
    ensures (r, o) in Complaints(regs, reactions) <==> exists k: nat :: Misbehaved(regs, reactions, k, r, o)
  {
    if regs != [] {
      var n := |regs| - 1;
      NoFailureIsSwallowed(regs[..n], reactions[..n], r, o);
      LastComplaint(regs, reactions, r, o);
      hide Complaints;
      assert forall k: nat :: k < n ==> (Misbehaved(regs[..n], reactions[..n], k, r, o) <==> Misbehaved(regs, reactions, k, r, o));
      hide Misbehaved;
    }
  }

  lemma LastComplaint(regs: seq<Reg>, reactions: seq<Reaction>, r: Reg, o: Outcome)
    requires |regs| == |reactions| && regs != []
    ensures var n := |regs| - 1;
      (r, o) in Complaints(regs, reactions) <==> (r, o) in Complaints(regs[..n], reactions[..n]) || Misbehaved(regs, reactions, n, r, o)
  {
  }

  /** The handlers that failed or panicked, in order: none is swallowed. */
  function Complaints(regs: seq<Reg>, reactions: seq<Reaction>): seq<(Reg, Outcome)>
    requires |regs| == |reactions|
  {
    if regs == [] then [] else
      var n := |regs| - 1;
      Complaints(regs[..n], reactions[..n])
      + if reactions[n].outcome != Fine then [(regs[n], reactions[n].outcome)] else []
  }
}
