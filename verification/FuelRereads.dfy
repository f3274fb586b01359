/**
 * Rows fed again. The live query compares stored times with the watermark as text, so a row may
 * compare as newer than its own watermark. The theorems say when that happens, which rows a sweep
 * then repeats, and what is left of at-most-once processing.
 */
module FuelRereads {
  import opened Common
  import opened FuelModel
  import opened FuelRuns
  import opened FuelSweeps
  import opened FuelBatching

  // ------------------------------------------------------------- stored times as text

  /** a comes after b when compared character by character, a longer text after its own prefix. */
  predicate TextAfter(a: string, b: string) {
    if a == [] then false
    else if b == [] then true
    else a[0] > b[0] || (a[0] == b[0] && TextAfter(a[1..], b[1..]))
  }

  /** A stored time: the date, a separator, the time of day to the second, and whatever follows. */
  function Stored(date: string, separator: char, time: string, rest: string): string {
    date + ([separator] + (time + rest))
  }

  /** The watermark as the query writes it. */
  function WatermarkText(date: string, time: string): string {
    date + ([' '] + time)
  }

  lemma {:induction false} AfterJoined(a: string, b: string, c: string, d: string)
    requires |a| == |b|
    ensures TextAfter(a + c, b + d) <==> TextAfter(a, b) || (a == b && TextAfter(c, d))
  {
    if a == [] {
      assert a + c == c && b + d == d;
    } else {
      assert (a + c)[1..] == a[1..] + c && (b + d)[1..] == b[1..] + d;
      assert a == [a[0]] + a[1..] && b == [b[0]] + b[1..];
      AfterJoined(a[1..], b[1..], c, d);
    }
  }

  lemma {:induction false} NotAfterItself(a: string)
    ensures !TextAfter(a, a)
  {
    if a != [] { NotAfterItself(a[1..]); }
  }

  lemma AfterBlank(c: char)
    ensures TextAfter([c], [' ']) <==> c > ' '
  {
    assert [c][1..] == [];
  }

  lemma AfterNothing(a: string)
    ensures TextAfter(a, []) <==> a != []
  {
  }

  lemma AfterOnTheDay(separator: char, time: string, rest: string, time': string)
    requires |time| == |time'|
    ensures TextAfter([separator] + (time + rest), [' '] + time') <==>
      separator > ' ' || (separator == ' ' && (TextAfter(time, time') || (time == time' && rest != [])))
  {
    hide TextAfter;
    AfterJoined([separator], [' '], time + rest, time');
    AfterBlank(separator);
    AfterJoined(time, time', rest, []);
    AfterNothing(rest);
    assert time' + [] == time';
    assert [separator] == [' '] ==> separator == ' ' by {
      if [separator] == [' '] { assert [separator][0] == [' '][0]; }
    }
  }

  /** A stored time passes a watermark when its date is later; or on the same date when its separator
      comes after a blank, whatever the two times of day; or, separated by a blank too, when its
      time of day is later or is the same and something follows it. */
  lemma StoredTimePasses(date: string, separator: char, time: string, rest: string, date': string, time': string)
    requires |date| == |date'| && |time| == |time'|
    ensures TextAfter(Stored(date, separator, time, rest), WatermarkText(date', time')) <==>
      || TextAfter(date, date')
      || (date == date' &&
          (separator > ' ' || (separator == ' ' && (TextAfter(time, time') || (time == time' && rest != [])))))
  {
    hide TextAfter;
    AfterJoined(date, date', [separator] + (time + rest), [' '] + time');
    AfterOnTheDay(separator, time, rest, time');
  }

  /** So a stored time passes its own watermark exactly when its separator comes after a blank or,
      being a blank, something follows the seconds. */
  lemma OwnWatermarkPassed(date: string, separator: char, time: string, rest: string)
    ensures TextAfter(Stored(date, separator, time, rest), WatermarkText(date, time)) <==>
      separator > ' ' || (separator == ' ' && rest != [])
  {
    StoredTimePasses(date, separator, time, rest, date, time);
    NotAfterItself(date);
    NotAfterItself(time);
  }

  // ------------------------------------------------------------- when a sweep goes back

  /** The sweep made a call for a row it had made a call for before. */
  ghost predicate Repeats(sys: System, next: System) {
    exists k :: |sys.calls| <= k < |next.calls| && Fed(sys.calls, next.calls[k].s)
  }

  /** The sweep made a call for a row not newer than the watermark it started from. */
  ghost predicate GoesBack(sys: System, next: System)
    requires sys.entry.Some?
  {
    exists k :: |sys.calls| <= k < |next.calls| && next.calls[k].s.ts <= sys.entry.value.lastTs
  }

  lemma FirstOfBatch(rows: seq<Snapshot>, after: nat, batch: seq<Snapshot>, r: Snapshot)
    requires after != 0 && IsAfter(rows, after, batch) && r in rows && Passes(r, after)
    ensures batch != [] && batch[0].ts <= r.ts
  {
    var p: seq<Snapshot> :| Arranges(p, Newer(rows, after)) && batch == Capped(p);
    NewerMembers(rows, after);
    hide Newer, Passes;
    assert r in multiset(Newer(rows, after));
    var k: nat :| k < |p| && p[k] == r;
    if k > 0 { assert p[0].ts <= p[k].ts; }
  }

  /** A live sweep goes back behind its watermark if and only if some row at or before the watermark
      passes it; for any arrivals, caps and failures. */
  lemma GoesBackIffSomeRowPasses(v: Vehicle, cfg: Config, oracle: nat -> Commits, sys: System, batch: seq<Snapshot>)
    requires cfg.Valid() && Consistent(v, cfg, sys) && Legal(cfg, sys, Sweep(batch))
    requires sys.entry.Some? && sys.calls != []
    ensures var mark := sys.entry.value.lastTs;
      GoesBack(sys, Apply(v, cfg, oracle, sys, Sweep(batch))) <==> exists r: Snapshot :: r in sys.rows && r.ts <= mark && Passes(r, mark)
  {
    hide Run, Feed, Apply, Passes, DistinctIds, CallsBelow, IsAfter;
    var mark := sys.entry.value.lastTs;
    var next := Apply(v, cfg, oracle, sys, Sweep(batch));
    LegalBatch(cfg, sys, batch);
    SweepFeedsPrefix(v, cfg, oracle, sys, batch);
    if GoesBack(sys, next) {
      var k :| |sys.calls| <= k < |next.calls| && next.calls[k].s.ts <= mark;
      assert next.calls[|sys.calls| + (k - |sys.calls|)].s == batch[k - |sys.calls|];
    }
    forall r: Snapshot | r in sys.rows && r.ts <= mark && Passes(r, mark) ensures GoesBack(sys, next) {
      FirstOfBatch(sys.rows, mark, batch, r);
      assert next.calls[|sys.calls| + 0].s == batch[0];
    }
  }

  // ------------------------------------------------------------- arrivals in order

  /** The snapshots of the calls, immediate repetitions left out. */
  function Seen(calls: seq<Input>): seq<Snapshot> {
    if calls == [] then [] else
      var before, s := Seen(calls[..|calls| - 1]), calls[|calls| - 1].s;
      if before != [] && before[|before| - 1] == s then before else before + [s]
  }

  /** Legal actions in which every arrival is newer than all earlier ones and passes at most its own watermark. */
  ghost predicate NearPlay(v: Vehicle, cfg: Config, oracle: nat -> Commits, actions: seq<Action>)
    requires cfg.Valid()
  {
    actions == [] ||
    var before, a := actions[..|actions| - 1], actions[|actions| - 1];
    var sys := Play(v, cfg, oracle, START, before);
    && NearPlay(v, cfg, oracle, before) && Legal(cfg, sys, a)
    && (a.Arrive? ==> a.s.reach <= 1 && forall r :: r in sys.rows ==> r.ts < a.s.ts)
  }

  /** The calls were for the rows from `skipped` up to `to`, in order, each perhaps several times in a row. */
  ghost predicate SeenTo(rows: seq<Snapshot>, skipped: nat, calls: seq<Input>, to: nat) {
    skipped <= to <= |rows| && Seen(calls) == rows[skipped..to]
  }

  /** The row behind the last one seen. */
  function Reached(sys: System): nat {
    sys.skipped + |Seen(sys.calls)|
  }

  ghost predicate Walks(sys: System) {
    Strict(sys.rows) && Near(sys.rows) && SeenTo(sys.rows, sys.skipped, sys.calls, Reached(sys))
  }

  lemma SeenStep(calls: seq<Input>, i: Input)
    ensures var seen := Seen(calls);
      Seen(calls + [i]) == if seen != [] && seen[|seen| - 1] == i.s then seen else seen + [i.s]
  {
    assert (calls + [i])[..|calls + [i]| - 1] == calls;
  }

  lemma SeenOneMore(rows: seq<Snapshot>, skipped: nat, calls: seq<Input>, to: nat, at: nat, i: Input)
    requires Strict(rows) && SeenTo(rows, skipped, calls, to)
    requires at < |rows| && i.s == rows[at] && (at == to || (to > skipped && at == to - 1))
    ensures SeenTo(rows, skipped, calls + [i], at + 1)
  {
    SeenStep(calls, i);
    hide Seen;
    NextOfRows(rows, skipped, to);
    hide Strict;
    if at == to {
      assert Seen(calls + [i]) == rows[skipped..to] + [rows[to]];
    }
  }

  lemma NextOfRows(rows: seq<Snapshot>, skipped: nat, to: nat)
    requires Strict(rows) && skipped <= to <= |rows|
    ensures to > skipped ==> rows[skipped..to] != [] && rows[skipped..to][to - skipped - 1] == rows[to - 1]
    ensures to < |rows| ==> rows[skipped..to] + [rows[to]] == rows[skipped..to + 1] && (to > skipped ==> rows[to - 1] != rows[to])
  {
    if skipped < to < |rows| { assert rows[to - 1].ts < rows[to].ts; }
  }

  /** Calls for consecutive rows, starting at the row last seen or behind it, extend what was seen. */
  lemma {:induction false} SeenAlong(rows: seq<Snapshot>, skipped: nat, calls: seq<Input>, to: nat, from: nat, fed: seq<Input>)
    requires Strict(rows) && SeenTo(rows, skipped, calls, to)
    requires from == to || (to > skipped && from == to - 1)
    requires from + |fed| <= |rows| && forall k :: 0 <= k < |fed| ==> fed[k].s == rows[from + k]
    ensures SeenTo(rows, skipped, calls + fed, if fed == [] then to else from + |fed|)
  {
    hide Seen, SeenTo, Strict;
    if fed == [] {
      assert calls + fed == calls;
    } else {
      var shorter, i := fed[..|fed| - 1], fed[|fed| - 1];
      SeenAlong(rows, skipped, calls, to, from, shorter);
      assert calls + fed == calls + shorter + [i];
      assert skipped <= to by { SeenBounds(rows, skipped, calls, to); }
      SeenOneMore(rows, skipped, calls + shorter, if shorter == [] then to else from + |shorter|, from + |shorter|, i);
    }
  }

  lemma SeenBounds(rows: seq<Snapshot>, skipped: nat, calls: seq<Input>, to: nat)
    requires SeenTo(rows, skipped, calls, to)
    ensures skipped <= to <= |rows| && to == skipped + |Seen(calls)|
  {
    hide Seen;
  }

  /** The last call was for the row last seen, and no call was for a later one. */
  lemma {:induction false} SeenLast(rows: seq<Snapshot>, skipped: nat, calls: seq<Input>, to: nat)
    requires Strict(rows) && SeenTo(rows, skipped, calls, to) && calls != []
    ensures skipped < to <= |rows| && calls[|calls| - 1].s == rows[to - 1]
    ensures forall k :: 0 <= k < |calls| ==> calls[k].s.ts <= rows[to - 1].ts
  {
    var seen := Seen(calls);
    SeenEndsWithLast(calls);
    hide Seen;
    forall k | 0 <= k < |calls| ensures calls[k].s.ts <= rows[to - 1].ts {
      assert calls[k].s in seen;
      var j: nat :| j < |seen| && seen[j] == calls[k].s;
      assert seen[j] == rows[skipped + j];
    }
  }

  lemma {:induction false} SeenEndsWithLast(calls: seq<Input>)
    ensures calls != [] ==> Seen(calls) != [] && Seen(calls)[|Seen(calls)| - 1] == calls[|calls| - 1].s
    ensures forall k :: 0 <= k < |calls| ==> calls[k].s in Seen(calls)
  {
    if calls != [] {
      var before := calls[..|calls| - 1];
      SeenEndsWithLast(before);
      forall k | 0 <= k < |calls| ensures calls[k].s in Seen(calls) {
        if k < |before| { assert before[k].s in Seen(before); }
      }
    }
  }

  // ------------------------------------------------------------- the live query over ordered rows

  /** The watermark is the time of the last row fed. */
  lemma WalkWatermark(v: Vehicle, cfg: Config, sys: System)
    requires cfg.Valid() && Consistent(v, cfg, sys) && Walks(sys) && sys.entry.Some? && sys.calls != []
    ensures sys.skipped < Reached(sys) <= |sys.rows| && sys.calls[|sys.calls| - 1].s == sys.rows[Reached(sys) - 1]
    ensures sys.entry.value.lastTs == sys.rows[Reached(sys) - 1].ts
  {
    hide Run, Reached, Near, DistinctIds, CallsBelow, Strict;
    WatermarkCovers(v, cfg, sys.calls);
    SeenLast(sys.rows, sys.skipped, sys.calls, Reached(sys));
    hide SeenTo;
  }

  /** The row the next live query starts at. */
  function Resume(sys: System): int
    requires sys.calls != []
  {
    Reached(sys) - if sys.calls[|sys.calls| - 1].s.reach == 1 then 1 else 0
  }

  lemma WalkBatch(v: Vehicle, cfg: Config, sys: System, batch: seq<Snapshot>)
    requires cfg.Valid() && Consistent(v, cfg, sys) && Walks(sys) && Legal(cfg, sys, Sweep(batch))
    requires sys.entry.Some? && sys.calls != []
    ensures 0 <= Resume(sys) <= |sys.rows| && batch == Capped(sys.rows[Resume(sys)..])
  {
    hide Run, Newer, Reached, Capped, Strict, Near, DistinctIds, CallsBelow, SeenTo, InOrder;
    WalkWatermark(v, cfg, sys);
    NewerFrom(sys.rows, Reached(sys));
    assert sys.entry.value.lastTs != 0;
    assert Strict(sys.rows[Resume(sys)..]) by { StrictSuffix(sys.rows, Resume(sys)); }
    TheOnlyAnswer(sys.rows, sys.entry.value.lastTs, batch, sys.rows[Resume(sys)..]);
  }

  lemma StrictSuffix(rows: seq<Snapshot>, from: nat)
    requires Strict(rows) && from <= |rows|
    ensures Strict(rows[from..])
  {
  }

  lemma TheOnlyAnswer(rows: seq<Snapshot>, after: nat, batch: seq<Snapshot>, newer: seq<Snapshot>)
    requires after != 0 && IsAfter(rows, after, batch) && Newer(rows, after) == newer && Strict(newer)
    ensures batch == Capped(newer)
  {
    hide Newer, Capped, Strict, InOrder;
    var p: seq<Snapshot> :| Arranges(p, Newer(rows, after)) && batch == Capped(p);
    ArrangementUnique(p, newer);
  }

  /** With arrivals in order and rows passing at most their own watermark, the next live sweep feeds
      a row again if and only if the row fed last passes its own watermark. */
  lemma NextSweepRepeatsIff(v: Vehicle, cfg: Config, oracle: nat -> Commits, sys: System, batch: seq<Snapshot>)
    requires cfg.Valid() && Consistent(v, cfg, sys) && Walks(sys) && Legal(cfg, sys, Sweep(batch))
    requires sys.entry.Some? && sys.calls != []
    ensures Repeats(sys, Apply(v, cfg, oracle, sys, Sweep(batch))) <==> sys.calls[|sys.calls| - 1].s.reach == 1
  {
    hide Run, Apply, Seen, Legal, Near, SeenTo, Consistent, Reached, Strict;
    var next := Apply(v, cfg, oracle, sys, Sweep(batch));
    WalkWatermark(v, cfg, sys);
    WalkBatch(v, cfg, sys, batch);
    SweepFeedsPrefix(v, cfg, oracle, sys, batch);
    SeenLast(sys.rows, sys.skipped, sys.calls, Reached(sys));
    if sys.calls[|sys.calls| - 1].s.reach == 1 {
      assert batch[0] == sys.rows[Resume(sys)];
      assert next.calls[|sys.calls| + 0].s == batch[0];
      assert Fed(sys.calls, batch[0]);
    } else {
      forall k | |sys.calls| <= k < |next.calls| ensures !Fed(sys.calls, next.calls[k].s) {
        var j := k - |sys.calls|;
        assert next.calls[|sys.calls| + j].s == batch[j] == sys.rows[Resume(sys) + j];
        StrictAt(sys.rows, Resume(sys) - 1, Resume(sys) + j);
      }
    }
  }

  lemma StrictAt(rows: seq<Snapshot>, i: nat, j: nat)
    requires Strict(rows) && i < j < |rows|
    ensures rows[i].ts < rows[j].ts
  {
  }

  /** Once such a row is the newest and has been fed, every sweep until another arrives feeds it
      once more, and nothing else. */
  lemma CaughtUpSweepRepeats(v: Vehicle, cfg: Config, oracle: nat -> Commits, sys: System, batch: seq<Snapshot>)
    requires cfg.Valid() && Consistent(v, cfg, sys) && Walks(sys) && Legal(cfg, sys, Sweep(batch))
    requires sys.entry.Some? && sys.calls != []
    requires Reached(sys) == |sys.rows| && sys.calls[|sys.calls| - 1].s.reach == 1
    ensures var next := Apply(v, cfg, oracle, sys, Sweep(batch)); var last := sys.calls[|sys.calls| - 1].s;
      && |next.calls| == |sys.calls| + 1 && sys.calls <= next.calls && next.calls[|sys.calls|].s == last
      && Consistent(v, cfg, next) && Walks(next) && next.rows == sys.rows && Reached(next) == |next.rows|
  {
    WalkWatermark(v, cfg, sys);
    WalkBatch(v, cfg, sys, batch);
    SweepFeedsPrefix(v, cfg, oracle, sys, batch);
    SweepStaysConsistent(v, cfg, oracle, sys, batch);
    LiveSweepWalks(v, cfg, oracle, sys, batch);
    hide Run, Feed, Seen, SeenTo, Legal, Consistent, Reached, Strict, Near;
    assert batch == [sys.rows[|sys.rows| - 1]];
    var next := Apply(v, cfg, oracle, sys, Sweep(batch));
    assert next.calls[|sys.calls| + 0].s == batch[0];
  }

  // ------------------------------------------------------------- every run

  lemma SweepKeepsRows(v: Vehicle, cfg: Config, oracle: nat -> Commits, sys: System, batch: seq<Snapshot>)
    requires cfg.Valid()
    ensures var next := Apply(v, cfg, oracle, sys, Sweep(batch));
      && next.rows == sys.rows
      && next.skipped == if sys.entry.Some? then sys.skipped else |sys.rows| - Min(|sys.rows|, cfg.medianWindow)
  {
    hide Feed;
  }

  lemma LiveSweepWalks(v: Vehicle, cfg: Config, oracle: nat -> Commits, sys: System, batch: seq<Snapshot>)
    requires cfg.Valid() && Consistent(v, cfg, sys) && Walks(sys) && Legal(cfg, sys, Sweep(batch))
    requires sys.entry.Some? && sys.calls != []
    ensures var next := Apply(v, cfg, oracle, sys, Sweep(batch));
      && Walks(next) && next.rows == sys.rows
      && Reached(next) == if batch == [] then Reached(sys) else Resume(sys) + (|next.calls| - |sys.calls|)
  {
    hide Run, Apply, Seen, SeenTo, Legal, Consistent, Strict, Near, Reached;
    var next := Apply(v, cfg, oracle, sys, Sweep(batch));
    SweepKeepsRows(v, cfg, oracle, sys, batch);
    SweepFeedsPrefix(v, cfg, oracle, sys, batch);
    WalkWatermark(v, cfg, sys);
    WalkBatch(v, cfg, sys, batch);
    LinkedCalls(sys.rows, sys.skipped, sys.calls, Reached(sys), Resume(sys), next.calls, batch);
    WalksOn(next, if batch == [] then Reached(sys) else Resume(sys) + (|next.calls| - |sys.calls|));
  }

  /** Appending the calls for a prefix of a capped stretch of rows extends what was seen. */
  lemma LinkedCalls(rows: seq<Snapshot>, skipped: nat, calls: seq<Input>, to: nat, from: nat, more: seq<Input>, batch: seq<Snapshot>)
    requires Strict(rows) && SeenTo(rows, skipped, calls, to) && (from == to || (to > skipped && from == to - 1))
    requires from <= |rows| && calls <= more && |more| - |calls| <= |batch| <= |rows| - from && (batch != [] ==> |more| > |calls|)
    requires forall k :: 0 <= k < |batch| ==> batch[k] == rows[from + k]
    requires forall k :: 0 <= k < |more| - |calls| ==> more[|calls| + k].s == batch[k]
    ensures SeenTo(rows, skipped, more, if batch == [] then to else from + (|more| - |calls|))
  {
    hide Seen, SeenTo, Strict;
    var fed := more[|calls|..];
    assert calls + fed == more;
    forall k | 0 <= k < |fed| ensures fed[k].s == rows[from + k] {
      assert more[|calls| + k].s == batch[k];
    }
    SeenAlong(rows, skipped, calls, to, from, fed);
  }

  lemma WalksOn(next: System, to: nat)
    requires Strict(next.rows) && Near(next.rows) && SeenTo(next.rows, next.skipped, next.calls, to)
    ensures Walks(next) && Reached(next) == to
  {
    hide Seen, Strict, Near;
  }

  lemma WarmUpWalks(v: Vehicle, cfg: Config, oracle: nat -> Commits, sys: System, batch: seq<Snapshot>)
    requires cfg.Valid() && Consistent(v, cfg, sys) && Walks(sys) && Legal(cfg, sys, Sweep(batch)) && sys.entry.None?
    ensures Walks(Apply(v, cfg, oracle, sys, Sweep(batch)))
  {
    hide Run, Apply, Legal, Strict, Near, IsRecent, Seen, SeenTo, Reached, DistinctIds, CallsBelow, LastN;
    var next := Apply(v, cfg, oracle, sys, Sweep(batch));
    SweepKeepsRows(v, cfg, oracle, sys, batch);
    SweepFeedsPrefix(v, cfg, oracle, sys, batch);
    WarmUpBatch(cfg, sys, batch, next.skipped);
    NothingSeen(sys.rows, next.skipped);
    LinkedCalls(sys.rows, next.skipped, [], next.skipped, next.skipped, next.calls, batch);
    WalksOn(next, next.skipped + |next.calls|);
  }

  lemma NothingSeen(rows: seq<Snapshot>, skipped: nat)
    requires skipped <= |rows|
    ensures SeenTo(rows, skipped, [], skipped)
  {
  }

  lemma WarmUpBatch(cfg: Config, sys: System, batch: seq<Snapshot>, skipped: nat)
    requires Legal(cfg, sys, Sweep(batch)) && sys.entry.None? && Strict(sys.rows)
    requires skipped == |sys.rows| - Min(|sys.rows|, cfg.medianWindow)
    ensures |batch| == |sys.rows| - skipped && forall k :: 0 <= k < |batch| ==> batch[k] == sys.rows[skipped + k]
  {
    hide Strict, IsRecent, LastN;
    OnlyRecent(sys.rows, cfg.medianWindow, batch);
    EndOfRows(sys.rows, cfg.medianWindow);
  }

  lemma EndOfRows(rows: seq<Snapshot>, n: nat)
    ensures var l, from := LastN(rows, n), |rows| - Min(|rows|, n);
      |l| == |rows| - from && forall k :: 0 <= k < |l| ==> l[k] == rows[from + k]
  {
  }

  lemma OnlyRecent(rows: seq<Snapshot>, n: nat, batch: seq<Snapshot>)
    requires IsRecent(rows, n, batch) && Strict(rows)
    ensures batch == LastN(rows, n)
  {
    hide Strict, InOrder;
    var p: seq<Snapshot> :| Arranges(p, rows) && batch == LastN(p, n);
    ArrangementUnique(p, rows);
  }

  lemma ArrivalWalks(sys: System, next: System, s: Snapshot)
    requires Walks(sys) && next == sys.(rows := sys.rows + [s]) && s.reach <= 1 && forall r: Snapshot :: r in sys.rows ==> r.ts < s.ts
    ensures Walks(next)
  {
    hide Seen;
    assert next.rows[next.skipped..Reached(next)] == sys.rows[sys.skipped..Reached(sys)];
  }

  lemma ActionWalks(v: Vehicle, cfg: Config, oracle: nat -> Commits, sys: System, a: Action)
    requires cfg.Valid() && Consistent(v, cfg, sys) && Walks(sys) && Legal(cfg, sys, a)
    requires a.Arrive? ==> a.s.reach <= 1 && forall r :: r in sys.rows ==> r.ts < a.s.ts
    ensures Walks(Apply(v, cfg, oracle, sys, a))
  {
    hide Feed, Run, Seen, SeenTo, Strict, Near;
    match a
    case Arrive(s) => ArrivalWalks(sys, Apply(v, cfg, oracle, sys, a), s);
    case QueryFails =>
    case Sweep(batch) =>
      if sys.entry.None? {
        WarmUpWalks(v, cfg, oracle, sys, batch);
      } else if sys.calls != [] {
        LiveSweepWalks(v, cfg, oracle, sys, batch);
      } else {
        SweepFeedsPrefix(v, cfg, oracle, sys, batch);
      }
  }

  /** A repetition in the calls is of a row that passes its own watermark. */
  ghost predicate RepeatsMarked(calls: seq<Input>) {
    forall k :: 0 < k < |calls| && calls[k].s == calls[k - 1].s ==> calls[k].s.reach == 1
  }

  lemma RepeatsStayMarked(v: Vehicle, cfg: Config, oracle: nat -> Commits, sys: System, a: Action)
    requires cfg.Valid() && Consistent(v, cfg, sys) && Walks(sys) && Legal(cfg, sys, a) && RepeatsMarked(sys.calls)
    ensures RepeatsMarked(Apply(v, cfg, oracle, sys, a).calls)
  {
    hide Run, Feed, Walks, DistinctIds, CallsBelow;
    if a.Sweep? {
      SweepFeedsPrefix(v, cfg, oracle, sys, a.batch);
      LegalBatch(cfg, sys, a.batch);
      var next := Apply(v, cfg, oracle, sys, a);
      if sys.entry.Some? && sys.calls != [] { NextSweepRepeatsIff(v, cfg, oracle, sys, a.batch); }
      JoinedRepeats(sys, next, a.batch);
    }
  }

  lemma JoinedRepeats(sys: System, next: System, batch: seq<Snapshot>)
    requires RepeatsMarked(sys.calls) && sys.calls <= next.calls && |next.calls| - |sys.calls| <= |batch| && DistinctIds(batch)
    requires forall k :: 0 <= k < |next.calls| - |sys.calls| ==> next.calls[|sys.calls| + k].s == batch[k]
    requires sys.calls != [] ==> (Repeats(sys, next) <==> sys.calls[|sys.calls| - 1].s.reach == 1)
    ensures RepeatsMarked(next.calls)
  {
    var n := |sys.calls|;
    forall k | n < k < |next.calls| ensures next.calls[k].s.id != next.calls[k - 1].s.id {
      assert next.calls[n + (k - n)].s == batch[k - n] && next.calls[n + (k - 1 - n)].s == batch[k - 1 - n];
    }
    if 0 < n < |next.calls| && next.calls[n].s == next.calls[n - 1].s {
      assert next.calls[n - 1] == sys.calls[n - 1];
      assert Fed(sys.calls, next.calls[n].s);
    }
  }

  /** With arrivals in order and rows passing at most their own watermark, every schedule feeds the
      rows from the start of the warm-up on in order, none left out, each at least once; the only
      repetitions are immediate ones of rows that pass their own watermark, and the state is one
      fold over the calls. */
  lemma {:induction false} RowsAreFedInOrder(v: Vehicle, cfg: Config, oracle: nat -> Commits, actions: seq<Action>)
    requires cfg.Valid() && NearPlay(v, cfg, oracle, actions)
    ensures var end := Play(v, cfg, oracle, START, actions);
      && Consistent(v, cfg, end) && Walks(end) && RepeatsMarked(end.calls)
      && (end.entry.Some? ==> end.entry.value == Run(v, cfg, end.calls))
  {
    hide Run, Legal, Apply, Feed, Walks, Consistent, RepeatsMarked;
    if actions == [] {
      StartWalks(v, cfg);
    } else {
      var before, a := actions[..|actions| - 1], actions[|actions| - 1];
      RowsAreFedInOrder(v, cfg, oracle, before);
      var sys := Play(v, cfg, oracle, START, before);
      ActionWalks(v, cfg, oracle, sys, a);
      StepStaysConsistent(v, cfg, oracle, sys, a);
      RepeatsStayMarked(v, cfg, oracle, sys, a);
    }
    FoldOfCalls(v, cfg, Play(v, cfg, oracle, START, actions));
  }

  lemma StartWalks(v: Vehicle, cfg: Config)
    requires cfg.Valid()
    ensures Walks(START) && Consistent(v, cfg, START) && RepeatsMarked(START.calls)
  {
  }

  lemma FoldOfCalls(v: Vehicle, cfg: Config, sys: System)
    requires cfg.Valid() && Consistent(v, cfg, sys)
    ensures sys.entry.Some? ==> sys.entry.value == Run(v, cfg, sys.calls)
  {
  }

  // ------------------------------------------------------------- a row fed twice

  /** The row arrives and the warm-up feeds it. */
  lemma FedOnce(v: Vehicle, cfg: Config, oracle: nat -> Commits, s: Snapshot)
    requires cfg.Valid() && s.ts > 0 && s.reach == 1
    ensures Legal(cfg, START, Arrive(s))
    ensures var one := Apply(v, cfg, oracle, START, Arrive(s));
      && Legal(cfg, one, Sweep([s]))
      && var two := Apply(v, cfg, oracle, one, Sweep([s]));
         && Consistent(v, cfg, two) && Walks(two) && two.rows == [s] && two.entry.Some?
         && |two.calls| == 1 && two.calls[0].s == s
  {
    hide Run, Feed, Apply, Consistent, Walks, IsRecent;
    StartWalks(v, cfg);
    RowArrives(v, cfg, oracle, s);
    ActionWalks(v, cfg, oracle, START, Arrive(s));
    StepStaysConsistent(v, cfg, oracle, START, Arrive(s));
    var one := Apply(v, cfg, oracle, START, Arrive(s));
    OneRowIsRecent(cfg, s);
    SweepFeedsPrefix(v, cfg, oracle, one, [s]);
    SweepKeepsRows(v, cfg, oracle, one, [s]);
    ActionWalks(v, cfg, oracle, one, Sweep([s]));
    StepStaysConsistent(v, cfg, oracle, one, Sweep([s]));
    var two := Apply(v, cfg, oracle, one, Sweep([s]));
    assert one.calls == [] && |[s]| == 1 && |two.calls| == 1;
    assert two.calls[|one.calls| + 0].s == [s][0];
  }

  lemma RowArrives(v: Vehicle, cfg: Config, oracle: nat -> Commits, s: Snapshot)
    requires cfg.Valid() && s.ts > 0
    ensures Legal(cfg, START, Arrive(s)) && Apply(v, cfg, oracle, START, Arrive(s)) == START.(rows := [s])
  {
    assert [] + [s] == [s];
  }

  lemma OneRowIsRecent(cfg: Config, s: Snapshot)
    requires cfg.Valid()
    ensures IsRecent([s], cfg.medianWindow, [s])
  {
    assert Arranges([s], [s]) && LastN([s], cfg.medianWindow) == [s];
  }

  /** The next sweep feeds it again. */
  lemma FedAgain(v: Vehicle, cfg: Config, oracle: nat -> Commits, sys: System, s: Snapshot)
    requires cfg.Valid() && s.ts > 0 && s.reach == 1
    requires Consistent(v, cfg, sys) && Walks(sys) && sys.rows == [s] && sys.entry.Some? && |sys.calls| == 1 && sys.calls[0].s == s
    ensures Legal(cfg, sys, Sweep([s]))
    ensures var next := Apply(v, cfg, oracle, sys, Sweep([s])); |next.calls| == 2 && next.calls[0].s == s && next.calls[1].s == s
  {
    hide Run, Apply, Walks, Consistent, Reached, IsAfter, IsRecent;
    WalkWatermark(v, cfg, sys);
    OneRowAnswers(s);
    SweepFeedsPrefix(v, cfg, oracle, sys, [s]);
    var next := Apply(v, cfg, oracle, sys, Sweep([s]));
    assert next.calls[|sys.calls| + 0].s == s && next.calls[0] == sys.calls[0];
  }

  /** The failing input at its smallest: one row that passes its own watermark, and two sweeps;
      for every vehicle, configuration and pattern of failures. */
  lemma RowIsFedTwice(v: Vehicle, cfg: Config, oracle: nat -> Commits, s: Snapshot)
    requires cfg.Valid() && s.ts > 0 && s.reach == 1
    ensures var actions := [] + [Arrive(s)] + [Sweep([s])] + [Sweep([s])];
      && LegalPlay(v, cfg, oracle, START, actions)
      && var end := Play(v, cfg, oracle, START, actions);
         |end.calls| == 2 && end.calls[0].s == s && end.calls[1].s == s && !CallsDistinct(end.calls)
  {
    hide Apply, Legal, Run, Play, LegalPlay, Consistent, Walks;
    NothingPlayed(v, cfg, oracle);
    FedOnce(v, cfg, oracle, s);
    OneMoreAction(v, cfg, oracle, [], Arrive(s));
    OneMoreAction(v, cfg, oracle, [] + [Arrive(s)], Sweep([s]));
    FedAgain(v, cfg, oracle, Play(v, cfg, oracle, START, [] + [Arrive(s)] + [Sweep([s])]), s);
    OneMoreAction(v, cfg, oracle, [] + [Arrive(s)] + [Sweep([s])], Sweep([s]));
  }

  lemma NothingPlayed(v: Vehicle, cfg: Config, oracle: nat -> Commits)
    requires cfg.Valid()
    ensures LegalPlay(v, cfg, oracle, START, []) && Play(v, cfg, oracle, START, []) == START
  {
  }

  lemma OneRowAnswers(s: Snapshot)
    requires s.ts > 0 && s.reach == 1
    ensures IsAfter([s], s.ts, [s])
  {
    assert [s][..0] == [];
    assert Newer([s], s.ts) == [s] && Capped([s]) == [s] && Arranges([s], [s]);
  }

  lemma OneMoreAction(v: Vehicle, cfg: Config, oracle: nat -> Commits, actions: seq<Action>, a: Action)
    requires cfg.Valid() && LegalPlay(v, cfg, oracle, START, actions) && Legal(cfg, Play(v, cfg, oracle, START, actions), a)
    ensures LegalPlay(v, cfg, oracle, START, actions + [a])
    ensures Play(v, cfg, oracle, START, actions + [a]) == Apply(v, cfg, oracle, Play(v, cfg, oracle, START, actions), a)
  {
    hide Apply, Legal;
    assert (actions + [a])[..|actions + [a]| - 1] == actions;
  }
}
