/** Calls to the analysis pool return: without new calls every schedule ends, with everything counted. */
module AnalysisReturns {
  import opened HotList
  import opened Sums
  import opened Grouping
  import opened AnalysisPool
  import opened AnalysisTheorems
  import opened AnalysisHistory

  // ---------------------------------------------------------------- what is left to do

  /** A bound on the steps a caller can still take, and cause, in the call it is in. */
  ghost function CallerLeft(x: Caller): nat {
    match x
    case Idle => 0
    case Sending(todo) => 1 + Total(todo) + 3 * |todo|
    case Accounting(todo, _, _) => 2 + Total(todo) + 3 * |todo|
    case Asking(_, _) => 3
    case AwaitingTop(_, _) => 2
    case GotTop(_, _, _, _) => 1
    case Resetting(_) => 1
  }

  ghost function WorkerLeft(x: Worker): nat {
    |x.taken| + Total(x.queue) + |x.queue|
  }

  ghost function CallersLeft(s: State): seq<nat> {
    seq(|s.callers|, c requires 0 <= c < |s.callers| => CallerLeft(s.callers[c]))
  }

  ghost function WorkersLeft(s: State): seq<nat> {
    seq(|s.workers|, w requires 0 <= w < |s.workers| => WorkerLeft(s.workers[w]))
  }

  ghost function StepsLeft(s: State): nat {
    Sum(CallersLeft(s)) + Sum(WorkersLeft(s))
  }

  /** A step that begins a new call. */
  predicate Begins(step: Step) {
    step.Handle? || step.AskTop? || step.AskReset?
  }

  lemma CallerChange(s: State, s': State, c: nat)
    requires c < |s.callers| && |s'.callers| == |s.callers| && s'.callers == s.callers[c := s'.callers[c]]
    ensures Sum(CallersLeft(s')) + CallerLeft(s.callers[c]) == Sum(CallersLeft(s)) + CallerLeft(s'.callers[c])
  {
    assert CallersLeft(s') == CallersLeft(s)[c := CallerLeft(s'.callers[c])];
    SumUpdate(CallersLeft(s), c, CallerLeft(s'.callers[c]));
  }

  lemma WorkerChange(s: State, s': State, w: nat)
    requires w < |s.workers| && |s'.workers| == |s.workers| && s'.workers == s.workers[w := s'.workers[w]]
    ensures Sum(WorkersLeft(s')) + WorkerLeft(s.workers[w]) == Sum(WorkersLeft(s)) + WorkerLeft(s'.workers[w])
  {
    assert WorkersLeft(s') == WorkersLeft(s)[w := WorkerLeft(s'.workers[w])];
    SumUpdate(WorkersLeft(s), w, WorkerLeft(s'.workers[w]));
  }

  lemma StepLowers(hash: string -> nat, s: State, step: Step)
    requires Enabled(s, step) && !Begins(step)
    ensures StepsLeft(Apply(hash, s, step)) < StepsLeft(s)
  {
    match step
    case Send(c) => SendLowers(s, c);
    case Take(w) => WorkerStepLowers(hash, s, step);
    case CountOne(w) => WorkerStepLowers(hash, s, step);
    case AcceptTop(c, _) => MeetingLowers(hash, s, step, s.callers[c].w);
    case Answer(w, _) => MeetingLowers(hash, s, step, w);
    case AcceptReset(c) => MeetingLowers(hash, s, step, s.callers[c].w);
    case _ => CallerStepLowers(hash, s, step);
  }

  lemma SendLowers(s: State, c: nat)
    requires Enabled(s, Send(c))
    ensures StepsLeft(ApplySend(s, c)) < StepsLeft(s)
  {
    var s', todo := ApplySend(s, c), s.callers[c].todo;
    var w := |s.workers| - |todo|;
    CallerChange(s, s', c);
    if todo[0] != [] && |s.workers[w].queue| < QUEUE_SIZE {
      WorkerChange(s, s', w);
      GroupsSnoc(s.workers[w].queue, todo[0], KeyInfo("", 0));
    } else {
      assert WorkersLeft(s') == WorkersLeft(s);
    }
  }

  lemma WorkerStepLowers(hash: string -> nat, s: State, step: Step)
    requires Enabled(s, step) && (step.Take? || step.CountOne?)
    ensures StepsLeft(Apply(hash, s, step)) < StepsLeft(s)
  {
    var s' := Apply(hash, s, step);
    assert CallersLeft(s') == CallersLeft(s);
    WorkerChange(s, s', step.w);
  }

  lemma MeetingLowers(hash: string -> nat, s: State, step: Step, w: nat)
    requires Enabled(s, step) && (step.AcceptTop? || step.Answer? || step.AcceptReset?)
    requires w == if step.Answer? then step.w else s.callers[step.c].w
    ensures StepsLeft(Apply(hash, s, step)) < StepsLeft(s)
  {
    var s' := Apply(hash, s, step);
    CallerChange(s, s', step.c);
    WorkerChange(s, s', w);
  }

  lemma CallerStepLowers(hash: string -> nat, s: State, step: Step)
    requires Enabled(s, step) && (step.Account? || step.Finish? || step.Consume?)
    ensures StepsLeft(Apply(hash, s, step)) < StepsLeft(s)
  {
    var s' := Apply(hash, s, step);
    CallerChange(s, s', step.c);
    assert WorkersLeft(s') == WorkersLeft(s);
  }

  /** Every schedule without new calls is finite. */
  lemma {:induction false} SchedulesEnd(hash: string -> nat, s: State, more: seq<Step>)
    requires CanRun(hash, s, more) && forall step :: step in more ==> !Begins(step)
    ensures |more| + StepsLeft(Exec(hash, s, more)) <= StepsLeft(s)
    decreases more
  {
    if more != [] {
      StepLowers(hash, s, more[0]);
      SchedulesEnd(hash, Apply(hash, s, more[0]), more[1..]);
    }
  }

  // ---------------------------------------------------------------- there is always something to do

  /** The entries of some of the counted items, in any order. */
  lemma {:induction false} Listed(keys: set<KeyInfo>, m: Counts) returns (es: seq<Entry>)
    requires keys <= m.Keys
    ensures DistinctItems(es) && Items(es) == keys && EntriesOf(es, m)
  {
    if keys == {} {
      es := [];
    } else {
      var x :| x in keys;
      var rest := Listed(keys - {x}, m);
      CollectOne(rest, m, x);
      es := rest + [EntryOf(m, x)];
    }
  }

  lemma {:induction false} Sorted(xs: seq<Entry>) returns (ys: seq<Entry>)
    ensures SortedDesc(ys, TotalWeight) && multiset(ys) == multiset(xs)
  {
    if xs == [] {
      ys := [];
    } else {
      var rest := Sorted(xs[1..]);
      InsertDescSorted(rest, TotalWeight, xs[0]);
      InsertDescMembers(rest, TotalWeight, xs[0]);
      ys := InsertDesc(rest, TotalWeight, xs[0]);
      assert xs == [xs[0]] + xs[1..];
    }
  }

  /** There is a top list of anything. */
  lemma SomeTop(m: Counts, k: nat) returns (top: seq<Entry>)
    ensures IsTop(top, m, k)
  {
    var ordered := Listed(m.Keys, m);
    var sorted := Sorted(ordered);
    var n := if |m| < k then |m| else k;
    SortedIsTop(ordered, sorted, m, n);
    top := sorted[..n];
  }

  /** Nothing is under way anywhere. */
  ghost predicate Quiet(s: State) {
    && (forall c :: 0 <= c < |s.callers| ==> s.callers[c] == Idle)
    && (forall w :: 0 <= w < |s.workers| ==> Ready(s.workers[w]) && s.workers[w].queue == [])
  }

  /** A worker that is not ready can count or answer. */
  lemma WorkerMoves(hash: string -> nat, s: State, w: nat) returns (step: Step)
    requires Good(hash, s) && w < |s.workers| && !Ready(s.workers[w])
    ensures Enabled(s, step) && !Begins(step)
  {
    assert ReplyOk(s, w);
    step := if s.workers[w].taken != [] then CountOne(w) else Answer(w, s.workers[w].reply.caller);
  }

  /** A caller in the middle of a call can go on, or its worker can. */
  lemma CallerMoves(hash: string -> nat, s: State, c: nat, asked: Request) returns (step: Step)
    requires Good(hash, s) && c < |s.callers| && s.callers[c] != Idle && Minds(s.callers[c], |s.workers|, asked)
    ensures Enabled(s, step) && !Begins(step)
  {
    match s.callers[c]
    case Sending(todo) =>
      assert TodoSlot(Todo(s.callers[c]), KeySlot(hash, |s.workers|), |s.workers|);
      step := if todo == [] then Finish(c) else Send(c);
    case Accounting(_, _, _) => step := Account(c);
    case GotTop(_, _, _, _) => step := Consume(c);
    case AwaitingTop(w, _) =>
      assert ReplyOk(s, w);
      step := Answer(w, c);
    case Asking(w, k) =>
      if Ready(s.workers[w]) {
        var top := SomeTop(Tally(s.workers[w].hl), k);
        step := AcceptTop(c, top);
      } else {
        step := WorkerMoves(hash, s, w);
      }
    case Resetting(w) =>
      if Ready(s.workers[w]) {
        step := AcceptReset(c);
      } else {
        step := WorkerMoves(hash, s, w);
      }
  }

  /** In every reachable state in which something is under way, something can go on without a new call. */
  lemma NoDeadlock(hash: string -> nat, n: nat, m: nat, steps: seq<Step>) returns (step: Step)
    requires CanRun(hash, Init(n, m), steps) && !Quiet(Exec(hash, Init(n, m), steps))
    ensures Enabled(Exec(hash, Init(n, m), steps), step) && !Begins(step)
  {
    var s := Exec(hash, Init(n, m), steps);
    assert Good(hash, s) by {
      InitGood(hash, n, m);
      RunKeepsGood(hash, Init(n, m), steps);
    }
    if c :| 0 <= c < |s.callers| && s.callers[c] != Idle {
      var asked := MindsInRun(hash, n, m, steps, c);
      step := CallerMoves(hash, s, c, asked);
    } else {
      step := QueueMoves(hash, s);
    }
  }

  lemma MindsInRun(hash: string -> nat, n: nat, m: nat, steps: seq<Step>, c: nat) returns (asked: Request)
    requires CanRun(hash, Init(n, m), steps) && c < |Exec(hash, Init(n, m), steps).callers|
    ensures var s := Exec(hash, Init(n, m), steps);
            Minds(s.callers[c], |s.workers|, asked)
  {
    RunKeepsCallers(hash, Init(n, m), steps);
    RunMinds(hash, Init(n, m), steps, c, Nothing);
    asked := Asked(steps, c, Nothing);
  }

  /** If only workers have something left, one of them can go on. */
  lemma QueueMoves(hash: string -> nat, s: State) returns (step: Step)
    requires Good(hash, s) && !Quiet(s) && forall c :: 0 <= c < |s.callers| ==> s.callers[c] == Idle
    ensures Enabled(s, step) && !Begins(step)
  {
    var w :| 0 <= w < |s.workers| && !(Ready(s.workers[w]) && s.workers[w].queue == []);
    if Ready(s.workers[w]) {
      step := Take(w);
    } else {
      step := WorkerMoves(hash, s, w);
    }
  }

  lemma {:induction false} NothingGiven(more: seq<Step>)
    requires forall step :: step in more ==> !Begins(step)
    ensures Given(more) == multiset{}
  {
    if more != [] {
      assert more[0] in more;
      NothingGiven(more[1..]);
    }
  }

  /**
    If no new calls are made, whatever happens comes to an end; then every call has returned, and of each
    key everything passed in has been refused, counted by its own worker, or cleared by a reset.
   */
  lemma CallsReturn(hash: string -> nat, n: nat, m: nat, steps: seq<Step>, more: seq<Step>, key: KeyInfo)
    requires n > 0 && CanRun(hash, Init(n, m), steps) && CanRun(hash, Exec(hash, Init(n, m), steps), more)
    requires forall step :: step in more ==> !Begins(step)
    ensures var s, own := Exec(hash, Init(n, m), steps), hash(key.name) % n;
            var end := Exec(hash, s, more);
            && |more| <= StepsLeft(s)
            && ((forall step :: Enabled(end, step) ==> Begins(step)) ==>
                  && Quiet(end) && own < |end.workers|
                  && Given(steps)[key] == end.refused[key] + end.workers[own].hl[key] + end.workers[own].cleared[key])
  {
    SchedulesEnd(hash, Exec(hash, Init(n, m), steps), more);
    RunOn(hash, Init(n, m), steps, more);
    var end := Exec(hash, Init(n, m), steps + more);
    NothingGiven(more);
    RunGives(hash, Init(n, m), steps);
    RunGives(hash, Exec(hash, Init(n, m), steps), more);
    RunGives(hash, Init(n, m), steps + more);
    if forall step :: Enabled(end, step) ==> Begins(step) {
      if !Quiet(end) {
        var step := NoDeadlock(hash, n, m, steps + more);
      }
      GlobalCounter(hash, n, m, steps + more, key);
    }
  }

  // ---------------------------------------------------------------- requests are served

  /** Three steps that follow each other. */
  lemma ThreeSteps(hash: string -> nat, s: State, a: Step, b: Step, c: Step)
    requires Enabled(s, a) && Enabled(Apply(hash, s, a), b) && Enabled(Apply(hash, Apply(hash, s, a), b), c)
    ensures CanRun(hash, s, [a, b, c])
    ensures Exec(hash, s, [a, b, c]) == Apply(hash, Apply(hash, Apply(hash, s, a), b), c)
  {
    var s1 := Apply(hash, s, a);
    OneStep(hash, s1, b);
    Extend(hash, s1, [b], c);
    assert [b] + [c] == [b, c];
    assert [a, b, c][1..] == [b, c];
  }

  /** When nothing is under way any caller can ask any worker for a top list, and gets it. */
  lemma TopServed(hash: string -> nat, s: State, c: nat, w: nat, k: nat) returns (steps: seq<Step>)
    requires Quiet(s) && c < |s.callers| && w < |s.workers|
    ensures CanRun(hash, s, steps)
    ensures var x := Exec(hash, s, steps);
            && c < |x.callers| && x.callers[c].GotTop? && IsTop(x.callers[c].top, Tally(s.workers[w].hl), k)
            && x.workers == s.workers
  {
    var top := SomeTop(Tally(s.workers[w].hl), k);
    ThreeSteps(hash, s, AskTop(c, w, k), AcceptTop(c, top), Answer(w, c));
    steps := [AskTop(c, w, k), AcceptTop(c, top), Answer(w, c)];
  }

  /** Or to be reset, and finds its hotlist empty. */
  lemma ResetServed(hash: string -> nat, s: State, c: nat, w: nat) returns (steps: seq<Step>)
    requires Quiet(s) && c < |s.callers| && w < |s.workers|
    ensures CanRun(hash, s, steps)
    ensures var x := Exec(hash, s, steps);
            && Quiet(x) && w < |x.workers| && x.workers[w].hl == multiset{}
  {
    OneStep(hash, s, AskReset(c, w));
    Extend(hash, s, [AskReset(c, w)], AcceptReset(c));
    steps := [AskReset(c, w)] + [AcceptReset(c)];
  }
}
