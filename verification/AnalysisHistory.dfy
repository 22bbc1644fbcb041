/**
  What a run of the analysis pool has done, told from its steps alone: what each worker has counted since
  its last reset, what each caller asked for last, and when events are dropped.
 */
module AnalysisHistory {
  import opened HotList
  import opened Sums
  import opened Grouping
  import opened AnalysisPool
  import opened AnalysisTheorems

  // ---------------------------------------------------------------- since the last reset

  /** What worker w has counted since its last reset, after one more step. */
  ghost function CountedNext(s: State, step: Step, w: nat, counted: multiset<KeyInfo>): multiset<KeyInfo>
    requires Enabled(s, step)
  {
    match step
    case CountOne(v) => if v == w then counted + multiset{s.workers[w].taken[0]} else counted
    case AcceptReset(c) => if s.callers[c].w == w then multiset{} else counted
    case _ => counted
  }

  ghost function CountedSince(hash: string -> nat, s: State, steps: seq<Step>, w: nat,
                              counted: multiset<KeyInfo>): multiset<KeyInfo>
    requires CanRun(hash, s, steps)
    decreases steps
  {
    if steps == [] then counted
    else CountedSince(hash, Apply(hash, s, steps[0]), steps[1..], w, CountedNext(s, steps[0], w, counted))
  }

  lemma StepCounts(hash: string -> nat, s: State, step: Step, w: nat)
    requires Enabled(s, step) && w < |s.workers|
    ensures |Apply(hash, s, step).workers| == |s.workers|
    ensures Apply(hash, s, step).workers[w].hl == CountedNext(s, step, w, s.workers[w].hl)
  {
  }

  lemma {:induction false} RunCounts(hash: string -> nat, s: State, steps: seq<Step>, w: nat)
    requires CanRun(hash, s, steps) && w < |s.workers|
    ensures |Exec(hash, s, steps).workers| == |s.workers|
    ensures Exec(hash, s, steps).workers[w].hl == CountedSince(hash, s, steps, w, s.workers[w].hl)
    decreases steps
  {
    if steps != [] {
      StepCounts(hash, s, steps[0], w);
      RunCounts(hash, Apply(hash, s, steps[0]), steps[1..], w);
    }
  }

  /** In every run a worker's hotlist is exactly what it has counted since its last reset. */
  lemma HotlistSinceReset(hash: string -> nat, n: nat, m: nat, steps: seq<Step>, w: nat)
    requires CanRun(hash, Init(n, m), steps) && w < n
    ensures w < |Exec(hash, Init(n, m), steps).workers|
    ensures Exec(hash, Init(n, m), steps).workers[w].hl == CountedSince(hash, Init(n, m), steps, w, multiset{})
  {
    RunCounts(hash, Init(n, m), steps, w);
  }

  // ---------------------------------------------------------------- what a caller asked for

  datatype Request = Nothing | TopOf(w: nat, k: nat) | ResetOf(w: nat)

  ghost function AskedNext(step: Step, c: nat, asked: Request): Request {
    match step
    case AskTop(d, w, k) => if d == c then TopOf(w, k) else asked
    case AskReset(d, w) => if d == c then ResetOf(w) else asked
    case _ => asked
  }

  ghost function Asked(steps: seq<Step>, c: nat, asked: Request): Request
    decreases steps
  {
    if steps == [] then asked else Asked(steps[1..], c, AskedNext(steps[0], c, asked))
  }

  /** A caller in the middle of a request is about the one it made last. */
  ghost predicate Minds(x: Caller, n: nat, asked: Request) {
    match x
    case Asking(w, k) => asked == TopOf(w, k) && w < n
    case AwaitingTop(w, k) => asked == TopOf(w, k) && w < n
    case GotTop(w, k, _, _) => asked == TopOf(w, k) && w < n
    case Resetting(w) => asked == ResetOf(w) && w < n
    case _ => true
  }

  lemma StepMinds(hash: string -> nat, s: State, step: Step, c: nat, asked: Request)
    requires Enabled(s, step) && c < |s.callers| && Minds(s.callers[c], |s.workers|, asked)
    ensures var s' := Apply(hash, s, step);
            && |s'.callers| == |s.callers| && |s'.workers| == |s.workers|
            && Minds(s'.callers[c], |s.workers|, AskedNext(step, c, asked))
  {
  }

  lemma {:induction false} RunMinds(hash: string -> nat, s: State, steps: seq<Step>, c: nat, asked: Request)
    requires CanRun(hash, s, steps) && c < |s.callers| && Minds(s.callers[c], |s.workers|, asked)
    ensures var s' := Exec(hash, s, steps);
            && |s'.callers| == |s.callers| && |s'.workers| == |s.workers|
            && Minds(s'.callers[c], |s.workers|, Asked(steps, c, asked))
    decreases steps
  {
    if steps != [] {
      StepMinds(hash, s, steps[0], c, asked);
      RunMinds(hash, Apply(hash, s, steps[0]), steps[1..], c, AskedNext(steps[0], c, asked));
    }
  }

  // ---------------------------------------------------------------- requests are carried out

  /**
    Whenever a reset is accepted, it is of the worker the caller asked to reset: that worker's hotlist is
    empty afterwards, exactly what it held is cleared, and no other worker is touched.
   */
  lemma ResetClears(hash: string -> nat, n: nat, m: nat, steps: seq<Step>, c: nat)
    requires CanRun(hash, Init(n, m), steps) && Enabled(Exec(hash, Init(n, m), steps), AcceptReset(c))
    ensures var s := Exec(hash, Init(n, m), steps);
            var s', asked := Apply(hash, s, AcceptReset(c)), Asked(steps, c, Nothing);
            && asked.ResetOf? && asked.w < n == |s.workers|
            && s'.workers[asked.w].hl == multiset{}
            && s'.workers[asked.w].cleared
               == s.workers[asked.w].cleared + CountedSince(hash, Init(n, m), steps, asked.w, multiset{})
            && s'.callers[c] == Idle
            && forall v :: 0 <= v < n && v != asked.w ==> s'.workers[v] == s.workers[v]
  {
    RunKeepsCallers(hash, Init(n, m), steps);
    RunMinds(hash, Init(n, m), steps, c, Nothing);
    HotlistSinceReset(hash, n, m, steps, Asked(steps, c, Nothing).w);
  }

  lemma {:induction false} RunKeepsCallers(hash: string -> nat, s: State, steps: seq<Step>)
    requires CanRun(hash, s, steps)
    ensures |Exec(hash, s, steps).callers| == |s.callers| && |Exec(hash, s, steps).workers| == |s.workers|
    decreases steps
  {
    if steps != [] {
      StepKeepsCallers(hash, s, steps[0]);
      RunKeepsCallers(hash, Apply(hash, s, steps[0]), steps[1..]);
    }
  }

  lemma StepKeepsCallers(hash: string -> nat, s: State, step: Step)
    requires Enabled(s, step)
    ensures |Apply(hash, s, step).callers| == |s.callers| && |Apply(hash, s, step).workers| == |s.workers|
  {
  }

  /**
    Whenever a caller receives an answer, it is the top of what the worker it asked has counted since its
    last reset, for the number it asked for.
   */
  lemma AnswerIsCurrent(hash: string -> nat, n: nat, m: nat, steps: seq<Step>, w: nat, c: nat)
    requires CanRun(hash, Init(n, m), steps) && Enabled(Exec(hash, Init(n, m), steps), Answer(w, c))
    ensures var s', asked := Apply(hash, Exec(hash, Init(n, m), steps), Answer(w, c)), Asked(steps, c, Nothing);
            var counted := CountedSince(hash, Init(n, m), steps, w, multiset{});
            && asked.TopOf? && asked.w == w && c < |s'.callers|
            && s'.callers[c].GotTop? && s'.callers[c].seen == counted
            && IsTop(s'.callers[c].top, Tally(counted), asked.k)
  {
    InitGood(hash, n, m);
    RunKeepsGood(hash, Init(n, m), steps);
    RunKeepsCallers(hash, Init(n, m), steps);
    RunMinds(hash, Init(n, m), steps, c, Nothing);
    HotlistSinceReset(hash, n, m, steps, w);
    assert ReplyOk(Exec(hash, Init(n, m), steps), w);
  }
}
