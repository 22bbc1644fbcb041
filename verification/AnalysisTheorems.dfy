/** Whole runs of the analysis pool: conservation of events, one slot per key, matched replies. */
module AnalysisTheorems {
  import opened HotList
  import opened Sums
  import opened Grouping
  import opened AnalysisPool
  import opened Report

  // ---------------------------------------------------------------- what is where

  /** All events a worker was ever given: counted, queued, taken but not yet counted, or cleared. */
  ghost function Load(x: Worker): nat { |x.hl| + Total(x.queue) + |x.taken| + |x.cleared| }

  ghost function LoadOf(x: Worker, key: KeyInfo): nat {
    x.hl[key] + InGroups(x.queue, key) + Count(x.taken, key) + x.cleared[key]
  }

  ghost function Todo(c: Caller): seq<seq<KeyInfo>> {
    if c.Sending? || c.Accounting? then c.todo else []
  }

  /** Events a HandleEvents call has not yet added to either counter. */
  ghost function Unaccounted(c: Caller): nat { Total(Todo(c)) + if c.Accounting? then c.size else 0 }

  /** Events that a worker has but that are not yet in the handled counter. */
  ghost function Early(c: Caller): nat { if c.Accounting? && c.accepted then c.size else 0 }

  ghost function Loads(s: State): seq<nat> {
    seq(|s.workers|, w requires 0 <= w < |s.workers| => Load(s.workers[w]))
  }

  ghost function LoadsOf(s: State, key: KeyInfo): seq<nat> {
    seq(|s.workers|, w requires 0 <= w < |s.workers| => LoadOf(s.workers[w], key))
  }

  ghost function Unaccounteds(s: State): seq<nat> {
    seq(|s.callers|, c requires 0 <= c < |s.callers| => Unaccounted(s.callers[c]))
  }

  ghost function Earlies(s: State): seq<nat> {
    seq(|s.callers|, c requires 0 <= c < |s.callers| => Early(s.callers[c]))
  }

  ghost function TodosOf(s: State, key: KeyInfo): seq<nat> {
    seq(|s.callers|, c requires 0 <= c < |s.callers| => InGroups(Todo(s.callers[c]), key))
  }

  /** Every event that passed the filter is accounted for, in total and key by key. */
  ghost predicate Balanced(s: State) {
    && |s.passed| == s.handled + s.dropped + Sum(Unaccounteds(s))
    && s.handled + Sum(Earlies(s)) == Sum(Loads(s))
  }

  ghost predicate BalancedFor(s: State, key: KeyInfo) {
    s.passed[key] == s.refused[key] + Sum(TodosOf(s, key)) + Sum(LoadsOf(s, key))
  }

  // ---------------------------------------------------------------- changing one caller or one worker

  lemma OneCaller(s: State, s': State, c: nat, key: KeyInfo)
    requires c < |s.callers| && |s'.callers| == |s.callers| && s'.callers == s.callers[c := s'.callers[c]]
    ensures Sum(Unaccounteds(s')) + Unaccounted(s.callers[c]) == Sum(Unaccounteds(s)) + Unaccounted(s'.callers[c])
    ensures Sum(Earlies(s')) + Early(s.callers[c]) == Sum(Earlies(s)) + Early(s'.callers[c])
    ensures Sum(TodosOf(s', key)) + InGroups(Todo(s.callers[c]), key)
            == Sum(TodosOf(s, key)) + InGroups(Todo(s'.callers[c]), key)
  {
    assert Unaccounteds(s') == Unaccounteds(s)[c := Unaccounted(s'.callers[c])];
    SumUpdate(Unaccounteds(s), c, Unaccounted(s'.callers[c]));
    assert Earlies(s') == Earlies(s)[c := Early(s'.callers[c])];
    SumUpdate(Earlies(s), c, Early(s'.callers[c]));
    assert TodosOf(s', key) == TodosOf(s, key)[c := InGroups(Todo(s'.callers[c]), key)];
    SumUpdate(TodosOf(s, key), c, InGroups(Todo(s'.callers[c]), key));
  }

  lemma OneWorker(s: State, s': State, w: nat, key: KeyInfo)
    requires w < |s.workers| && |s'.workers| == |s.workers| && s'.workers == s.workers[w := s'.workers[w]]
    ensures Sum(Loads(s')) + Load(s.workers[w]) == Sum(Loads(s)) + Load(s'.workers[w])
    ensures Sum(LoadsOf(s', key)) + LoadOf(s.workers[w], key) == Sum(LoadsOf(s, key)) + LoadOf(s'.workers[w], key)
  {
    assert Loads(s') == Loads(s)[w := Load(s'.workers[w])];
    SumUpdate(Loads(s), w, Load(s'.workers[w]));
    assert LoadsOf(s', key) == LoadsOf(s, key)[w := LoadOf(s'.workers[w], key)];
    SumUpdate(LoadsOf(s, key), w, LoadOf(s'.workers[w], key));
  }

  lemma SameWorkers(s: State, s': State, key: KeyInfo)
    requires s'.workers == s.workers
    ensures Loads(s') == Loads(s) && LoadsOf(s', key) == LoadsOf(s, key)
  {
  }

  lemma SameCallers(s: State, s': State, key: KeyInfo)
    requires s'.callers == s.callers
    ensures Unaccounteds(s') == Unaccounteds(s) && Earlies(s') == Earlies(s) && TodosOf(s', key) == TodosOf(s, key)
  {
  }

  // ---------------------------------------------------------------- every step keeps the balance

  lemma CallerStepBalances(hash: string -> nat, s: State, step: Step, key: KeyInfo)
    requires Enabled(s, step) && Balanced(s) && BalancedFor(s, key)
    requires step.Handle? || step.Account? || step.Finish? || step.AskTop? || step.Consume? || step.AskReset?
    ensures Balanced(Apply(hash, s, step)) && BalancedFor(Apply(hash, s, step), key)
  {
    var s' := Apply(hash, s, step);
    SameWorkers(s, s', key);
    OneCaller(s, s', step.c, key);
    if step.Handle? {
      PartitionKeeps(step.events, KeySlot(hash, |s.workers|), |s.workers|, key);
    }
  }

  lemma SendBalances(s: State, c: nat, key: KeyInfo)
    requires Enabled(s, Send(c)) && Balanced(s) && BalancedFor(s, key)
    ensures Balanced(ApplySend(s, c)) && BalancedFor(ApplySend(s, c), key)
  {
    var s', todo := ApplySend(s, c), s.callers[c].todo;
    var w := |s.workers| - |todo|;
    OneCaller(s, s', c, key);
    if todo[0] != [] && |s.workers[w].queue| < QUEUE_SIZE {
      OneWorker(s, s', w, key);
      GroupsSnoc(s.workers[w].queue, todo[0], key);
    } else {
      SameWorkers(s, s', key);
    }
  }

  lemma WorkerStepBalances(hash: string -> nat, s: State, step: Step, key: KeyInfo)
    requires Enabled(s, step) && Balanced(s) && BalancedFor(s, key) && (step.Take? || step.CountOne?)
    ensures Balanced(Apply(hash, s, step)) && BalancedFor(Apply(hash, s, step), key)
  {
    var s', x := Apply(hash, s, step), s.workers[step.w];
    SameCallers(s, s', key);
    OneWorker(s, s', step.w, key);
    if step.CountOne? {
      assert x.taken == [x.taken[0]] + x.taken[1..];
    }
  }

  lemma MeetingBalances(hash: string -> nat, s: State, step: Step, key: KeyInfo)
    requires Enabled(s, step) && Balanced(s) && BalancedFor(s, key)
    requires step.AcceptTop? || step.Answer? || step.AcceptReset?
    ensures Balanced(Apply(hash, s, step)) && BalancedFor(Apply(hash, s, step), key)
  {
    var s' := Apply(hash, s, step);
    OneCaller(s, s', step.c, key);
    OneWorker(s, s', if step.Answer? then step.w else s.callers[step.c].w, key);
  }

  lemma StepBalances(hash: string -> nat, s: State, step: Step, key: KeyInfo)
    requires Enabled(s, step) && Balanced(s) && BalancedFor(s, key)
    ensures Balanced(Apply(hash, s, step)) && BalancedFor(Apply(hash, s, step), key)
  {
    match step
    case Send(c) => SendBalances(s, c, key);
    case Take(_) => WorkerStepBalances(hash, s, step, key);
    case CountOne(_) => WorkerStepBalances(hash, s, step, key);
    case AcceptTop(_, _) => MeetingBalances(hash, s, step, key);
    case Answer(_, _) => MeetingBalances(hash, s, step, key);
    case AcceptReset(_) => MeetingBalances(hash, s, step, key);
    case _ => CallerStepBalances(hash, s, step, key);
  }

  // ---------------------------------------------------------------- one slot per key

  ghost predicate InSlot(keys: seq<KeyInfo>, slot: KeyInfo -> nat, w: nat) {
    forall x :: x in keys ==> slot(x) == w
  }

  ghost predicate WorkerSlot(x: Worker, slot: KeyInfo -> nat, w: nat) {
    && (forall key :: key in x.hl || key in x.cleared ==> slot(key) == w)
    && InSlot(x.taken, slot, w)
    && forall i :: 0 <= i < |x.queue| ==> InSlot(x.queue[i], slot, w)
  }

  ghost predicate TodoSlot(todo: seq<seq<KeyInfo>>, slot: KeyInfo -> nat, n: nat) {
    |todo| <= n && forall j :: 0 <= j < |todo| ==> InSlot(todo[j], slot, n - |todo| + j)
  }

  ghost predicate SlotsOk(hash: string -> nat, s: State) {
    var n, slot := |s.workers|, KeySlot(hash, |s.workers|);
    && (forall w :: 0 <= w < n ==> WorkerSlot(s.workers[w], slot, w))
    && (forall c :: 0 <= c < |s.callers| ==> TodoSlot(Todo(s.callers[c]), slot, n))
  }

  lemma PartitionSlots(events: seq<KeyInfo>, slot: KeyInfo -> nat, n: nat)
    ensures TodoSlot(Partition(events, slot, n), slot, n)
  {
    forall j | 0 <= j < n
      ensures InSlot(Partition(events, slot, n)[j], slot, j)
    {
      GroupSlot(events, slot, j);
    }
  }

  lemma TodoTail(todo: seq<seq<KeyInfo>>, slot: KeyInfo -> nat, n: nat)
    requires TodoSlot(todo, slot, n) && todo != []
    ensures InSlot(todo[0], slot, n - |todo|) && TodoSlot(todo[1..], slot, n)
  {
    forall j | 0 <= j < |todo| - 1
      ensures InSlot(todo[1..][j], slot, n - |todo[1..]| + j)
    {
      assert todo[1..][j] == todo[j + 1];
    }
  }

  lemma QueuedSlot(x: Worker, batch: seq<KeyInfo>, slot: KeyInfo -> nat, w: nat)
    requires WorkerSlot(x, slot, w) && InSlot(batch, slot, w)
    ensures WorkerSlot(x.(queue := x.queue + [batch]), slot, w)
  {
  }

  /** A step that changes at most one caller and one worker, both of them within their slots. */
  lemma SlotsFrame(hash: string -> nat, s: State, s': State, w: nat, c: nat)
    requires SlotsOk(hash, s) && |s'.workers| == |s.workers| && |s'.callers| == |s.callers|
    requires forall v :: 0 <= v < |s.workers| && v != w ==> s'.workers[v] == s.workers[v]
    requires forall d :: 0 <= d < |s.callers| && d != c ==> s'.callers[d] == s.callers[d]
    requires w < |s.workers| ==> WorkerSlot(s'.workers[w], KeySlot(hash, |s.workers|), w)
    requires c < |s.callers| ==> TodoSlot(Todo(s'.callers[c]), KeySlot(hash, |s.workers|), |s.workers|)
    ensures SlotsOk(hash, s')
  {
  }

  lemma CallerStepKeepsSlots(hash: string -> nat, s: State, step: Step)
    requires SlotsOk(hash, s) && Enabled(s, step)
    requires step.Handle? || step.Account? || step.Finish? || step.AskTop? || step.Consume? || step.AskReset?
    ensures SlotsOk(hash, Apply(hash, s, step))
  {
    var s', n, slot := Apply(hash, s, step), |s.workers|, KeySlot(hash, |s.workers|);
    assert TodoSlot(Todo(s.callers[step.c]), slot, n);
    if step.Handle? {
      PartitionSlots(step.events, slot, n);
    }
    SlotsFrame(hash, s, s', n, step.c);
  }

  lemma SendKeepsSlots(hash: string -> nat, s: State, c: nat)
    requires SlotsOk(hash, s) && Enabled(s, Send(c))
    ensures SlotsOk(hash, ApplySend(s, c))
  {
    var s', n, slot := ApplySend(s, c), |s.workers|, KeySlot(hash, |s.workers|);
    var w := n - |s.callers[c].todo|;
    assert TodoSlot(Todo(s.callers[c]), slot, n) && WorkerSlot(s.workers[w], slot, w);
    TodoTail(s.callers[c].todo, slot, n);
    if s'.workers == s.workers {
      SlotsFrame(hash, s, s', n, c);
    } else {
      QueuedSlot(s.workers[w], s.callers[c].todo[0], slot, w);
      SlotsFrame(hash, s, s', w, c);
    }
  }

  lemma WorkerStepKeepsSlots(hash: string -> nat, s: State, step: Step)
    requires SlotsOk(hash, s) && Enabled(s, step) && (step.Take? || step.CountOne?)
    ensures SlotsOk(hash, Apply(hash, s, step))
  {
    var s', slot := Apply(hash, s, step), KeySlot(hash, |s.workers|);
    var x := s.workers[step.w];
    assert WorkerSlot(x, slot, step.w);
    if step.CountOne? {
      assert x.taken[0] in x.taken;
    } else {
      assert InSlot(x.queue[0], slot, step.w);
    }
    SlotsFrame(hash, s, s', step.w, |s.callers|);
  }

  lemma MeetingKeepsSlots(hash: string -> nat, s: State, step: Step)
    requires SlotsOk(hash, s) && Enabled(s, step) && (step.AcceptTop? || step.Answer? || step.AcceptReset?)
    ensures SlotsOk(hash, Apply(hash, s, step))
  {
    var s', w := Apply(hash, s, step), if step.Answer? then step.w else s.callers[step.c].w;
    assert WorkerSlot(s.workers[w], KeySlot(hash, |s.workers|), w);
    SlotsFrame(hash, s, s', w, step.c);
  }

  lemma StepKeepsSlots(hash: string -> nat, s: State, step: Step)
    requires SlotsOk(hash, s) && Enabled(s, step)
    ensures SlotsOk(hash, Apply(hash, s, step))
  {
    match step
    case Send(c) => SendKeepsSlots(hash, s, c);
    case Take(_) => WorkerStepKeepsSlots(hash, s, step);
    case CountOne(_) => WorkerStepKeepsSlots(hash, s, step);
    case AcceptTop(_, _) => MeetingKeepsSlots(hash, s, step);
    case Answer(_, _) => MeetingKeepsSlots(hash, s, step);
    case AcceptReset(_) => MeetingKeepsSlots(hash, s, step);
    case _ => CallerStepKeepsSlots(hash, s, step);
  }

  // ---------------------------------------------------------------- requests and replies

  /**
    A worker that is replying owes exactly one caller, who awaits that reply, and its hotlist is still the
    one the reply was computed from; otherwise nobody awaits one.
   */
  ghost predicate ReplyOk(s: State, w: nat)
    requires w < |s.workers|
  {
    match s.workers[w].reply
    case NoReply => forall c :: 0 <= c < |s.callers| ==> !(s.callers[c].AwaitingTop? && s.callers[c].w == w)
    case Replying(c, k, seen, top) =>
      && c < |s.callers| && s.callers[c] == AwaitingTop(w, k)
      && IsTop(top, Tally(seen), k) && seen == s.workers[w].hl && s.workers[w].taken == []
      && forall d :: 0 <= d < |s.callers| && d != c ==> !(s.callers[d].AwaitingTop? && s.callers[d].w == w)
  }

  ghost predicate CallerOk(s: State, c: nat)
    requires c < |s.callers|
  {
    var x := s.callers[c];
    && (x.AwaitingTop? ==> x.w < |s.workers|)
    && (x.GotTop? ==> IsTop(x.top, Tally(x.seen), x.k))
  }

  ghost predicate RepliesOk(s: State) {
    && (forall w :: 0 <= w < |s.workers| ==> ReplyOk(s, w))
    && (forall c :: 0 <= c < |s.callers| ==> CallerOk(s, c))
  }

  /** A caller that neither stops nor starts awaiting changes no worker's debt. */
  lemma OtherCallerStep(s: State, s': State, c: nat)
    requires RepliesOk(s) && c < |s.callers| && |s'.callers| == |s.callers| && |s'.workers| == |s.workers|
    requires s'.callers == s.callers[c := s'.callers[c]] && CallerOk(s', c)
    requires !s.callers[c].AwaitingTop? && !s'.callers[c].AwaitingTop?
    requires forall w :: 0 <= w < |s.workers| ==> KeepsReply(s.workers[w], s'.workers[w])
    ensures RepliesOk(s')
  {
    forall w | 0 <= w < |s.workers|
      ensures ReplyOk(s', w)
    {
      assert ReplyOk(s, w);
    }
    forall d | 0 <= d < |s.callers|
      ensures CallerOk(s', d)
    {
      assert CallerOk(s, d);
    }
  }

  /** A worker that owes a reply does nothing else in the meantime. */
  predicate KeepsReply(x: Worker, y: Worker) {
    y.reply == x.reply && (x.reply.Replying? ==> y.hl == x.hl && y.taken == x.taken)
  }

  lemma AcceptTopKeepsReplies(hash: string -> nat, s: State, c: nat, top: seq<Entry>)
    requires RepliesOk(s) && Enabled(s, AcceptTop(c, top))
    ensures RepliesOk(Apply(hash, s, AcceptTop(c, top)))
  {
    var s', w := Apply(hash, s, AcceptTop(c, top)), s.callers[c].w;
    forall v | 0 <= v < |s.workers|
      ensures ReplyOk(s', v)
    {
      assert ReplyOk(s, v);
    }
    forall d | 0 <= d < |s.callers|
      ensures CallerOk(s', d)
    {
      assert CallerOk(s, d);
    }
  }

  /** Whoever takes the reply is the caller it was computed for. */
  lemma AnswerGoesToAsker(s: State, w: nat, c: nat)
    requires RepliesOk(s) && Enabled(s, Answer(w, c))
    ensures s.workers[w].reply.caller == c && s.workers[w].reply.k == s.callers[c].k
  {
    assert ReplyOk(s, w);
  }

  lemma AnswerKeepsReplies(hash: string -> nat, s: State, w: nat, c: nat)
    requires RepliesOk(s) && Enabled(s, Answer(w, c))
    ensures RepliesOk(Apply(hash, s, Answer(w, c)))
  {
    var s' := Apply(hash, s, Answer(w, c));
    AnswerGoesToAsker(s, w, c);
    forall v | 0 <= v < |s.workers|
      ensures ReplyOk(s', v)
    {
      assert ReplyOk(s, v) && ReplyOk(s, w);
    }
    forall d | 0 <= d < |s.callers|
      ensures CallerOk(s', d)
    {
      assert CallerOk(s, d) && ReplyOk(s, w);
    }
  }

  lemma StepKeepsReplies(hash: string -> nat, s: State, step: Step)
    requires RepliesOk(s) && Enabled(s, step)
    ensures RepliesOk(Apply(hash, s, step))
  {
    var s' := Apply(hash, s, step);
    match step
    case AcceptTop(c, top) => AcceptTopKeepsReplies(hash, s, c, top);
    case Answer(w, c) => AnswerKeepsReplies(hash, s, w, c);
    case Take(w) => WorkerOnly(s, s');
    case CountOne(w) =>
      assert ReplyOk(s, w);
      WorkerOnly(s, s');
    case _ => OtherCallerStep(s, s', step.c);
  }

  lemma WorkerOnly(s: State, s': State)
    requires RepliesOk(s) && s'.callers == s.callers && |s'.workers| == |s.workers|
    requires forall w :: 0 <= w < |s.workers| ==> KeepsReply(s.workers[w], s'.workers[w])
    ensures RepliesOk(s')
  {
    forall w | 0 <= w < |s.workers|
      ensures ReplyOk(s', w)
    {
      assert ReplyOk(s, w);
    }
    forall d | 0 <= d < |s.callers|
      ensures CallerOk(s', d)
    {
      assert CallerOk(s, d);
    }
  }

  /** What a caller got back was counted by the worker it asked, so it lies in that worker's slot. */
  ghost predicate SeenOk(hash: string -> nat, s: State) {
    forall c :: 0 <= c < |s.callers| ==> SeenSlot(s.callers[c], KeySlot(hash, |s.workers|), |s.workers|)
  }

  ghost predicate SeenSlot(x: Caller, slot: KeyInfo -> nat, n: nat) {
    x.GotTop? ==> x.w < n && forall key :: key in x.seen ==> slot(key) == x.w
  }

  lemma StepKeepsSeen(hash: string -> nat, s: State, step: Step)
    requires SlotsOk(hash, s) && RepliesOk(s) && SeenOk(hash, s) && Enabled(s, step)
    ensures SeenOk(hash, Apply(hash, s, step))
  {
    var s', slot := Apply(hash, s, step), KeySlot(hash, |s.workers|);
    forall d | 0 <= d < |s'.callers|
      ensures SeenSlot(s'.callers[d], slot, |s.workers|)
    {
      assert SeenSlot(s.callers[d], slot, |s.workers|);
      if step.Answer? {
        AnsweredSeen(hash, s, step.w, step.c);
      }
    }
    StepKeepsSize(hash, s, step);
  }

  lemma AnsweredSeen(hash: string -> nat, s: State, w: nat, c: nat)
    requires SlotsOk(hash, s) && RepliesOk(s) && Enabled(s, Answer(w, c))
    ensures SeenSlot(Apply(hash, s, Answer(w, c)).callers[c], KeySlot(hash, |s.workers|), |s.workers|)
  {
    assert ReplyOk(s, w) && WorkerSlot(s.workers[w], KeySlot(hash, |s.workers|), w);
  }

  // ---------------------------------------------------------------- whole runs

  ghost predicate Good(hash: string -> nat, s: State) {
    && Balanced(s) && SlotsOk(hash, s) && RepliesOk(s) && SeenOk(hash, s)
    && forall key :: BalancedFor(s, key)
  }

  lemma InitGood(hash: string -> nat, n: nat, m: nat)
    ensures Good(hash, Init(n, m))
  {
    var s := Init(n, m);
    assert Balanced(s) by {
      SumZero(Unaccounteds(s));
      SumZero(Earlies(s));
      SumZero(Loads(s));
    }
    InitInPlace(hash, n, m);
    forall key
      ensures BalancedFor(s, key)
    {
      InitBalancedFor(n, m, key);
    }
  }

  lemma InitInPlace(hash: string -> nat, n: nat, m: nat)
    ensures SlotsOk(hash, Init(n, m)) && RepliesOk(Init(n, m)) && SeenOk(hash, Init(n, m))
  {
  }

  lemma InitBalancedFor(n: nat, m: nat, key: KeyInfo)
    ensures BalancedFor(Init(n, m), key)
  {
    SumZero(TodosOf(Init(n, m), key));
    SumZero(LoadsOf(Init(n, m), key));
  }

  lemma StepKeepsGood(hash: string -> nat, s: State, step: Step)
    requires Good(hash, s) && Enabled(s, step)
    ensures Good(hash, Apply(hash, s, step))
  {
    StepKeepsSlots(hash, s, step);
    StepKeepsReplies(hash, s, step);
    StepKeepsSeen(hash, s, step);
    forall key
      ensures Balanced(Apply(hash, s, step)) && BalancedFor(Apply(hash, s, step), key)
    {
      StepBalances(hash, s, step, key);
    }
    assert BalancedFor(Apply(hash, s, step), KeyInfo("", 0));
  }

  ghost predicate CanRun(hash: string -> nat, s: State, steps: seq<Step>)
    decreases steps
  {
    steps == [] || (Enabled(s, steps[0]) && CanRun(hash, Apply(hash, s, steps[0]), steps[1..]))
  }

  ghost function Exec(hash: string -> nat, s: State, steps: seq<Step>): State
    requires CanRun(hash, s, steps)
    decreases steps
  {
    if steps == [] then s else Exec(hash, Apply(hash, s, steps[0]), steps[1..])
  }

  lemma OneStep(hash: string -> nat, s: State, step: Step)
    requires Enabled(s, step)
    ensures CanRun(hash, s, [step]) && Exec(hash, s, [step]) == Apply(hash, s, step)
  {
    assert [step][1..] == [];
  }

  lemma {:induction false} RunOn(hash: string -> nat, s: State, a: seq<Step>, b: seq<Step>)
    requires CanRun(hash, s, a) && CanRun(hash, Exec(hash, s, a), b)
    ensures CanRun(hash, s, a + b) && Exec(hash, s, a + b) == Exec(hash, Exec(hash, s, a), b)
    decreases a
  {
    if a == [] {
      assert a + b == b;
    } else {
      var s' := Apply(hash, s, a[0]);
      RunOn(hash, s', a[1..], b);
      Prepend(hash, s, s', a, b);
    }
  }

  lemma Prepend(hash: string -> nat, s: State, s': State, a: seq<Step>, b: seq<Step>)
    requires a != [] && Enabled(s, a[0]) && s' == Apply(hash, s, a[0]) && CanRun(hash, s', a[1..] + b)
    ensures CanRun(hash, s, a + b) && Exec(hash, s, a + b) == Exec(hash, s', a[1..] + b)
  {
    assert (a + b)[0] == a[0] && (a + b)[1..] == a[1..] + b;
  }

  /** A step after a run. */
  lemma Extend(hash: string -> nat, s: State, steps: seq<Step>, step: Step)
    requires CanRun(hash, s, steps) && Enabled(Exec(hash, s, steps), step)
    ensures CanRun(hash, s, steps + [step])
    ensures Exec(hash, s, steps + [step]) == Apply(hash, Exec(hash, s, steps), step)
  {
    OneStep(hash, Exec(hash, s, steps), step);
    RunOn(hash, s, steps, [step]);
  }

  lemma StepKeepsSize(hash: string -> nat, s: State, step: Step)
    requires Enabled(s, step)
    ensures |Apply(hash, s, step).workers| == |s.workers|
  {
  }

  lemma {:induction false} RunKeepsGood(hash: string -> nat, s: State, steps: seq<Step>)
    requires Good(hash, s) && CanRun(hash, s, steps)
    ensures Good(hash, Exec(hash, s, steps)) && |Exec(hash, s, steps).workers| == |s.workers|
    decreases steps
  {
    if steps != [] {
      var s1 := Apply(hash, s, steps[0]);
      assert Good(hash, s1) by { StepKeepsGood(hash, s, steps[0]); }
      assert |s1.workers| == |s.workers| by { StepKeepsSize(hash, s, steps[0]); }
      RunKeepsGood(hash, s1, steps[1..]);
    }
  }

  /** The events that the calls of a run have passed in, after the filter. */
  ghost function Given(steps: seq<Step>): multiset<KeyInfo> {
    if steps == [] then multiset{}
    else (if steps[0].Handle? then multiset(steps[0].events) else multiset{}) + Given(steps[1..])
  }

  lemma StepGives(hash: string -> nat, s: State, step: Step)
    requires Enabled(s, step)
    ensures Apply(hash, s, step).passed == s.passed + if step.Handle? then multiset(step.events) else multiset{}
  {
  }

  lemma {:induction false} RunGives(hash: string -> nat, s: State, steps: seq<Step>)
    requires CanRun(hash, s, steps)
    ensures Exec(hash, s, steps).passed == s.passed + Given(steps)
    decreases steps
  {
    if steps != [] {
      StepGives(hash, s, steps[0]);
      RunGives(hash, Apply(hash, s, steps[0]), steps[1..]);
    }
  }

  ghost predicate NoCallUnderWay(s: State) {
    forall c :: 0 <= c < |s.callers| ==> !s.callers[c].Sending? && !s.callers[c].Accounting?
  }

  /**
    In every reachable state the events that passed the filter are handled, dropped or in the hands of a
    call, and the handled ones are counted, queued, taken or cleared, up to those a call has queued but
    not yet added. Whenever no call is under way the counters are exact.
   */
  lemma EventsConserved(hash: string -> nat, n: nat, m: nat, steps: seq<Step>)
    requires CanRun(hash, Init(n, m), steps)
    ensures var s := Exec(hash, Init(n, m), steps);
            && |Given(steps)| == s.handled + s.dropped + Sum(Unaccounteds(s))
            && s.handled + Sum(Earlies(s)) == Sum(Loads(s))
            && (NoCallUnderWay(s) ==> |Given(steps)| == s.handled + s.dropped && s.handled == Sum(Loads(s)))
  {
    InitGood(hash, n, m);
    RunKeepsGood(hash, Init(n, m), steps);
    RunGives(hash, Init(n, m), steps);
    assert multiset{} + Given(steps) == Given(steps);
    var s := Exec(hash, Init(n, m), steps);
    if NoCallUnderWay(s) {
      SumZero(Unaccounteds(s));
      SumZero(Earlies(s));
    }
  }

  lemma {:induction false} SumOnly(counts: seq<nat>, i: nat)
    requires i < |counts| && forall j :: 0 <= j < |counts| && j != i ==> counts[j] == 0
    ensures Sum(counts) == counts[i]
  {
    SumUpdate(counts, i, 0);
    SumZero(counts[i := 0]);
  }

  lemma {:induction false} NotInGroups(groups: seq<seq<KeyInfo>>, slot: KeyInfo -> nat, w: nat, key: KeyInfo)
    requires slot(key) != w && forall i :: 0 <= i < |groups| ==> InSlot(groups[i], slot, w)
    ensures InGroups(groups, key) == 0
  {
    if groups != [] {
      assert InSlot(groups[0], slot, w);
      NotInGroups(groups[1..], slot, w, key);
    }
  }

  /** A key never turns up at a worker that is not its own. */
  lemma OnlyOwnSlot(hash: string -> nat, s: State, key: KeyInfo, w: nat)
    requires SlotsOk(hash, s) && w < |s.workers| && w != KeySlot(hash, |s.workers|)(key)
    ensures LoadOf(s.workers[w], key) == 0
  {
    var x, slot := s.workers[w], KeySlot(hash, |s.workers|);
    assert WorkerSlot(x, slot, w);
    NotInGroups(x.queue, slot, w, key);
    assert key !in x.taken && key !in x.hl && key !in x.cleared;
  }

  /**
    The partitioned hotlists together are one global counter. In every reachable state all of a key's
    events that passed were refused, are in the hands of a call, or are with the key's own worker, and no
    other worker has any; once nothing is queued or taken they are counted there or cleared by a reset.
   */
  lemma GlobalCounter(hash: string -> nat, n: nat, m: nat, steps: seq<Step>, key: KeyInfo)
    requires n > 0 && CanRun(hash, Init(n, m), steps)
    ensures var s, own := Exec(hash, Init(n, m), steps), hash(key.name) % n;
            && own < |s.workers| == n
            && Given(steps)[key] == s.refused[key] + Sum(TodosOf(s, key)) + LoadOf(s.workers[own], key)
            && (forall w :: 0 <= w < n && w != own ==> LoadOf(s.workers[w], key) == 0)
            && (NoCallUnderWay(s) && s.workers[own].queue == [] && s.workers[own].taken == [] ==>
                  Given(steps)[key] == s.refused[key] + s.workers[own].hl[key] + s.workers[own].cleared[key])
  {
    InitGood(hash, n, m);
    RunKeepsGood(hash, Init(n, m), steps);
    RunGives(hash, Init(n, m), steps);
    var s, own := Exec(hash, Init(n, m), steps), KeySlot(hash, n)(key);
    assert BalancedFor(s, key);
    forall w | 0 <= w < n && w != own
      ensures LoadOf(s.workers[w], key) == 0
    {
      OnlyOwnSlot(hash, s, key, w);
    }
    SumOnly(LoadsOf(s, key), own);
    if NoCallUnderWay(s) {
      SumZero(TodosOf(s, key));
    }
  }

  /**
    At most one caller awaits a worker's reply, exactly when the worker is replying, and the reply is the
    top of that worker's hotlist for the caller's own k.
   */
  lemma RepliesMatched(hash: string -> nat, n: nat, m: nat, steps: seq<Step>, w: nat, c: nat)
    requires CanRun(hash, Init(n, m), steps) && w < n
    ensures var s := Exec(hash, Init(n, m), steps);
            && w < |s.workers|
            && (s.workers[w].reply.Replying? <==>
                  exists d :: 0 <= d < |s.callers| && s.callers[d].AwaitingTop? && s.callers[d].w == w)
            && (c < |s.callers| && s.callers[c].AwaitingTop? && s.callers[c].w == w ==>
                  var r := s.workers[w].reply;
                  && r.Replying? && r.caller == c && r.k == s.callers[c].k && r.seen == s.workers[w].hl
                  && IsTop(r.top, Tally(s.workers[w].hl), s.callers[c].k))
            && (c < |s.callers| && s.callers[c].GotTop? ==>
                  IsTop(s.callers[c].top, Tally(s.callers[c].seen), s.callers[c].k))
  {
    InitGood(hash, n, m);
    RunKeepsGood(hash, Init(n, m), steps);
    var s := Exec(hash, Init(n, m), steps);
    assert ReplyOk(s, w);
    if s.workers[w].reply.Replying? {
      assert s.callers[s.workers[w].reply.caller].AwaitingTop?;
    }
    if c < |s.callers| {
      assert CallerOk(s, c);
    }
  }

  ghost function Hotlists(s: State): seq<Counts> {
    seq(|s.workers|, w requires 0 <= w < |s.workers| => Tally(s.workers[w].hl))
  }

  /** In every run the workers' hotlists have no key in common, as the merged report needs. */
  lemma HotlistsDisjoint(hash: string -> nat, n: nat, m: nat, steps: seq<Step>)
    requires n > 0 && CanRun(hash, Init(n, m), steps)
    ensures Disjoint(Hotlists(Exec(hash, Init(n, m), steps)))
  {
    InitGood(hash, n, m);
    RunKeepsGood(hash, Init(n, m), steps);
    var s := Exec(hash, Init(n, m), steps);
    var slot := (name: string) => hash(name) % n;
    forall i, x: KeyInfo | 0 <= i < |Hotlists(s)| && x in Hotlists(s)[i]
      ensures slot(x.name) == 0 + i
    {
      assert WorkerSlot(s.workers[i], KeySlot(hash, n), i);
    }
    SlotsDisjoint(Hotlists(s), slot, 0);
  }

  // ---------------------------------------------------------------- a report over time

  /** Some run has left some caller with this reply. */
  ghost predicate Obtained(hash: string -> nat, n: nat, m: nat, x: Caller) {
    exists steps, c | CanRun(hash, Init(n, m), steps) && 0 <= c < |Exec(hash, Init(n, m), steps).callers| ::
      Exec(hash, Init(n, m), steps).callers[c] == x
  }

  /** The replies to asking every worker in turn for its top k, each at its own moment. */
  ghost predicate Polled(hash: string -> nat, n: nat, m: nat, replies: seq<Caller>, k: nat) {
    |replies| == n &&
    forall i :: 0 <= i < n ==>
      replies[i].GotTop? && replies[i].w == i && replies[i].k == k && Obtained(hash, n, m, replies[i])
  }

  ghost function Tops(replies: seq<Caller>): seq<seq<Entry>>
    requires forall x :: x in replies ==> x.GotTop?
  {
    seq(|replies|, i requires 0 <= i < |replies| => replies[i].top)
  }

  ghost function SeenBy(replies: seq<Caller>): seq<Counts>
    requires forall x :: x in replies ==> x.GotTop?
  {
    seq(|replies|, i requires 0 <= i < |replies| => Tally(replies[i].seen))
  }

  lemma ReplyInSlot(hash: string -> nat, n: nat, m: nat, x: Caller)
    requires x.GotTop? && Obtained(hash, n, m, x)
    ensures IsTop(x.top, Tally(x.seen), x.k) && SeenSlot(x, KeySlot(hash, n), n)
  {
    var steps, c :| CanRun(hash, Init(n, m), steps) && 0 <= c < |Exec(hash, Init(n, m), steps).callers|
      && Exec(hash, Init(n, m), steps).callers[c] == x;
    InitGood(hash, n, m);
    RunKeepsGood(hash, Init(n, m), steps);
    var s := Exec(hash, Init(n, m), steps);
    assert CallerOk(s, c) && SeenSlot(s.callers[c], KeySlot(hash, n), n);
  }

  /**
    Though the workers are asked at different moments, while others go on counting and resetting, what
    they answer from has no key in common, and the first k entries of the merged answers are the k
    heaviest of all of it.
   */
  lemma PolledReport(hash: string -> nat, n: nat, m: nat, replies: seq<Caller>, k: nat, sorted: seq<Entry>)
    requires n > 0 && Polled(hash, n, m, replies, k)
    requires multiset(sorted) == multiset(Flatten(Tops(replies))) && SortedDesc(sorted, TotalWeight)
    ensures Disjoint(SeenBy(replies)) && AllTops(Tops(replies), SeenBy(replies), k)
    ensures IsTop(sorted[..Min(k, |sorted|)], Union(SeenBy(replies)), k)
  {
    var hotlists, slot := SeenBy(replies), (name: string) => hash(name) % n;
    forall i | 0 <= i < n
      ensures IsTop(Tops(replies)[i], hotlists[i], k) && SeenSlot(replies[i], KeySlot(hash, n), n)
    {
      ReplyInSlot(hash, n, m, replies[i]);
    }
    forall i, x: KeyInfo | 0 <= i < |hotlists| && x in hotlists[i]
      ensures slot(x.name) == 0 + i
    {
      assert SeenSlot(replies[i], KeySlot(hash, n), n);
    }
    SlotsDisjoint(hotlists, slot, 0);
    MergedTop(Tops(replies), hotlists, sorted, k);
  }
}
