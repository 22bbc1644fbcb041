/**
  The analysis pool as a machine: any number of callers hand it events, ask for top lists and reset
  it, while its workers count. A step is one channel operation, one atomic counter update or one
  counted event; steps of different threads interleave freely.
 */
module AnalysisPool {
  import opened HotList
  import opened Grouping

  /** What a worker still owes the caller that asked for a top list: computed for `k` from `seen`. */
  datatype Reply = NoReply | Replying(caller: nat, k: nat, seen: multiset<KeyInfo>, top: seq<Entry>)

  /** `taken` is the rest of the batch being counted, `cleared` everything removed by resets. */
  datatype Worker = Worker(
    queue: seq<seq<KeyInfo>>,
    taken: seq<KeyInfo>,
    hl: multiset<KeyInfo>,
    cleared: multiset<KeyInfo>,
    reply: Reply
  )

  datatype Caller =
    | Idle
    | Sending(todo: seq<seq<KeyInfo>>)
    | Accounting(todo: seq<seq<KeyInfo>>, size: nat, accepted: bool)
    | Asking(w: nat, k: nat)
    | AwaitingTop(w: nat, k: nat)
    | GotTop(w: nat, k: nat, seen: multiset<KeyInfo>, top: seq<Entry>)
    | Resetting(w: nat)

  datatype State = State(
    workers: seq<Worker>,
    callers: seq<Caller>,
    handled: nat,
    dropped: nat,
    passed: multiset<KeyInfo>,
    refused: multiset<KeyInfo>
  )

  const QUEUE_SIZE := 1024

  datatype Step =
    | Handle(c: nat, events: seq<KeyInfo>)
    | Send(c: nat)
    | Account(c: nat)
    | Finish(c: nat)
    | Take(w: nat)
    | CountOne(w: nat)
    | AskTop(c: nat, w: nat, k: nat)
    | AcceptTop(c: nat, top: seq<Entry>)
    | Answer(w: nat, c: nat)
    | Consume(c: nat)
    | AskReset(c: nat, w: nat)
    | AcceptReset(c: nat)

  /** The counts a hotlist holds after adding the items of a multiset one by one. */
  function Tally(seen: multiset<KeyInfo>): Counts {
    map x | x in seen :: seen[x]
  }

  /** Adding an item to the hotlist's map is adding it to the multiset. */
  lemma TallyAdd(seen: multiset<KeyInfo>, x: KeyInfo)
    ensures Tally(seen + multiset{x}) == Tally(seen)[x := CountOf(Tally(seen), x) + 1]
  {
  }

  /** The worker for an item; `hash` stands for the 64-bit FNV-1a hash of the cache key. */
  function KeySlot(hash: string -> nat, n: nat): KeyInfo -> nat {
    (x: KeyInfo) => if n == 0 then 0 else hash(x.name) % n
  }

  /** A worker at its select statement: nothing taken, nobody owed a reply. */
  predicate Ready(x: Worker) { x.taken == [] && x.reply == NoReply }

  ghost predicate Enabled(s: State, step: Step) {
    var n, m := |s.workers|, |s.callers|;
    match step
    case Handle(c, _) => c < m && s.callers[c] == Idle && n > 0
    case Send(c) => c < m && s.callers[c].Sending? && 0 < |s.callers[c].todo| <= n
    case Account(c) => c < m && s.callers[c].Accounting?
    case Finish(c) => c < m && s.callers[c] == Sending([])
    case Take(w) => w < n && Ready(s.workers[w]) && s.workers[w].queue != []
    case CountOne(w) => w < n && s.workers[w].taken != []
    case AskTop(c, w, _) => c < m && s.callers[c] == Idle && w < n
    case AcceptTop(c, top) =>
      && c < m && s.callers[c].Asking? && s.callers[c].w < n && Ready(s.workers[s.callers[c].w])
      && IsTop(top, Tally(s.workers[s.callers[c].w].hl), s.callers[c].k)
    case Answer(w, c) =>
      w < n && s.workers[w].reply.Replying? && c < m && s.callers[c].AwaitingTop? && s.callers[c].w == w
    case Consume(c) => c < m && s.callers[c].GotTop?
    case AskReset(c, w) => c < m && s.callers[c] == Idle && w < n
    case AcceptReset(c) => c < m && s.callers[c].Resetting? && s.callers[c].w < n && Ready(s.workers[s.callers[c].w])
  }

  function SetCaller(s: State, c: nat, x: Caller): State
    requires c < |s.callers|
  {
    s.(callers := s.callers[c := x])
  }

  function SetWorker(s: State, w: nat, x: Worker): State
    requires w < |s.workers|
  {
    s.(workers := s.workers[w := x])
  }

  function Apply(hash: string -> nat, s: State, step: Step): State
    requires Enabled(s, step)
  {
    match step
    case Handle(c, events) =>
      SetCaller(s, c, Sending(Partition(events, KeySlot(hash, |s.workers|), |s.workers|)))
      .(passed := s.passed + multiset(events))
    case Send(c) => ApplySend(s, c)
    case Account(c) =>
      var x := s.callers[c];
      var s' := SetCaller(s, c, Sending(x.todo));
      if x.accepted then s'.(handled := s.handled + x.size) else s'.(dropped := s.dropped + x.size)
    case Finish(c) => SetCaller(s, c, Idle)
    case Take(w) =>
      var x := s.workers[w];
      SetWorker(s, w, x.(taken := x.queue[0], queue := x.queue[1..]))
    case CountOne(w) =>
      var x := s.workers[w];
      SetWorker(s, w, x.(hl := x.hl + multiset{x.taken[0]}, taken := x.taken[1..]))
    case AskTop(c, w, k) => SetCaller(s, c, Asking(w, k))
    case AcceptTop(c, top) =>
      var w, k := s.callers[c].w, s.callers[c].k;
      SetCaller(SetWorker(s, w, s.workers[w].(reply := Replying(c, k, s.workers[w].hl, top))), c, AwaitingTop(w, k))
    case Answer(w, c) =>
      var r := s.workers[w].reply;
      SetCaller(SetWorker(s, w, s.workers[w].(reply := NoReply)), c, GotTop(w, s.callers[c].k, r.seen, r.top))
    case Consume(c) => SetCaller(s, c, Idle)
    case AskReset(c, w) => SetCaller(s, c, Resetting(w))
    case AcceptReset(c) =>
      var w := s.callers[c].w;
      var x := s.workers[w];
      SetCaller(SetWorker(s, w, x.(hl := multiset{}, cleared := x.cleared + x.hl)), c, Idle)
  }

  /** The next worker's events are queued, or refused as a whole if its queue is full. */
  function ApplySend(s: State, c: nat): State
    requires c < |s.callers| && s.callers[c].Sending? && 0 < |s.callers[c].todo| <= |s.workers|
  {
    var todo := s.callers[c].todo;
    var w := |s.workers| - |todo|;
    if todo[0] == [] then SetCaller(s, c, Sending(todo[1..]))
    else if |s.workers[w].queue| < QUEUE_SIZE then
      SetCaller(SetWorker(s, w, s.workers[w].(queue := s.workers[w].queue + [todo[0]])), c,
                Accounting(todo[1..], |todo[0]|, true))
    else
      SetCaller(s, c, Accounting(todo[1..], |todo[0]|, false)).(refused := s.refused + multiset(todo[0]))
  }

  function Init(workers: nat, callers: nat): State {
    State(seq(workers, _ => Worker([], [], multiset{}, multiset{}, NoReply)), seq(callers, _ => Idle),
          0, 0, multiset{}, multiset{})
  }
}
