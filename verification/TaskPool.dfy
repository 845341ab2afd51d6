/** The rendering pool: workers, a queue, a condition variable and shutdown, as interleaved atomic steps.
    A step is what one thread does between taking and giving up the mutex, or outside it on its own. */
module TaskPool {

  /** The parts of a task; 0 stands for an empty pointer. */
  datatype Task = Task(connection: nat, page: nat, out: nat)

  predicate Empty(t: Task) { t.connection == 0 || t.page == 0 || t.out == 0 }

  /** Where a worker is; tasks go by the number of their acceptance. */
  datatype Worker =
    | Ready                           // about to lock
    | Asleep(notified: bool)          // in the condition variable
    | Rendering(n: nat)
    | Rendered(n: nat, code: int)     // about to lock again
    | Sending(n: nat, code: int)      // saw no exit request
    | Done

  datatype Answer = Answer(n: nat, code: int)

  /** `admitted` holds the callers of AddTask that are past the first test but not yet at the lock; the last
      four fields are the history: what was accepted, dequeued, answered and dropped so far. */
  datatype Pool = Pool(
    threads: seq<Worker>, tasks: seq<nat>, exitRequested: bool, admitted: seq<Task>,
    accepted: seq<Task>, taken: seq<nat>, answered: seq<Answer>, dropped: seq<nat>)

  datatype Action = Start(n: nat) | Admit(t: Task) | Push(j: nat) | Stop | Join | Work(i: nat, rendered: bool)

  function Fresh(): Pool { Pool([], [], false, [], [], [], [], []) }

  function NotifyAll(ws: seq<Worker>): (r: seq<Worker>)
    ensures |r| == |ws|
  {
    seq(|ws|, i requires 0 <= i < |ws| => if ws[i].Asleep? then Asleep(true) else ws[i])
  }

  /** The critical section at the head of the worker's loop, entered at its start or on waking up. */
  function Locked(p: Pool, i: nat): Pool
    requires i < |p.threads|
  {
    if p.tasks != [] then
      var n := p.tasks[0];
      var q := p.(tasks := p.tasks[1..], taken := p.taken + [n]);
      if p.exitRequested then q.(threads := p.threads[i := Done], dropped := p.dropped + [n])
      else q.(threads := p.threads[i := Rendering(n)])
    else
      p.(threads := p.threads[i := if p.exitRequested then Done else Asleep(false)])
  }

  /** One step of worker `i`; a sleeper may wake up unasked. */
  function Worked(p: Pool, i: nat, rendered: bool): Pool
    requires i < |p.threads|
  {
    match p.threads[i]
    case Ready => Locked(p, i)
    case Asleep(_) => Locked(p, i)
    case Rendering(n) => p.(threads := p.threads[i := Rendered(n, if rendered then 200 else 500)])
    case Rendered(n, code) =>
      if p.exitRequested then p.(threads := p.threads[i := Done], dropped := p.dropped + [n])
      else p.(threads := p.threads[i := Sending(n, code)])
    case Sending(n, code) =>
      p.(threads := p.threads[i := Ready], answered := p.answered + [Answer(n, code)])
    case Done => p
  }

  predicate AllDone(p: Pool) { forall i :: 0 <= i < |p.threads| ==> p.threads[i].Done? }

  function Step(p: Pool, a: Action): Pool {
    match a
    case Start(n) => if p.threads != [] || n < 1 then p else p.(threads := seq(n, _ => Ready))
    case Admit(t) => if p.threads == [] || Empty(t) then p else p.(admitted := p.admitted + [t])
    case Push(j) =>
      if j >= |p.admitted| then p
      else p.(threads := NotifyAll(p.threads), tasks := p.tasks + [|p.accepted|],
              accepted := p.accepted + [p.admitted[j]], admitted := p.admitted[..j] + p.admitted[j + 1..])
    case Stop =>
      if p.threads == [] then p
      else p.(threads := NotifyAll(p.threads), tasks := [], dropped := p.dropped + p.tasks, exitRequested := true)
    case Join => if p.exitRequested && AllDone(p) then p.(threads := []) else p
    case Work(i, rendered) => if i < |p.threads| then Worked(p, i, rendered) else p
  }

  function Run(p: Pool, acts: seq<Action>): Pool
    decreases |acts|
  {
    if acts == [] then p else Run(Step(p, acts[0]), acts[1..])
  }

  // ---------- what every step keeps ----------

  /** How often `k` occurs. */
  function Times(s: seq<nat>, k: nat): nat {
    if s == [] then 0 else (if s[0] == k then 1 else 0) + Times(s[1..], k)
  }

  function Holds(w: Worker, k: nat): nat {
    if (w.Rendering? && w.n == k) || (w.Rendered? && w.n == k) || (w.Sending? && w.n == k) then 1 else 0
  }

  function Held(ws: seq<Worker>, k: nat): nat {
    if ws == [] then 0 else Holds(ws[0], k) + Held(ws[1..], k)
  }

  function Replies(answers: seq<Answer>, k: nat): nat {
    if answers == [] then 0 else (if answers[0].n == k then 1 else 0) + Replies(answers[1..], k)
  }

  /** In how many places task `k` is: queued, in workers' hands, answered, dropped. */
  function Places(p: Pool, k: nat): nat {
    Times(p.tasks, k) + Held(p.threads, k) + Replies(p.answered, k) + Times(p.dropped, k)
  }

  /** Every accepted task is in exactly one place, and nothing else is anywhere. */
  ghost predicate Conserved(p: Pool) {
    forall k: nat :: Places(p, k) == if k < |p.accepted| then 1 else 0
  }

  /** The queue holds the youngest accepted tasks in order, and what was dequeued was dequeued in order. */
  ghost predicate InOrder(p: Pool) {
    && |p.tasks| <= |p.accepted|
    && (forall j :: 0 <= j < |p.tasks| ==> p.tasks[j] == |p.accepted| - |p.tasks| + j)
    && (forall j :: 0 <= j < |p.taken| ==> p.taken[j] < |p.accepted| - |p.tasks|)
    && (forall j, k :: 0 <= j < k < |p.taken| ==> p.taken[j] < p.taken[k])
  }

  /** A worker that sleeps and has not been notified has nothing to wake up for. */
  ghost predicate NoLostWakeup(p: Pool) {
    forall i :: 0 <= i < |p.threads| && p.threads[i] == Asleep(false) ==> p.tasks == [] && !p.exitRequested
  }

  ghost predicate Inv(p: Pool) { Conserved(p) && InOrder(p) && NoLostWakeup(p) }

  lemma {:induction false} HeldUpdate(ws: seq<Worker>, i: nat, w: Worker, k: nat)
    requires i < |ws|
    ensures Held(ws[i := w], k) + Holds(ws[i], k) == Held(ws, k) + Holds(w, k)
    decreases i
  {
    hide Holds;
    if i == 0 {
      assert ws[i := w][1..] == ws[1..];
    } else {
      assert ws[i := w][1..] == ws[1..][i - 1 := w];
      HeldUpdate(ws[1..], i - 1, w, k);
    }
  }

  lemma {:induction false} HeldNotify(ws: seq<Worker>, k: nat)
    ensures Held(NotifyAll(ws), k) == Held(ws, k)
    decreases |ws|
  {
    if ws != [] {
      HeldNotify(ws[1..], k);
      assert NotifyAll(ws)[1..] == NotifyAll(ws[1..]);
    }
  }

  lemma {:induction false} HeldNothing(ws: seq<Worker>, k: nat)
    requires forall i :: 0 <= i < |ws| ==> ws[i].Ready? || ws[i].Done?
    ensures Held(ws, k) == 0
    decreases |ws|
  {
    if ws != [] { HeldNothing(ws[1..], k); }
  }

  lemma {:induction false} TimesConcat(a: seq<nat>, b: seq<nat>, k: nat)
    ensures Times(a + b, k) == Times(a, k) + Times(b, k)
    decreases |a|
  {
    if a == [] {
      assert a + b == b;
    } else {
      assert (a + b)[1..] == a[1..] + b;
      TimesConcat(a[1..], b, k);
    }
  }

  lemma TimesOne(s: seq<nat>, n: nat, k: nat)
    ensures Times(s + [n], k) == Times(s, k) + if n == k then 1 else 0
  {
    TimesConcat(s, [n], k);
  }

  lemma {:induction false} RepliesOne(s: seq<Answer>, a: Answer, k: nat)
    ensures Replies(s + [a], k) == Replies(s, k) + if a.n == k then 1 else 0
    decreases |s|
  {
    if s == [] {
      assert s + [a] == [a];
    } else {
      assert (s + [a])[1..] == s[1..] + [a];
      RepliesOne(s[1..], a, k);
    }
  }

  /** A worker's step takes nothing away and adds nothing. */
  lemma WorkedConserves(p: Pool, i: nat, rendered: bool, k: nat)
    requires i < |p.threads|
    ensures Places(Worked(p, i, rendered), k) == Places(p, k)
  {
    hide Held, Replies;
    var q := Worked(p, i, rendered);
    HeldUpdate(p.threads, i, q.threads[i], k);
    var w := p.threads[i];
    if w.Ready? || w.Asleep? {
      if p.tasks != [] { TimesOne(p.dropped, p.tasks[0], k); }
    } else if w.Sending? {
      RepliesOne(p.answered, Answer(w.n, w.code), k);
      assert q.threads == p.threads[i := Ready];
    } else if w.Rendered? {
      TimesOne(p.dropped, w.n, k);
    } else if w.Done? {
      assert p.threads[i := Done] == p.threads;
    }
  }

  /** Only a push adds a task, the next in number. */
  lemma StepConserves(p: Pool, a: Action, k: nat)
    ensures var q := Step(p, a);
            Places(q, k) == Places(p, k) + if |q.accepted| > |p.accepted| && k == |p.accepted| then 1 else 0
  {
    hide Held, Worked, Times;
    match a
    case Start(n) => HeldNothing(seq(n, _ => Ready), k); HeldNothing([], k);
    case Admit(t) =>
    case Push(j) => HeldNotify(p.threads, k); TimesOne(p.tasks, |p.accepted|, k);
    case Stop => HeldNotify(p.threads, k); TimesConcat(p.dropped, p.tasks, k); TimesNone(k);
    case Join => if AllDone(p) { HeldNothing(p.threads, k); HeldNothing([], k); }
    case Work(i, rendered) => if i < |p.threads| { WorkedConserves(p, i, rendered, k); WorkedAccepts(p, i, rendered); }
  }

  lemma TimesNone(k: nat)
    ensures Times([], k) == 0
  {
  }

  lemma WorkedAccepts(p: Pool, i: nat, rendered: bool)
    requires i < |p.threads|
    ensures Worked(p, i, rendered).accepted == p.accepted
  {
  }

  lemma StepAccepts(p: Pool, a: Action)
    ensures |p.accepted| <= |Step(p, a).accepted| <= |p.accepted| + 1
  {
  }

  lemma StepInOrder(p: Pool, a: Action)
    requires InOrder(p)
    ensures InOrder(Step(p, a)) && p.taken <= Step(p, a).taken
  {
  }

  lemma StepWakes(p: Pool, a: Action)
    requires NoLostWakeup(p)
    ensures NoLostWakeup(Step(p, a))
  {
  }

  /** One step, whoever takes it. */
  lemma StepKeeps(p: Pool, a: Action)
    requires Inv(p)
    ensures Inv(Step(p, a))
  {
    hide Step, Places;
    StepInOrder(p, a);
    StepWakes(p, a);
    StepAccepts(p, a);
    forall k: nat ensures Places(Step(p, a), k) == if k < |Step(p, a).accepted| then 1 else 0 {
      StepConserves(p, a, k);
    }
  }

  /** Every interleaving; tasks are dequeued in the order of their acceptance. */
  lemma {:induction false} RunKeeps(p: Pool, acts: seq<Action>)
    requires Inv(p)
    ensures Inv(Run(p, acts)) && p.taken <= Run(p, acts).taken
    decreases |acts|
  {
    hide Conserved, NoLostWakeup, Step;
    if acts != [] {
      StepKeeps(p, acts[0]);
      StepInOrder(p, acts[0]);
      RunKeeps(Step(p, acts[0]), acts[1..]);
    }
  }

  /** Said of single tasks and workers. */
  lemma {:induction false} RunsAreGood(acts: seq<Action>, k: nat, i: nat)
    ensures var p := Run(Fresh(), acts);
            && Places(p, k) == (if k < |p.accepted| then 1 else 0)
            && Replies(p.answered, k) <= 1
            && (i < |p.threads| && p.threads[i] == Asleep(false) ==> p.tasks == [] && !p.exitRequested)
            && (forall j, l :: 0 <= j < l < |p.taken| ==> p.taken[j] < p.taken[l])
  {
    hide Run;
    assert Inv(Fresh());
    RunKeeps(Fresh(), acts);
  }

  // ---------- shutdown ----------

  /** Workers that got past the last look at the exit flag. */
  function Senders(ws: seq<Worker>): (n: nat)
    ensures n <= |ws|
  {
    if ws == [] then 0 else (if ws[0].Sending? then 1 else 0) + Senders(ws[1..])
  }

  lemma {:induction false} SendersUpdate(ws: seq<Worker>, i: nat, w: Worker)
    requires i < |ws|
    ensures Senders(ws[i := w]) + (if ws[i].Sending? then 1 else 0) == Senders(ws) + (if w.Sending? then 1 else 0)
    decreases i
  {
    if i == 0 {
      assert ws[i := w][1..] == ws[1..];
    } else {
      assert ws[i := w][1..] == ws[1..][i - 1 := w];
      SendersUpdate(ws[1..], i - 1, w);
    }
  }

  lemma {:induction false} SendersNotify(ws: seq<Worker>)
    ensures Senders(NotifyAll(ws)) == Senders(ws)
    decreases |ws|
  {
    if ws != [] {
      SendersNotify(ws[1..]);
      assert NotifyAll(ws)[1..] == NotifyAll(ws[1..]);
    }
  }

  lemma {:induction false} NoSenders(ws: seq<Worker>)
    requires forall i :: 0 <= i < |ws| ==> !ws[i].Sending?
    ensures Senders(ws) == 0
    decreases |ws|
  {
    if ws != [] { NoSenders(ws[1..]); }
  }

  /** Behind an exit request nobody starts rendering, and a reply uses up a sender. */
  lemma ExitStep(p: Pool, a: Action)
    requires p.exitRequested
    ensures var q := Step(p, a);
            && q.exitRequested
            && (forall i :: 0 <= i < |q.threads| && q.threads[i].Rendering? ==>
               i < |p.threads| && p.threads[i] == q.threads[i])
            && p.answered <= q.answered
            && |q.answered| + Senders(q.threads) <= |p.answered| + Senders(p.threads)
  {
    hide Senders;
    match a
    case Start(n) => NoSenders(seq(n, _ => Ready)); NoSenders([]);
    case Admit(t) =>
    case Push(j) => SendersNotify(p.threads);
    case Stop => SendersNotify(p.threads);
    case Join => NoSenders([]);
    case Work(i, rendered) =>
      if i < |p.threads| { SendersUpdate(p.threads, i, Worked(p, i, rendered).threads[i]); }
  }

  /** After the request at most one more reply per worker: of those that were about to send. */
  lemma {:induction false} RepliesAfterExit(p: Pool, acts: seq<Action>)
    requires p.exitRequested
    ensures var q := Run(p, acts);
            && q.exitRequested && p.answered <= q.answered
            && |q.answered| + Senders(q.threads) <= |p.answered| + Senders(p.threads) <= |p.answered| + |p.threads|
    decreases |acts|
  {
    hide Step, Senders;
    if acts != [] {
      ExitStep(p, acts[0]);
      RepliesAfterExit(Step(p, acts[0]), acts[1..]);
    }
  }

  /** How many steps of its own a worker still has before it ends. */
  function Rank(w: Worker): nat {
    match w
    case Rendering(_) => 2
    case Sending(_, _) => 2
    case Done => 0
    case _ => 1
  }

  function OwnSteps(acts: seq<Action>, i: nat): nat {
    if acts == [] then 0
    else (if acts[0].Work? && acts[0].i == i then 1 else 0) + OwnSteps(acts[1..], i)
  }

  predicate Undisturbed(acts: seq<Action>) {
    forall j :: 0 <= j < |acts| ==> !acts[j].Join? && !acts[j].Start?
  }

  lemma ExitRank(p: Pool, a: Action, i: nat)
    requires p.exitRequested && i < |p.threads| && !a.Join? && !a.Start?
    ensures var q := Step(p, a);
            && |q.threads| == |p.threads|
            && Rank(q.threads[i])
            == if a.Work? && a.i == i && Rank(p.threads[i]) > 0 then Rank(p.threads[i]) - 1 else Rank(p.threads[i])
  {
  }

  /** Two steps of its own, in whatever run and whatever is still pushed, and a worker is at its end. */
  lemma {:induction false} WorkersEnd(p: Pool, acts: seq<Action>, i: nat)
    requires p.exitRequested && i < |p.threads| && Undisturbed(acts)
    ensures |Run(p, acts).threads| == |p.threads|
    ensures OwnSteps(acts, i) >= Rank(p.threads[i]) ==> Run(p, acts).threads[i].Done?
    decreases |acts|
  {
    hide Step;
    if acts != [] {
      ExitRank(p, acts[0], i);
      ExitStep(p, acts[0]);
      WorkersEnd(Step(p, acts[0]), acts[1..], i);
    }
  }

  /** So the join in `Stop(true)` comes through, and afterwards nothing is ever answered again. */
  lemma StopReturns(p: Pool, acts: seq<Action>, later: seq<Action>)
    requires p.exitRequested && Undisturbed(acts)
    requires forall i :: 0 <= i < |p.threads| ==> OwnSteps(acts, i) >= 2
    ensures var q := Run(p, acts);
            && Step(q, Join).threads == []
            && Run(Step(q, Join), later).answered == q.answered
  {
    hide Run;
    var q := Run(p, acts);
    SameWorkers(p, acts);
    RepliesAfterExit(p, acts);
    forall i | 0 <= i < |q.threads| ensures q.threads[i].Done? { WorkersEnd(p, acts, i); }
    RepliesAfterExit(Step(q, Join), later);
  }

  lemma {:induction false} SameWorkers(p: Pool, acts: seq<Action>)
    requires Undisturbed(acts)
    ensures |Run(p, acts).threads| == |p.threads|
    decreases |acts|
  {
    if acts != [] { SameWorkers(Step(p, acts[0]), acts[1..]); }
  }

  // ---------- no starvation ----------

  /** The number of tasks that have left the queue. */
  function Front(p: Pool): int { |p.accepted| - |p.tasks| }

  /** Own steps until the worker looks at the queue again. */
  function Away(w: Worker): (n: nat)
    ensures n > 0
  {
    match w
    case Rendering(_) => 4
    case Rendered(_, _) => 3
    case Sending(_, _) => 2
    case _ => 1
  }

  predicate Open(acts: seq<Action>) { forall j :: 0 <= j < |acts| ==> acts[j].Work? || acts[j].Admit? || acts[j].Push? }

  lemma ServingStep(p: Pool, a: Action, i: nat, k: nat)
    requires !p.exitRequested && i < |p.threads| && !p.threads[i].Done? && Front(p) <= k < |p.accepted|
    requires a.Work? || a.Admit? || a.Push?
    ensures var q := Step(p, a);
            && !q.exitRequested && |q.threads| == |p.threads| && !q.threads[i].Done? && k < |q.accepted|
            && Front(p) <= Front(q)
            && 4 * (k - Front(q)) + Away(q.threads[i]) + (if a.Work? && a.i == i then 1 else 0)
               <= 4 * (k - Front(p)) + Away(p.threads[i])
  {
  }

  /** A queued task leaves the queue once any one worker has taken enough steps of its own, however many
      tasks are pushed behind it and whatever the other workers do. */
  lemma {:induction false} NoStarvation(p: Pool, acts: seq<Action>, i: nat, k: nat)
    requires !p.exitRequested && i < |p.threads| && !p.threads[i].Done? && Front(p) <= k < |p.accepted|
    requires Open(acts) && OwnSteps(acts, i) >= 4 * (k - Front(p)) + Away(p.threads[i])
    ensures k < Front(Run(p, acts))
    decreases |acts|
  {
    hide Step, Away;
    var q := Step(p, acts[0]);
    ServingStep(p, acts[0], i, k);
    if k < Front(q) {
      FrontGrows(q, acts[1..]);
    } else {
      NoStarvation(q, acts[1..], i, k);
    }
  }

  lemma FrontStep(p: Pool, a: Action)
    requires a.Work? || a.Admit? || a.Push?
    ensures Front(p) <= Front(Step(p, a))
  {
  }

  lemma {:induction false} FrontGrows(p: Pool, acts: seq<Action>)
    requires Open(acts)
    ensures Front(p) <= Front(Run(p, acts))
    decreases |acts|
  {
    hide Step;
    if acts != [] {
      FrontStep(p, acts[0]);
      FrontGrows(Step(p, acts[0]), acts[1..]);
    }
  }
}
