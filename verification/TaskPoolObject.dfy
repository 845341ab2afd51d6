/** The pool as an object: what its threads do to the shared fields, each method one step of the protocol. */
module TaskPoolObject {
  import opened TaskPool

  class SharedPool {
    var threads: seq<Worker>
    var tasks: seq<nat>
    var exitRequested: bool
    var admitted: seq<Task>
    var accepted: seq<Task>
    ghost var taken: seq<nat>
    ghost var answered: seq<Answer>
    ghost var dropped: seq<nat>

    ghost function State(): Pool
      reads this
    {
      Pool(threads, tasks, exitRequested, admitted, accepted, taken, answered, dropped)
    }

    constructor ()
      ensures State() == Fresh() && Inv(State())
    {
      threads, tasks, exitRequested, admitted, accepted := [], [], false, [], [];
      taken, answered, dropped := [], [], [];
    }

    method Init(n: int) returns (ok: bool)
      requires Inv(State())
      modifies this
      ensures Inv(State()) && ok == (old(threads) == [] && n >= 1)
      ensures State() == if n >= 1 then Step(old(State()), Start(n)) else old(State())
    {
      if threads != [] || n < 1 { return false; }
      StepKeeps(State(), Start(n));
      threads := seq(n, _ => Ready);
      return true;
    }

    /** The part of AddTask in front of the lock. */
    method TestTask(t: Task) returns (ok: bool)
      requires Inv(State())
      modifies this
      ensures Inv(State()) && ok == (old(threads) != [] && !Empty(t))
      ensures State() == Step(old(State()), Admit(t))
    {
      StepKeeps(State(), Admit(t));
      if threads == [] || Empty(t) { return false; }
      admitted := admitted + [t];
      return true;
    }

    /** The part of AddTask under the lock, for the caller whose task is `admitted[j]`. */
    method PushTask(j: nat)
      requires Inv(State()) && j < |admitted|
      modifies this
      ensures Inv(State()) && State() == Step(old(State()), Push(j))
      ensures forall i :: 0 <= i < |threads| ==> threads[i] != Asleep(false)
    {
      StepKeeps(State(), Push(j));
      tasks := tasks + [|accepted|];
      accepted := accepted + [admitted[j]];
      admitted := admitted[..j] + admitted[j + 1..];
      threads := NotifyAll(threads);
    }

    method NextTask() returns (n: nat, found: bool)
      requires InOrder(State())
      modifies this`tasks, this`taken
      ensures found == (old(tasks) != [])
      ensures if found then old(tasks) == [n] + tasks && taken == old(taken) + [n]
              else tasks == old(tasks) && taken == old(taken)
    {
      if tasks == [] { return 0, false; }
      n := tasks[0];
      tasks := tasks[1..];
      taken := taken + [n];
      return n, true;
    }

    /** One pass of worker `i` under the lock: it ends up asleep, with a task, or at its end. */
    method Lock(i: nat)
      requires Inv(State()) && i < |threads| && (threads[i].Ready? || threads[i].Asleep?)
      modifies this
      ensures Inv(State()) && State() == Step(old(State()), Work(i, true))
    {
      StepKeeps(State(), Work(i, true));
      var n, found := NextTask();
      if !found && !exitRequested {
        threads := threads[i := Asleep(false)];
      } else if found && !exitRequested {
        threads := threads[i := Rendering(n)];
      } else {
        if found { dropped := dropped + [n]; }
        threads := threads[i := Done];
      }
    }

    /** The rendering comes to an end, well or by an exception. */
    method Render(i: nat, well: bool)
      requires Inv(State()) && i < |threads| && threads[i].Rendering?
      modifies this`threads
      ensures Inv(State()) && State() == Step(old(State()), Work(i, well))
    {
      StepKeeps(State(), Work(i, well));
      threads := threads[i := Rendered(threads[i].n, if well then 200 else 500)];
    }

    /** The second look at the exit flag. */
    method LookAgain(i: nat)
      requires Inv(State()) && i < |threads| && threads[i].Rendered?
      modifies this
      ensures Inv(State()) && State() == Step(old(State()), Work(i, true))
    {
      StepKeeps(State(), Work(i, true));
      var n, code := threads[i].n, threads[i].code;
      if exitRequested {
        dropped := dropped + [n];
        threads := threads[i := Done];
      } else {
        threads := threads[i := Sending(n, code)];
      }
    }

    method Reply(i: nat) returns (n: nat, code: int)
      requires Inv(State()) && i < |threads| && threads[i].Sending?
      modifies this
      ensures Inv(State()) && State() == Step(old(State()), Work(i, true))
      ensures answered == old(answered) + [Answer(n, code)] && Replies(old(answered), n) == 0
    {
      StepKeeps(State(), Work(i, true));
      n, code := threads[i].n, threads[i].code;
      FirstReply(State(), i);
      answered := answered + [Answer(n, code)];
      threads := threads[i := Ready];
    }

    /** The critical section of Stop. */
    method RequestExit()
      requires Inv(State())
      modifies this
      ensures Inv(State()) && State() == Step(old(State()), Stop)
      ensures threads != [] ==> exitRequested && tasks == []
    {
      StepKeeps(State(), Stop);
      if threads == [] { return; }
      dropped := dropped + tasks;
      tasks := [];
      exitRequested := true;
      threads := NotifyAll(threads);
    }

    /** The rest of `Stop(true)`, once every thread has ended. */
    method JoinAll()
      requires Inv(State()) && exitRequested && AllDone(State())
      modifies this`threads
      ensures Inv(State()) && threads == [] && State() == Step(old(State()), Join)
    {
      StepKeeps(State(), Join);
      threads := [];
    }
  }

  /** A task in a worker's hands has not been answered. */
  lemma FirstReply(p: Pool, i: nat)
    requires Conserved(p) && i < |p.threads| && p.threads[i].Sending?
    ensures Replies(p.answered, p.threads[i].n) == 0
  {
    var n := p.threads[i].n;
    HeldUpdate(p.threads, i, Ready, n);
    assert Places(p, n) <= 1;
  }
}
