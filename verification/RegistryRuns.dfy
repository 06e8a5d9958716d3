/** What has become of a client at the end of a run, in terms of the steps of the run: whether it lives, whether it was
    cancelled, whether it has a server id, and what its name leads to. */
module RegistryRuns {
  import opened Wire
  import opened Registry
  import Decimal

  // ---- What a step does to a client --------------------------------------------------------------------------

  /** What can happen to a client. */
  datatype Happening = Creation | Answer | Cancellation | Deletion

  /** Creation gives the client the next number; the answer is the server's to the subscription, with an id; a
      cancellation has to be successful, and the client has to have a server id. */
  ghost predicate HappensIn(s: State, step: Step, c: nat, what: Happening)
  {
    match what
    case Creation => step.Create? && step.t in s.threads && s.threads[step.t].Creating? && c == s.next
    case Answer => step.Metadata? && step.present && step.t in s.threads && s.threads[step.t] == Subscribing(c)
    case Cancellation =>
      step.Cancel? && step.success && step.t in s.threads && s.threads[step.t] == Cancelling(c) && c in s.clients &&
      s.clients[c].serverIdValid
    case Deletion => step.Delete? && step.t in s.threads && s.threads[step.t] == Ending(c)
  }

  lemma AliveStep(s: State, step: Step, c: nat)
    requires Safe(s)
    ensures c in Do(s, step).clients
       <==> (c in s.clients || HappensIn(s, step, c, Creation)) && !HappensIn(s, step, c, Deletion)
    ensures HappensIn(s, step, c, Creation) ==> c !in s.clients && !HappensIn(s, step, c, Deletion)
    ensures HappensIn(s, step, c, Deletion) ==> c in s.clients
  {
    hide EntriesAreLive, ManagementStays, LateAtMostOnce;
    if HappensIn(s, step, c, Deletion) { assert Owns(s.threads[step.t]); }
  }

  lemma FlagsStep(s: State, step: Step, c: nat)
    requires Safe(s) && c in Do(s, step).clients
    ensures c in s.clients ==>
              Do(s, step).clients[c].active == (s.clients[c].active && !HappensIn(s, step, c, Cancellation)) &&
              Do(s, step).clients[c].serverIdValid == (s.clients[c].serverIdValid || HappensIn(s, step, c, Answer))
    ensures c !in s.clients ==>
              c == s.next && Do(s, step).clients[c].active && !Do(s, step).clients[c].serverIdValid &&
              !HappensIn(s, step, c, Cancellation) && !HappensIn(s, step, c, Answer)
  {
    hide EntriesAreLive, ManagementStays, LateAtMostOnce;
    AliveStep(s, step, c);
    if HappensIn(s, step, c, Answer) { assert Owns(s.threads[step.t]); }
  }

  /** The client that a thread is at work with. */
  function ClientOf(th: Thread): Option<nat>
  {
    match th
    case Subscribing(c) => Some(c)
    case Reading(c) => Some(c)
    case Checking(c) => Some(c)
    case Processing(c) => Some(c)
    case Ending(c) => Some(c)
    case Cancelling(c) => Some(c)
    case _ => None
  }

  /** A step leaves every other client as it is. */
  lemma OthersUntouched(s: State, step: Step, c: nat)
    requires Safe(s) && c in s.clients
    requires step.ResetNumbers? || step.t !in s.threads || ClientOf(s.threads[step.t]) != Some(c)
    ensures c in Do(s, step).clients && Do(s, step).clients[c] == s.clients[c]
  {
  }

  // ---- Over a run --------------------------------------------------------------------------------------------

  ghost predicate Happens(steps: seq<Step>, i: nat, c: nat, what: Happening)
    requires i < |steps|
  {
    HappensIn(Exec(START, steps[..i]), steps[i], c, what)
  }

  ghost predicate Ever(steps: seq<Step>, c: nat, what: Happening)
  {
    exists i :: 0 <= i < |steps| && Happens(steps, i, c, what)
  }

  /** What happened in a run happened in its first part or in its last step. */
  lemma EverLast(steps: seq<Step>, c: nat, what: Happening)
    requires steps != []
    ensures var init, step := steps[..|steps| - 1], steps[|steps| - 1];
            Ever(steps, c, what) <==> Ever(init, c, what) || HappensIn(Exec(START, init), step, c, what)
  {
    hide HappensIn, Exec;
    var n := |steps| - 1;
    var init := steps[..n];
    forall i | 0 <= i < n ensures Happens(init, i, c, what) == Happens(steps, i, c, what) {
      assert init[..i] == steps[..i];
    }
    if HappensIn(Exec(START, init), steps[n], c, what) { assert Happens(steps, n, c, what); }
    if Ever(init, c, what) {
      var i :| 0 <= i < n && Happens(init, i, c, what);
      assert Happens(steps, i, c, what);
    }
  }

  /** Nothing has happened to a client whose number has not been given out. */
  lemma NotYet(steps: seq<Step>, i: nat, c: nat, what: Happening)
    requires i < |steps| && c >= Exec(START, steps).next
    ensures !Happens(steps, i, c, what)
  {
    hide Do, Safe, Exec, HappensIn;
    var s := Exec(START, steps[..i]);
    AlwaysSafe(steps[..i]);
    assert steps[..i + 1] + steps[i + 1..] == steps;
    ExecAppend(START, steps[..i + 1], steps[i + 1..]);
    NextGrows(Exec(START, steps[..i + 1]), steps[i + 1..]);
    ExecStep(steps, i);
    NotYetIn(s, steps[i], c, what);
  }

  lemma NotYetIn(s: State, step: Step, c: nat, what: Happening)
    requires Safe(s) && c >= Do(s, step).next
    ensures !HappensIn(s, step, c, what)
  {
    hide EntriesAreLive, ManagementStays, LateAtMostOnce;
    if step.Metadata? && step.t in s.threads && s.threads[step.t] == Subscribing(c) { assert Owns(s.threads[step.t]); }
  }

  lemma FreshNumber(init: seq<Step>, step: Step, c: nat, what: Happening)
    requires HappensIn(Exec(START, init), step, c, Creation)
    ensures !Ever(init, c, what)
  {
    hide Happens;
    forall i | 0 <= i < |init| ensures !Happens(init, i, c, what) { NotYet(init, i, c, what); }
  }

  /** A client lives at the end of a run exactly if it was created, by the start of the program or in the run, and not
      deleted. */
  lemma {:induction false} AliveIff(steps: seq<Step>, c: nat)
    ensures c in Exec(START, steps).clients <==> (c == 0 || Ever(steps, c, Creation)) && !Ever(steps, c, Deletion)
    decreases |steps|
  {
    hide Do, Safe;
    if steps == [] {
      NothingEver(c);
    } else {
      var n := |steps| - 1;
      var init, s := steps[..n], Exec(START, steps[..n]);
      AliveIff(init, c);
      AlwaysSafe(init);
      AliveStep(s, steps[n], c);
      EverLast(steps, c, Creation);
      EverLast(steps, c, Deletion);
      if HappensIn(s, steps[n], c, Creation) { FreshNumber(init, steps[n], c, Deletion); }
    }
  }

  lemma NothingEver(c: nat)
    ensures forall what :: !Ever([], c, what)
  {
  }

  /** Cancelling works, and nothing else stops a client: over every run, a client that lives at the end is inactive
      exactly if the run contains a successful cancellation of it while it had a server id; and it has a server id
      exactly if the run contains the server's answer with one. */
  lemma {:induction false} InactiveIff(steps: seq<Step>, c: nat)
    requires c in Exec(START, steps).clients
    ensures !Exec(START, steps).clients[c].active <==> Ever(steps, c, Cancellation)
    ensures Exec(START, steps).clients[c].serverIdValid <==> Ever(steps, c, Answer)
    decreases |steps|
  {
    hide Do, Safe;
    if steps == [] {
      NothingEver(c);
    } else {
      var n := |steps| - 1;
      var init, s := steps[..n], Exec(START, steps[..n]);
      AlwaysSafe(init);
      AliveStep(s, steps[n], c);
      FlagsStep(s, steps[n], c);
      EverLast(steps, c, Cancellation);
      EverLast(steps, c, Answer);
      if c in s.clients { InactiveIff(init, c); } else {
        FreshNumber(init, steps[n], c, Cancellation);
        FreshNumber(init, steps[n], c, Answer);
      }
    }
  }

  /** The check of the read loop over every run: a client that was cancelled leaves the loop, any other goes on. */
  lemma CheckDecides(steps: seq<Step>, t: nat, c: nat)
    requires t in Exec(START, steps).threads && Exec(START, steps).threads[t] == Checking(c)
    ensures Do(Exec(START, steps), Check(t)).threads[t]
         == if Ever(steps, c, Cancellation) then Ending(c) else Processing(c)
  {
    hide Exec;
    var s := Exec(START, steps);
    AlwaysSafe(steps);
    assert Owns(s.threads[t]);
    InactiveIff(steps, c);
  }

  // ---- The read loop over a run ------------------------------------------------------------------------------

  /** What the thread of a subscription does with messages. */
  datatype Work = Reads | Checks | Passes | Processes

  predicate WorksIn(s: State, step: Step, t: nat, what: Work)
  {
    Enabled(s, step) &&
    match what
    case Reads => step == Read(t, true)
    case Checks => step == Check(t)
    case Passes => step == Check(t) && ActiveIn(s, s.threads[t])
    case Processes => step == Process(t)
  }

  predicate ActiveIn(s: State, th: Thread)
  {
    th.Checking? && th.client in s.clients && s.clients[th.client].active
  }

  function One(b: bool): nat { if b then 1 else 0 }

  /** How often the thread has done it. */
  ghost function Times(steps: seq<Step>, t: nat, what: Work): nat
  {
    if steps == [] then 0
    else
      var n := |steps| - 1;
      Times(steps[..n], t, what) + One(WorksIn(Exec(START, steps[..n]), steps[n], t, what))
  }

  lemma WorkStep(s: State, step: Step, t: nat)
    ensures var s' := Do(s, step);
            One(t in s.threads && s.threads[t].Checking?) + One(WorksIn(s, step, t, Reads)) ==
            One(t in s'.threads && s'.threads[t].Checking?) + One(WorksIn(s, step, t, Checks))
    ensures var s' := Do(s, step);
            One(t in s.threads && s.threads[t].Processing?) + One(WorksIn(s, step, t, Passes)) ==
            One(t in s'.threads && s'.threads[t].Processing?) + One(WorksIn(s, step, t, Processes))
  {
  }

  /** Over every run and for every thread: each message that was read is checked once, and each that passes the check is
      processed once; at most the last one is still on its way. */
  lemma {:induction false} EveryMessageOnce(steps: seq<Step>, t: nat)
    ensures var s := Exec(START, steps);
            Times(steps, t, Reads) == Times(steps, t, Checks) + One(t in s.threads && s.threads[t].Checking?)
    ensures var s := Exec(START, steps);
            Times(steps, t, Passes) == Times(steps, t, Processes) + One(t in s.threads && s.threads[t].Processing?)
    decreases |steps|
  {
    hide Do, WorksIn, One;
    if steps == [] {
      NoThreads();
    } else {
      EveryMessageOnce(steps[..|steps| - 1], t);
      WorkStep(Exec(START, steps[..|steps| - 1]), steps[|steps| - 1], t);
    }
  }

  lemma NoThreads()
    ensures One(false) == 0 && forall t :: t !in START.threads
  {
  }

  /** A thread with a client gives up: the server's metadata is missing, the stream is over, or the check of a message
      finds the client cancelled. */
  ghost predicate GivesUpIn(s: State, step: Step, t: nat, c: nat)
  {
    t in s.threads &&
    ((step == Metadata(t, false) && s.threads[t] == Subscribing(c)) ||
     (step == Read(t, false) && s.threads[t] == Reading(c)) ||
     (step == Check(t) && s.threads[t] == Checking(c) && !ActiveIn(s, s.threads[t])))
  }

  lemma GivesUpStep(s: State, step: Step, t: nat, c: nat)
    requires Safe(s)
    ensures IsAt(Do(s, step), t, Ending(c)) <==>
            GivesUpIn(s, step, t, c) || (IsAt(s, t, Ending(c)) && step != Delete(t))
  {
    hide EntriesAreLive, ManagementStays, LateAtMostOnce;
    if t in s.threads && Owns(s.threads[t]) { assert s.threads[t].client in s.clients; }
  }

  ghost predicate IsAt(s: State, t: nat, th: Thread) { t in s.threads && s.threads[t] == th }

  /** Some step of the run entered, and no later one left. */
  ghost predicate Entered(steps: seq<Step>, enter: (State, Step) -> bool, leave: Step)
  {
    exists i :: 0 <= i < |steps| && EntersAt(steps, i, enter) && leave !in steps[i + 1..]
  }

  ghost predicate EntersAt(steps: seq<Step>, i: nat, enter: (State, Step) -> bool)
    requires i < |steps|
  {
    enter(Exec(START, steps[..i]), steps[i])
  }

  lemma EnteredLast(steps: seq<Step>, enter: (State, Step) -> bool, leave: Step)
    requires steps != []
    ensures var init, step := steps[..|steps| - 1], steps[|steps| - 1];
            Entered(steps, enter, leave) <==>
            enter(Exec(START, init), step) || (Entered(init, enter, leave) && step != leave)
  {
    hide Exec;
    var n := |steps| - 1;
    var init := steps[..n];
    assert EntersAt(steps, n, enter) == enter(Exec(START, init), steps[n]) && steps[n + 1..] == [];
    forall i | 0 <= i < n
      ensures EntersAt(steps, i, enter) == EntersAt(init, i, enter)
      ensures leave !in steps[i + 1..] <==> leave !in init[i + 1..] && steps[n] != leave
    {
      assert init[..i] == steps[..i] && steps[i + 1..] == init[i + 1..] + [steps[n]];
    }
  }

  /** A thread is where it is since some step of the run took it there. */
  lemma {:induction false} AtIff(steps: seq<Step>, t: nat, th: Thread, enter: (State, Step) -> bool, leave: Step)
    requires forall s: State, step: Step ::
               Safe(s) ==> (IsAt(Do(s, step), t, th) <==> enter(s, step) || (IsAt(s, t, th) && step != leave))
    ensures IsAt(Exec(START, steps), t, th) <==> Entered(steps, enter, leave)
    decreases |steps|
  {
    hide Do, Safe, Entered;
    if steps == [] {
      assert !Entered([], enter, leave) by { NeverEntered(enter, leave); }
    } else {
      AtIff(steps[..|steps| - 1], t, th, enter, leave);
      AlwaysSafe(steps[..|steps| - 1]);
      EnteredLast(steps, enter, leave);
    }
  }

  lemma NeverEntered(enter: (State, Step) -> bool, leave: Step)
    ensures !Entered([], enter, leave)
  {
  }

  /** Over every run, a thread is about to delete its client exactly if it gave up at some step and has not deleted the
      client since; so no client is deleted by a thread whose stream goes on. */
  lemma EndingIff(steps: seq<Step>, t: nat, c: nat)
    ensures IsAt(Exec(START, steps), t, Ending(c)) <==> Entered(steps, (s, step) => GivesUpIn(s, step, t, c), Delete(t))
  {
    hide Do, Safe, IsAt, GivesUpIn, Entered, Exec;
    forall s: State, step: Step | Safe(s)
      ensures IsAt(Do(s, step), t, Ending(c)) <==>
              GivesUpIn(s, step, t, c) || (IsAt(s, t, Ending(c)) && step != Delete(t))
    {
      GivesUpStep(s, step, t, c);
    }
    AtIff(steps, t, Ending(c), (s, step) => GivesUpIn(s, step, t, c), Delete(t));
  }

  // ---- Where a thread's name comes from ------------------------------------------------------------------------

  /** A new thread is asked to subscribe under this name: given as it is, or built from a prefix and a number. */
  ghost predicate AsksIn(s: State, step: Step, t: nat, name: string)
  {
    t !in s.threads &&
    (step == Subscribe(t, name) ||
     (step.SubscribeNumbered? && step.t == t && name == step.prefix + Decimal.ToString(s.someId)))
  }

  /** A new thread is asked to unsubscribe, and not the management client. */
  ghost predicate AsksToEndIn(s: State, step: Step, t: nat, name: string)
  {
    t !in s.threads && step == Unsubscribe(t, name) && name != "Management-Client"
  }

  lemma AsksStep(s: State, step: Step, t: nat, name: string)
    ensures IsAt(Do(s, step), t, Searching(name)) <==>
            AsksIn(s, step, t, name) || (IsAt(s, t, Searching(name)) && step != Find(t))
    ensures IsAt(Do(s, step), t, Unsubscribing(name)) <==>
            AsksToEndIn(s, step, t, name) || (IsAt(s, t, Unsubscribing(name)) && step != Find(t))
  {
  }

  /** Over every run, a thread searches a name in order to subscribe exactly if it was started to subscribe under this
      name, and in order to unsubscribe exactly if it was started to unsubscribe it, and has not searched yet. */
  lemma SearchesIff(steps: seq<Step>, t: nat, name: string)
    ensures IsAt(Exec(START, steps), t, Searching(name))
       <==> Entered(steps, (s, step) => AsksIn(s, step, t, name), Find(t))
    ensures IsAt(Exec(START, steps), t, Unsubscribing(name))
       <==> Entered(steps, (s, step) => AsksToEndIn(s, step, t, name), Find(t))
  {
    hide Do, Safe, IsAt, AsksIn, AsksToEndIn, Entered, Exec;
    forall s: State, step: Step
      ensures IsAt(Do(s, step), t, Searching(name)) <==>
              AsksIn(s, step, t, name) || (IsAt(s, t, Searching(name)) && step != Find(t))
      ensures IsAt(Do(s, step), t, Unsubscribing(name)) <==>
              AsksToEndIn(s, step, t, name) || (IsAt(s, t, Unsubscribing(name)) && step != Find(t))
    {
      AsksStep(s, step, t, name);
    }
    AtIff(steps, t, Searching(name), (s, step) => AsksIn(s, step, t, name), Find(t));
    AtIff(steps, t, Unsubscribing(name), (s, step) => AsksToEndIn(s, step, t, name), Find(t));
  }

  /** The numbered subscriptions since the last reset. */
  ghost function Numbered(steps: seq<Step>): nat
  {
    if steps == [] || steps[|steps| - 1].ResetNumbers? then 0
    else
      var n := |steps| - 1;
      Numbered(steps[..n]) + One(steps[n].SubscribeNumbered? && steps[n].t !in Exec(START, steps[..n]).threads)
  }

  /** Over every run the next number is how many have been given out since the last reset. */
  lemma {:induction false} NumberIs(steps: seq<Step>)
    ensures Exec(START, steps).someId == Numbered(steps)
    decreases |steps|
  {
    if steps != [] { NumberIs(steps[..|steps| - 1]); }
  }

  // ---- What a name leads to --------------------------------------------------------------------------------------

  /** The client that was created last under a name, unless a client of that name has been deleted since. */
  ghost function EntryAfter(steps: seq<Step>, name: string): Option<nat>
  {
    if steps == [] then if name == "Management-Client" then Some(0) else None
    else
      var init, step := steps[..|steps| - 1], steps[|steps| - 1];
      var s := Exec(START, init);
      if step.Create? && step.t in s.threads && s.threads[step.t] == Creating(name) then Some(s.next)
      else if exists c :: c in s.clients && s.clients[c].name == name && HappensIn(s, step, c, Deletion) then None
      else EntryAfter(init, name)
  }

  /** Over every run the registry leads from a name to that client, or nowhere. */
  lemma {:induction false} EntryIs(steps: seq<Step>, name: string)
    ensures var r := Exec(START, steps).registry;
            EntryAfter(steps, name) == if name in r then Some(r[name]) else None
    decreases |steps|
  {
    if steps != [] { EntryIs(steps[..|steps| - 1], name); }
  }
}
