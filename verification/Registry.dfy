/** The client registry as its threads see it: commands that look a client up, create it, run its read loop,
    cancel it and delete it, interleaved in any way. Every access to the map or to a client's flag is one atomic
    step. */
module Registry {
  import Decimal

  const MGMT := "Management-Client"

  /** A client that has been created and not yet deleted. `late` counts the messages processed after the client
      was cancelled; the program has no such counter. */
  datatype Client = Client(name: string, active: bool, serverIdValid: bool, late: nat)

  /** How far the thread of a command is. */
  datatype Thread =
    | Searching(name: string)
    | Creating(name: string)
    | Subscribing(client: nat)
    | Reading(client: nat)
    | Checking(client: nat)
    | Processing(client: nat)
    | Ending(client: nat)
    | Unsubscribing(name: string)
    | Cancelling(client: nat)
    | Finished

  /** Clients are named by the order of their creation. */
  datatype State = State(registry: map<string, nat>, clients: map<nat, Client>, next: nat, threads: map<nat, Thread>,
                         someId: nat)

  /** The program starts by creating the management client. */
  const START := State(map[MGMT := 0], map[0 := Client(MGMT, true, false, 0)], 1, map[], 0)

  /** One atomic step of thread t, or the reset of the counter for thread names. What the server answers is part of
      the step. */
  datatype Step =
    | Subscribe(t: nat, name: string)
    | SubscribeNumbered(t: nat, prefix: string)
    | ResetNumbers
    | Unsubscribe(t: nat, name: string)
    | Find(t: nat)
    | Create(t: nat)
    | Metadata(t: nat, present: bool)
    | Read(t: nat, more: bool)
    | Check(t: nat)
    | Process(t: nat)
    | Delete(t: nat)
    | Cancel(t: nat, success: bool)

  predicate Enabled(s: State, step: Step)
  {
    match step
    case ResetNumbers => true
    case Subscribe(t, _) => t !in s.threads
    case SubscribeNumbered(t, _) => t !in s.threads
    case Unsubscribe(t, _) => t !in s.threads
    case Find(t) => t in s.threads && (s.threads[t].Searching? || s.threads[t].Unsubscribing?)
    case Create(t) => t in s.threads && s.threads[t].Creating?
    case Metadata(t, _) => t in s.threads && s.threads[t].Subscribing?
    case Read(t, _) => t in s.threads && s.threads[t].Reading?
    case Check(t) => t in s.threads && s.threads[t].Checking?
    case Process(t) => t in s.threads && s.threads[t].Processing?
    case Delete(t) => t in s.threads && s.threads[t].Ending?
    case Cancel(t, _) => t in s.threads && s.threads[t].Cancelling?
  }

  function Goto(s: State, t: nat, th: Thread): State { s.(threads := s.threads[t := th]) }

  /** The thread name that proc builds from its argument and the shared counter. */
  function NumberedName(prefix: string, n: nat): string { prefix + Decimal.ToString(n) }

  function AfterFind(s: State, t: nat): State
    requires Enabled(s, Find(t))
  {
    var name := s.threads[t].name;
    if s.threads[t].Searching? then Goto(s, t, if name in s.registry then Finished else Creating(name))
    else Goto(s, t, if name in s.registry then Cancelling(s.registry[name]) else Finished)
  }

  function AfterCreate(s: State, t: nat): State
    requires Enabled(s, Create(t))
  {
    var name := s.threads[t].name;
    Goto(s, t, Subscribing(s.next)).(registry := s.registry[name := s.next],
                                     clients := s.clients[s.next := Client(name, true, false, 0)],
                                     next := s.next + 1)
  }

  function AfterMetadata(s: State, t: nat, present: bool): State
    requires Enabled(s, Metadata(t, present))
  {
    var c := s.threads[t].client;
    if !present || c !in s.clients then Goto(s, t, Ending(c))
    else Goto(s, t, Reading(c)).(clients := s.clients[c := s.clients[c].(serverIdValid := true)])
  }

  function AfterProcess(s: State, t: nat): State
    requires Enabled(s, Process(t))
  {
    var c := s.threads[t].client;
    if c in s.clients && !s.clients[c].active
    then Goto(s, t, Reading(c)).(clients := s.clients[c := s.clients[c].(late := s.clients[c].late + 1)])
    else Goto(s, t, Reading(c))
  }

  /** The destructor removes the entry under the client's name, whichever client it belongs to. */
  function AfterDelete(s: State, t: nat): State
    requires Enabled(s, Delete(t))
  {
    var c := s.threads[t].client;
    if c in s.clients
    then Goto(s, t, Finished).(registry := s.registry - {s.clients[c].name}, clients := s.clients - {c})
    else Goto(s, t, Finished)
  }

  /** Only a client with a server id asks the server, and only success stops its read loop. */
  function AfterCancel(s: State, t: nat, success: bool): State
    requires Enabled(s, Cancel(t, success))
  {
    var c := s.threads[t].client;
    if c in s.clients && s.clients[c].serverIdValid && success
    then Goto(s, t, Finished).(clients := s.clients[c := s.clients[c].(active := false)])
    else Goto(s, t, Finished)
  }

  function Next(s: State, step: Step): State
    requires Enabled(s, step)
  {
    match step
    case ResetNumbers => s.(someId := 0)
    case Subscribe(t, name) => Goto(s, t, Searching(name))
    case SubscribeNumbered(t, prefix) => Goto(s, t, Searching(NumberedName(prefix, s.someId))).(someId := s.someId + 1)
    case Unsubscribe(t, name) => Goto(s, t, if name == MGMT then Finished else Unsubscribing(name))
    case Find(t) => AfterFind(s, t)
    case Create(t) => AfterCreate(s, t)
    case Metadata(t, present) => AfterMetadata(s, t, present)
    case Read(t, more) => Goto(s, t, if more then Checking(s.threads[t].client) else Ending(s.threads[t].client))
    case Check(t) =>
      var c := s.threads[t].client;
      Goto(s, t, if c in s.clients && s.clients[c].active then Processing(c) else Ending(c))
    case Process(t) => AfterProcess(s, t)
    case Delete(t) => AfterDelete(s, t)
    case Cancel(t, success) => AfterCancel(s, t, success)
  }

  /** A run is any list of steps; one that is not enabled does nothing. */
  function Do(s: State, step: Step): State { if Enabled(s, step) then Next(s, step) else s }

  function Exec(s: State, steps: seq<Step>): State
  {
    if steps == [] then s else Do(Exec(s, steps[..|steps| - 1]), steps[|steps| - 1])
  }

  // ---- Safety -------------------------------------------------------------------------------------------

  /** A thread that will delete the client it works with. */
  predicate Owns(th: Thread)
  {
    th.Subscribing? || th.Reading? || th.Checking? || th.Processing? || th.Ending?
  }

  /** Every entry points to a live client of that name. */
  ghost predicate EntriesAreLive(s: State)
  {
    forall name :: name in s.registry ==> s.registry[name] in s.clients && s.clients[s.registry[name]].name == name
  }

  /** The management client is there, is found, and has not been cancelled. */
  ghost predicate ManagementStays(s: State)
  {
    MGMT in s.registry && s.registry[MGMT] == 0 && 0 in s.clients && s.clients[0].active &&
    (forall c :: c in s.clients && c != 0 ==> s.clients[c].name != MGMT) &&
    (forall t :: t in s.threads && (s.threads[t].Creating? || s.threads[t].Unsubscribing?) ==>
                   s.threads[t].name != MGMT) &&
    (forall t :: t in s.threads && s.threads[t].Cancelling? ==> s.threads[t].client != 0)
  }

  /** A client belongs to one thread, which uses it only while it lives; identities are not reused. */
  ghost predicate Owned(s: State)
  {
    s.next > 0 && (forall c :: c in s.clients ==> c < s.next) &&
    (forall t :: t in s.threads && s.threads[t].Cancelling? ==> s.threads[t].client < s.next) &&
    (forall t :: t in s.threads && Owns(s.threads[t]) ==>
                   s.threads[t].client in s.clients && s.threads[t].client != 0) &&
    (forall t, u :: (t in s.threads && u in s.threads && Owns(s.threads[t]) && Owns(s.threads[u]) &&
                     s.threads[t].client == s.threads[u].client) ==> t == u)
  }

  /** A message is processed late only if its check came before the cancellation. */
  ghost predicate LateAtMostOnce(s: State)
  {
    (forall c :: c in s.clients && s.clients[c].active ==> s.clients[c].late == 0) &&
    (forall c :: c in s.clients ==> s.clients[c].late <= 1) &&
    (forall t :: t in s.threads && s.threads[t].Processing? && s.threads[t].client in s.clients ==>
                   s.clients[s.threads[t].client].late == 0)
  }

  ghost predicate Safe(s: State)
  {
    EntriesAreLive(s) && ManagementStays(s) && Owned(s) && LateAtMostOnce(s)
  }

  lemma EntriesStep(s: State, step: Step)
    requires Safe(s)
    ensures EntriesAreLive(Do(s, step))
  {
  }

  lemma ManagementStep(s: State, step: Step)
    requires Safe(s)
    ensures ManagementStays(Do(s, step))
  {
    hide Do, ManagementStays;
    if step.Find? {
      ManagementFind(s, step);
    } else if step.Create? || step.Delete? {
      ManagementCreateDelete(s, step);
    } else {
      ManagementOther(s, step);
    }
  }

  lemma ManagementFind(s: State, step: Step)
    requires Safe(s) && step.Find?
    ensures ManagementStays(Do(s, step))
  {
  }

  lemma ManagementCreateDelete(s: State, step: Step)
    requires Safe(s) && (step.Create? || step.Delete?)
    ensures ManagementStays(Do(s, step))
  {
  }

  lemma ManagementOther(s: State, step: Step)
    requires Safe(s) && !step.Find? && !step.Create? && !step.Delete?
    ensures ManagementStays(Do(s, step))
  {
    hide EntriesAreLive, LateAtMostOnce;
  }

  lemma OwnedStep(s: State, step: Step)
    requires Safe(s)
    ensures Owned(Do(s, step))
  {
    hide Do, Owned;
    if step.Create? {
      OwnedCreate(s, step);
    } else if step.Delete? {
      OwnedDelete(s, step);
    } else if InLoop(step) {
      OwnedLoop(s, step);
    } else {
      OwnedStart(s, step);
    }
  }

  /** A step of a thread that has a client. */
  predicate InLoop(step: Step) { step.Metadata? || step.Read? || step.Check? || step.Process? || step.Cancel? }

  lemma OwnedCreate(s: State, step: Step)
    requires Safe(s) && step.Create?
    ensures Owned(Do(s, step))
  {
  }

  lemma OwnedDelete(s: State, step: Step)
    requires Safe(s) && step.Delete?
    ensures Owned(Do(s, step))
  {
  }

  lemma OwnedLoop(s: State, step: Step)
    requires Safe(s) && InLoop(step)
    ensures Owned(Do(s, step))
  {
    hide EntriesAreLive, ManagementStays, LateAtMostOnce;
  }

  lemma OwnedStart(s: State, step: Step)
    requires Safe(s) && !InLoop(step) && !step.Create? && !step.Delete?
    ensures Owned(Do(s, step))
  {
    hide ManagementStays, LateAtMostOnce;
  }

  lemma LateStep(s: State, step: Step)
    requires Safe(s)
    ensures LateAtMostOnce(Do(s, step))
  {
    hide Do, LateAtMostOnce;
    if InLoop(step) { LateLoop(s, step); } else { LateOther(s, step); }
  }

  lemma LateLoop(s: State, step: Step)
    requires Safe(s) && InLoop(step)
    ensures LateAtMostOnce(Do(s, step))
  {
    hide EntriesAreLive, ManagementStays;
  }

  lemma LateOther(s: State, step: Step)
    requires Safe(s) && !InLoop(step)
    ensures LateAtMostOnce(Do(s, step))
  {
    hide EntriesAreLive, ManagementStays;
  }

  /** In every state of every run, however the threads interleave and whatever names they use, each registry entry
      points to a live client of that name, the management client has been neither replaced nor removed nor
      cancelled, no client is used after its deletion by its own thread, and no client processes more than one
      message after it was cancelled. */
  lemma {:induction false} AlwaysSafe(steps: seq<Step>)
    ensures Safe(Exec(START, steps))
    decreases |steps|
  {
    hide Do, EntriesAreLive, ManagementStays, Owned, LateAtMostOnce;
    if steps == [] {
      StartIsSafe();
    } else {
      var s, step := Exec(START, steps[..|steps| - 1]), steps[|steps| - 1];
      AlwaysSafe(steps[..|steps| - 1]);
      EntriesStep(s, step);
      ManagementStep(s, step);
      OwnedStep(s, step);
      LateStep(s, step);
    }
  }

  lemma StartIsSafe()
    ensures Safe(START)
  {
  }

  // ---- Whether every client can be found ----------------------------------------------------------------

  ghost predicate AllFindable(s: State)
  {
    forall c :: c in s.clients ==> s.clients[c].name in s.registry && s.registry[s.clients[c].name] == c
  }

  /** A creation that replaces the entry of another client: its search found nothing, but another thread has
      registered the name since. */
  predicate Overwrites(s: State, step: Step)
  {
    step.Create? && Enabled(s, step) && s.threads[step.t].name in s.registry
  }

  lemma FindableStep(s: State, step: Step)
    requires Safe(s) && AllFindable(s)
    ensures AllFindable(Do(s, step)) <==> !Overwrites(s, step)
  {
    if Overwrites(s, step) {
      var name := s.threads[step.t].name;
      var c := s.registry[name];
      assert c in s.clients && c != s.next;
      assert c in Do(s, step).clients && Do(s, step).registry[name] != c;
    }
  }

  /** All clients can be found throughout a run exactly if no creation overwrote an entry. Two threads that
      search for the same name before either creates it are the only way to lose a client. */
  lemma {:induction false} FindableIff(steps: seq<Step>)
    ensures (forall i :: 0 <= i <= |steps| ==> AllFindable(Exec(START, steps[..i])))
       <==> (forall i :: 0 <= i < |steps| ==> !Overwrites(Exec(START, steps[..i]), steps[i]))
  {
    hide AllFindable, Overwrites, Exec;
    if forall i :: 0 <= i <= |steps| ==> AllFindable(Exec(START, steps[..i])) {
      forall i | 0 <= i < |steps| ensures !Overwrites(Exec(START, steps[..i]), steps[i]) {
        FindableNext(steps, i);
        assert AllFindable(Exec(START, steps[..i])) && AllFindable(Exec(START, steps[..i + 1]));
      }
    }
    if forall i :: 0 <= i < |steps| ==> !Overwrites(Exec(START, steps[..i]), steps[i]) {
      StartIsFindable();
      assert steps[..0] == [];
      for i := 0 to |steps|
        invariant forall j :: 0 <= j <= i ==> AllFindable(Exec(START, steps[..j]))
      {
        FindableNext(steps, i);
        assert AllFindable(Exec(START, steps[..i]));
      }
    }
  }

  lemma FindableNext(steps: seq<Step>, i: nat)
    requires i < |steps|
    ensures AllFindable(Exec(START, steps[..i])) ==>
              (AllFindable(Exec(START, steps[..i + 1])) <==> !Overwrites(Exec(START, steps[..i]), steps[i]))
  {
    hide AllFindable, Overwrites, Do, Exec, Safe;
    AlwaysSafe(steps[..i]);
    ExecStep(steps, i);
    if AllFindable(Exec(START, steps[..i])) { FindableStep(Exec(START, steps[..i]), steps[i]); }
  }

  lemma StartIsFindable()
    ensures AllFindable(Exec(START, []))
  {
  }

  lemma ExecStep(steps: seq<Step>, i: nat)
    requires i < |steps|
    ensures Exec(START, steps[..i + 1]) == Do(Exec(START, steps[..i]), steps[i])
  {
    hide Do;
    var a := steps[..i + 1];
    assert a[..|a| - 1] == steps[..i] && a[|a| - 1] == steps[i];
  }

  /** Such a run: two subscriptions under one name. The second client lives on, its first namesake is deleted, and
      the name can no longer be found. */
  lemma AClientCanBeLost()
    ensures var steps := [Subscribe(1, "r"), Subscribe(2, "r"), Find(1), Find(2), Create(1), Create(2),
                          Metadata(1, false), Delete(1)];
            var s := Exec(START, steps);
            2 in s.clients && s.clients[2] == Client("r", true, false, 0) && "r" !in s.registry
  {
    BothSearch();
    BothCreate();
    hide Do;
    ExecEight(Subscribe(1, "r"), Subscribe(2, "r"), Find(1), Find(2), Create(1), Create(2), Metadata(1, false),
              Delete(1));
  }

  /** Both threads have searched in vain. */
  const RACE := State(map[MGMT := 0], map[0 := Client(MGMT, true, false, 0)], 1,
                      map[1 := Creating("r"), 2 := Creating("r")], 0)

  lemma BothSearch()
    ensures Do(Do(Do(Do(START, Subscribe(1, "r")), Subscribe(2, "r")), Find(1)), Find(2)) == RACE
  {
    assert "r" != MGMT;
    var s1 := Do(START, Subscribe(1, "r"));
    assert s1.threads == map[1 := Searching("r")];
    var s2 := Do(s1, Subscribe(2, "r"));
    assert s2.threads == map[1 := Searching("r"), 2 := Searching("r")];
    var s3 := Do(s2, Find(1));
    assert s3.threads == map[1 := Creating("r"), 2 := Searching("r")];
    var s4 := Do(s3, Find(2));
    assert s4.threads == map[1 := Creating("r"), 2 := Creating("r")];
  }

  /** Both have created a client; the second creation has taken the entry. */
  const BOTH := State(map[MGMT := 0, "r" := 2],
                      map[0 := Client(MGMT, true, false, 0), 1 := Client("r", true, false, 0),
                          2 := Client("r", true, false, 0)], 3, map[1 := Subscribing(1), 2 := Subscribing(2)], 0)

  /** One of them has. */
  const ONE := State(map[MGMT := 0, "r" := 1],
                     map[0 := Client(MGMT, true, false, 0), 1 := Client("r", true, false, 0)], 2,
                     map[1 := Subscribing(1), 2 := Creating("r")], 0)

  lemma FirstCreation()
    ensures Do(RACE, Create(1)) == ONE
  {
    var s := Do(RACE, Create(1));
    assert s.threads == ONE.threads && s.registry == ONE.registry && s.clients == ONE.clients;
  }

  lemma SecondCreation()
    ensures Do(ONE, Create(2)) == BOTH
  {
    var s := Do(ONE, Create(2));
    assert s.threads == BOTH.threads && s.registry == BOTH.registry && s.clients == BOTH.clients;
  }

  lemma BothCreate()
    ensures var s := Do(Do(Do(Do(RACE, Create(1)), Create(2)), Metadata(1, false)), Delete(1));
            2 in s.clients && s.clients[2] == Client("r", true, false, 0) && "r" !in s.registry
  {
    FirstCreation();
    SecondCreation();
    var s3 := Do(BOTH, Metadata(1, false));
    assert s3 == BOTH.(threads := BOTH.threads[1 := Ending(1)]);
  }

  lemma ExecEight(a: Step, b: Step, c: Step, d: Step, e: Step, f: Step, g: Step, h: Step)
    ensures Exec(START, [a, b, c, d, e, f, g, h])
         == Do(Do(Do(Do(Do(Do(Do(Do(START, a), b), c), d), e), f), g), h)
  {
    hide Do;
    var steps := [a, b, c, d, e, f, g, h];
    assert steps[..0] == [] && steps[..8] == steps;
    ExecStep(steps, 0);
    ExecStep(steps, 1);
    ExecStep(steps, 2);
    ExecStep(steps, 3);
    ExecStep(steps, 4);
    ExecStep(steps, 5);
    ExecStep(steps, 6);
    ExecStep(steps, 7);
    assert Exec(START, []) == START;
  }

  // ---- Cancellation ------------------------------------------------------------------------------------------

  /** A message that has passed the check and is not processed yet. */
  ghost predicate Pending(s: State, c: nat)
  {
    exists t :: t in s.threads && s.threads[t] == Processing(c)
  }

  /** Late messages, done and to be done. */
  ghost function LateInAll(s: State, c: nat): nat
    requires c in s.clients
  {
    s.clients[c].late + if Pending(s, c) then 1 else 0
  }

  lemma CancelStep(s: State, step: Step, c: nat)
    requires Safe(s) && c < s.next && c in Do(s, step).clients
    ensures c in s.clients && s.next <= Do(s, step).next
    ensures !s.clients[c].active ==>
              !Do(s, step).clients[c].active && LateInAll(Do(s, step), c) == LateInAll(s, c)
  {
    if !s.clients[c].active {
      PendingStep(s, step, c);
    }
  }

  lemma PendingStep(s: State, step: Step, c: nat)
    requires Safe(s) && c in s.clients && c in Do(s, step).clients && !s.clients[c].active
    ensures var owner := step.Process? && Enabled(s, step) && s.threads[step.t] == Processing(c);
            Pending(Do(s, step), c) == (Pending(s, c) && !owner) && (owner ==> Pending(s, c)) &&
            Do(s, step).clients[c].late == s.clients[c].late + if owner then 1 else 0
  {
    if step.Process? && Enabled(s, step) && s.threads[step.t] == Processing(c) {
      PendingDone(s, step, c);
    } else {
      PendingKept(s, step, c);
    }
  }

  lemma PendingDone(s: State, step: Step, c: nat)
    requires Safe(s) && c in s.clients && !s.clients[c].active
    requires step.Process? && Enabled(s, step) && s.threads[step.t] == Processing(c)
    ensures c in Do(s, step).clients && !Pending(Do(s, step), c) && Pending(s, c)
    ensures Do(s, step).clients[c].late == s.clients[c].late + 1
  {
    hide EntriesAreLive, ManagementStays, LateAtMostOnce;
    var s' := Do(s, step);
    assert Owns(s.threads[step.t]);
    forall t | t in s'.threads && t != step.t ensures s'.threads[t] != Processing(c) {
      assert s'.threads[t] == s.threads[t] && (s.threads[t].Processing? ==> Owns(s.threads[t]));
    }
  }

  lemma PendingKept(s: State, step: Step, c: nat)
    requires Safe(s) && c in s.clients && c in Do(s, step).clients && !s.clients[c].active
    requires !(step.Process? && Enabled(s, step) && s.threads[step.t] == Processing(c))
    ensures Pending(Do(s, step), c) == Pending(s, c) && Do(s, step).clients[c].late == s.clients[c].late
  {
    hide EntriesAreLive, ManagementStays, LateAtMostOnce;
    var s' := Do(s, step);
    if Pending(s, c) {
      var t :| t in s.threads && s.threads[t] == Processing(c);
      assert s'.threads[t] == Processing(c);
    }
    if Pending(s', c) {
      var t :| t in s'.threads && s'.threads[t] == Processing(c);
      assert s.threads[t] == Processing(c);
    }
  }

  /** A cancelled client stays cancelled for the rest of its life, and how many messages it still processes was
      decided when it was cancelled: one if a message had just passed the check, none otherwise. */
  lemma {:induction false} CancelIsFinal(before: seq<Step>, after: seq<Step>, c: nat)
    requires var s := Exec(START, before); c in s.clients && !s.clients[c].active
    requires c in Exec(Exec(START, before), after).clients
    ensures var s, s' := Exec(START, before), Exec(Exec(START, before), after);
            !s'.clients[c].active && LateInAll(s', c) == LateInAll(s, c) <= 1
    decreases |after|
  {
    hide Do, Safe, LateInAll;
    var s := Exec(START, before);
    AlwaysSafe(before);
    if after == [] {
      LateBound(s, c);
    } else {
      var init, step := after[..|after| - 1], after[|after| - 1];
      var r := Exec(s, init);
      ExecAppend(START, before, init);
      AlwaysSafe(before + init);
      NextGrows(s, init);
      assert c < s.next by { IdsAreBelow(s, c); }
      CancelStep(r, step, c);
      CancelIsFinal(before, init, c);
    }
  }

  lemma IdsAreBelow(s: State, c: nat)
    requires Safe(s) && c in s.clients
    ensures c < s.next
  {
  }

  lemma LateBound(s: State, c: nat)
    requires Safe(s) && c in s.clients
    ensures LateInAll(s, c) <= 1
  {
  }

  lemma {:induction false} NextGrows(s: State, steps: seq<Step>)
    ensures s.next <= Exec(s, steps).next
    decreases |steps|
  {
    if steps != [] { NextGrows(s, steps[..|steps| - 1]); }
  }

  lemma {:induction false} ExecAppend(s: State, a: seq<Step>, b: seq<Step>)
    ensures Exec(s, a + b) == Exec(Exec(s, a), b)
    decreases |b|
  {
    hide Do;
    if b == [] {
      assert a + b == a;
    } else {
      assert (a + b)[..|a + b| - 1] == a + b[..|b| - 1];
      ExecAppend(s, a, b[..|b| - 1]);
    }
  }

  // ---- Numbered threads -------------------------------------------------------------------------------------------

  /** A name that proc builds never is the management client's, whatever its prefix; and two names built from one
      prefix differ if their numbers do, so only a reset of the counter makes two of them collide. */
  lemma NumberedNames(prefix: string, m: nat, n: nat)
    ensures NumberedName(prefix, m) != MGMT
    ensures NumberedName(prefix, m) == NumberedName(prefix, n) <==> m == n
  {
    var a, b := NumberedName(prefix, m), NumberedName(prefix, n);
    assert a[|a| - 1] == Decimal.ToString(m)[|Decimal.ToString(m)| - 1];
    assert MGMT[|MGMT| - 1] == 't';
    if a == b {
      assert a[|prefix|..] == Decimal.ToString(m) && b[|prefix|..] == Decimal.ToString(n);
      Decimal.ToStringInjective(m, n);
    }
  }

  // ---- The objects ---------------------------------------------------------------------------------------------

  class AgentClient {
    const name: string
    var active: bool
    var serverIdValid: bool
    var serverId: nat

    constructor (name: string)
      ensures this.name == name && active && !serverIdValid
    {
      this.name := name;
      active, serverIdValid, serverId := true, false, 0;
    }

    /** The server's metadata has arrived. */
    method Subscribed(id: nat)
      modifies this`serverIdValid, this`serverId
      ensures serverIdValid && serverId == id
    {
      serverIdValid := true;
      serverId := id;
    }

    /** `success` is the server's answer; it is not asked if there is no server id. */
    method CancelSubscribeTelemetry(success: bool)
      modifies this`active
      ensures active == (old(active) && !(serverIdValid && success))
    {
      if !serverIdValid { return; }
      if success { active := false; }
    }
  }

  /** The map active_clients, and the clients that have been created and not deleted. */
  class ActiveClients {
    var entries: map<string, AgentClient>
    ghost var live: set<AgentClient>

    ghost predicate Valid()
      reads this
    {
      forall name :: name in entries ==> entries[name] in live && entries[name].name == name
    }

    constructor ()
      ensures Valid() && entries == map[] && live == {}
    {
      entries, live := map[], {};
    }

    /** The new client takes over the name even if another one is registered under it. */
    method Create(name: string) returns (client: AgentClient)
      requires Valid()
      modifies this
      ensures Valid() && fresh(client) && client.name == name && client.active && !client.serverIdValid
      ensures entries == old(entries)[name := client] && live == old(live) + {client}
    {
      client := new AgentClient(name);
      entries := entries[name := client];
      live := live + {client};
    }

    method Find(name: string) returns (client: AgentClient?)
      requires Valid()
      ensures client == if name in entries then entries[name] else null
      ensures client != null ==> client in live && client.name == name
    {
      client := if name in entries then entries[name] else null;
    }

    /** The destructor. No entry points to the deleted client afterwards, because the entry under its name is
        removed even if it has come to point to a namesake. */
    method Delete(client: AgentClient)
      requires Valid() && client in live
      modifies this
      ensures Valid() && entries == old(entries) - {client.name} && live == old(live) - {client}
    {
      if client.name in entries { entries := entries - {client.name}; }
      live := live - {client};
    }
  }
}
