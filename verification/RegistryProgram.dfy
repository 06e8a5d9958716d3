/** The objects behind the steps of the registry: each access of a thread is done on the map and on the client that
    the thread holds, and what the thread sees there decides what it does next, as the step says. */
module RegistryProgram {
  import opened Wire
  import opened Registry
  import opened RegistryRuns

  /** A client object and what the state says about it. */
  ghost predicate Mirrors(a: AgentClient, c: Client)
    reads a
  {
    a.name == c.name && a.active == c.active && a.serverIdValid == c.serverIdValid
  }

  ghost predicate AllMirror(objects: map<nat, AgentClient>, clients: map<nat, Client>)
    reads objects.Values
  {
    objects.Keys == clients.Keys && forall c :: c in objects ==> Mirrors(objects[c], clients[c])
  }

  ghost predicate Distinct(objects: map<nat, AgentClient>)
  {
    forall c, d :: c in objects && d in objects && objects[c] == objects[d] ==> c == d
  }

  /** The map leads where the registry says. */
  ghost predicate SameEntries(entries: map<string, AgentClient>, objects: map<nat, AgentClient>,
                              registry: map<string, nat>)
  {
    entries.Keys == registry.Keys &&
    forall name :: name in registry ==> registry[name] in objects && entries[name] == objects[registry[name]]
  }

  lemma ValuesAdd(m: map<nat, AgentClient>, c: nat, a: AgentClient)
    requires c !in m
    ensures m[c := a].Values == m.Values + {a}
  {
    assert m[c := a][c] == a;
    forall x | x in m.Values ensures x in m[c := a].Values {
      var d :| d in m && m[d] == x;
      assert m[c := a][d] == x;
    }
  }

  lemma ValuesRemove(m: map<nat, AgentClient>, c: nat)
    requires c in m && Distinct(m)
    ensures (m - {c}).Values == m.Values - {m[c]} && Distinct(m - {c})
  {
    forall x | x in m.Values - {m[c]} ensures x in (m - {c}).Values {
      var d :| d in m && m[d] == x;
      assert (m - {c})[d] == x;
    }
  }

  lemma DistinctAdd(m: map<nat, AgentClient>, c: nat, a: AgentClient)
    requires Distinct(m) && a !in m.Values
    ensures Distinct(m[c := a])
  {
  }

  lemma EntriesAdd(entries: map<string, AgentClient>, objects: map<nat, AgentClient>, registry: map<string, nat>,
                   name: string, c: nat, a: AgentClient)
    requires SameEntries(entries, objects, registry) && c !in objects
    ensures SameEntries(entries[name := a], objects[c := a], registry[name := c])
  {
  }

  lemma EntriesRemove(entries: map<string, AgentClient>, objects: map<nat, AgentClient>, s: State, c: nat)
    requires SameEntries(entries, objects, s.registry) && Safe(s) && c in s.clients
    ensures SameEntries(entries - {s.clients[c].name}, objects - {c}, s.registry - {s.clients[c].name})
  {
  }

  lemma MirrorAdd(objects: map<nat, AgentClient>, clients: map<nat, Client>, c: nat, a: AgentClient, k: Client)
    requires AllMirror(objects, clients) && Mirrors(a, k)
    ensures AllMirror(objects[c := a], clients[c := k])
  {
  }

  lemma MirrorOthers(objects: map<nat, AgentClient>, clients: map<nat, Client>, c: nat)
    requires AllMirror(objects, clients) && Distinct(objects) && c in objects
    ensures AllMirror(objects - {c}, clients - {c}) && objects[c] !in (objects - {c}).Values
    ensures c in clients && Mirrors(objects[c], clients[c])
  {
  }

  /** A client may change if what the state says about it changes along. */
  lemma MirrorBack(objects: map<nat, AgentClient>, clients: map<nat, Client>, c: nat, k: Client)
    requires c in objects && c in clients && AllMirror(objects - {c}, clients - {c}) && Mirrors(objects[c], k)
    ensures AllMirror(objects, clients[c := k])
  {
    assert (objects - {c})[c := objects[c]] == objects && (clients - {c})[c := k] == clients[c := k];
    MirrorAdd(objects - {c}, clients - {c}, c, objects[c], k);
  }

  // ---- The steps, part by part ------------------------------------------------------------------------------

  lemma FindDone(s: State, t: nat)
    requires Enabled(s, Step.Find(t))
    ensures var s', name := Do(s, Step.Find(t)), s.threads[t].name;
            s'.registry == s.registry && s'.clients == s.clients && t in s'.threads &&
            s'.threads[t] == if s.threads[t].Searching? then if name in s.registry then Finished else Creating(name)
                             else if name in s.registry then Cancelling(s.registry[name]) else Finished
  {
  }

  lemma CreateDone(s: State, t: nat)
    requires Enabled(s, Step.Create(t))
    ensures var s', name := Do(s, Step.Create(t)), s.threads[t].name;
            s'.registry == s.registry[name := s.next] &&
            s'.clients == s.clients[s.next := Client(name, true, false, 0)] &&
            t in s'.threads && s'.threads[t] == Subscribing(s.next)
  {
  }

  /** The steps of a thread with a live client. */
  lemma MetadataDone(s: State, t: nat, present: bool)
    requires Enabled(s, Step.Metadata(t, present)) && s.threads[t].client in s.clients
    ensures ClientOf(s.threads[t]) == Some(s.threads[t].client)
    ensures var s', c := Do(s, Step.Metadata(t, present)), s.threads[t].client;
            var k := s.clients[c];
            s'.registry == s.registry && t in s'.threads &&
            s'.threads[t] == (if present then Reading(c) else Ending(c)) &&
            s'.clients == s.clients[c := k.(serverIdValid := k.serverIdValid || present)]
  {
    assert s.clients[s.threads[t].client := s.clients[s.threads[t].client]] == s.clients;
  }

  lemma CheckDone(s: State, t: nat)
    requires Enabled(s, Step.Check(t)) && s.threads[t].client in s.clients
    ensures ClientOf(s.threads[t]) == Some(s.threads[t].client)
    ensures var s', c := Do(s, Step.Check(t)), s.threads[t].client;
            s'.registry == s.registry && s'.clients == s.clients && t in s'.threads &&
            s'.threads[t] == if s.clients[c].active then Processing(c) else Ending(c)
  {
  }

  lemma DeleteDone(s: State, t: nat)
    requires Enabled(s, Step.Delete(t)) && s.threads[t].client in s.clients
    ensures s.threads[t] == Ending(s.threads[t].client)
    ensures var s', c := Do(s, Step.Delete(t)), s.threads[t].client;
            s'.registry == s.registry - {s.clients[c].name} && s'.clients == s.clients - {c}
  {
  }

  lemma CancelDone(s: State, t: nat, success: bool)
    requires Enabled(s, Step.Cancel(t, success)) && s.threads[t].client in s.clients
    ensures ClientOf(s.threads[t]) == Some(s.threads[t].client)
    ensures var s', c := Do(s, Step.Cancel(t, success)), s.threads[t].client;
            var k := s.clients[c];
            s'.registry == s.registry &&
            s'.clients == s.clients[c := k.(active := k.active && !(k.serverIdValid && success))]
  {
    assert s.clients[s.threads[t].client := s.clients[s.threads[t].client]] == s.clients;
  }

  lemma OtherDone(s: State, step: Step)
    requires !step.Find? && !step.Create? && !step.Metadata? && !step.Check? && !step.Delete? && !step.Cancel?
    ensures var s' := Do(s, step);
            s'.registry == s.registry && s'.clients.Keys == s.clients.Keys &&
            forall c :: c in s.clients ==>
                          s'.clients[c].name == s.clients[c].name && s'.clients[c].active == s.clients[c].active &&
                          s'.clients[c].serverIdValid == s.clients[c].serverIdValid
  {
  }

  lemma SafeStep(s: State, step: Step)
    requires Safe(s)
    ensures Safe(Do(s, step))
  {
    hide Do, EntriesAreLive, ManagementStays, Owned, LateAtMostOnce;
    EntriesStep(s, step);
    ManagementStep(s, step);
    OwnedStep(s, step);
    LateStep(s, step);
  }

  class Program {
    const registry: ActiveClients
    ghost var clients: map<nat, AgentClient>
    ghost var state: State

    ghost predicate Valid()
      reads this, registry, clients.Values
    {
      registry.Valid() && Safe(state) && registry.live == clients.Values && AllMirror(clients, state.clients) &&
      Distinct(clients) && SameEntries(registry.entries, clients, state.registry)
    }

    /** The client that the thread has found or created, which has not been deleted. */
    ghost predicate Holds(t: nat, client: AgentClient)
      reads this
    {
      t in state.threads && ClientOf(state.threads[t]).Some? && ClientOf(state.threads[t]).value in clients &&
      clients[ClientOf(state.threads[t]).value] == client
    }

    /** Where a thread is. */
    ghost function Now(t: nat): Thread
      reads this
    {
      if t in state.threads then state.threads[t] else Finished
    }

    /** The program starts by creating the management client. */
    constructor ()
      ensures Valid() && state == START && fresh(registry) && forall c :: c in clients ==> fresh(clients[c])
    {
      registry := new ActiveClients();
      clients := map[];
      state := START;
      new;
      var client := registry.Create(MGMT);
      clients := map[0 := client];
      StartIsSafe();
    }

    /** AgentClient::find, for a subscription or a cancellation: whom the name leads to decides what the thread does. */
    method Find(ghost t: nat, name: string) returns (client: AgentClient?)
      requires Valid() && Enabled(state, Step.Find(t)) && name == state.threads[t].name
      modifies this`state
      ensures Valid() && state == Do(old(state), Step.Find(t))
      ensures old(Now(t)).Searching? ==> Now(t) == if client == null then Creating(name) else Finished
      ensures old(Now(t)).Unsubscribing? ==>
                if client == null then Now(t) == Finished
                else Now(t).Cancelling? && Now(t).client in clients && clients[Now(t).client] == client
    {
      hide Safe, Do;
      SafeStep(state, Step.Find(t));
      FindDone(state, t);
      client := registry.Find(name);
      state := Do(state, Step.Find(t));
    }

    /** AgentClient::create. */
    method Create(ghost t: nat, name: string) returns (client: AgentClient)
      requires Valid() && Enabled(state, Step.Create(t)) && name == state.threads[t].name
      modifies this, registry
      ensures Valid() && state == Do(old(state), Step.Create(t)) && fresh(client)
      ensures Now(t).Subscribing? && clients == old(clients)[Now(t).client := client]
    {
      hide Valid, Safe, Do, Enabled, AllMirror, Distinct, SameEntries;
      ghost var c, after := state.next, Do(state, Step.Create(t));
      ghost var entries, was := registry.entries, state;
      BeforeCreate(t, name);
      client := registry.Create(name);
      AfterCreating(entries, was, client, name);
      clients := clients[c := client];
      state := after;
      Together();
    }

    /** What a creation starts from. */
    lemma BeforeCreate(t: nat, name: string)
      requires Valid() && Enabled(state, Step.Create(t)) && name == state.threads[t].name
      ensures registry.Valid() && registry.live == clients.Values && Distinct(clients)
      ensures AllMirror(clients, state.clients) && SameEntries(registry.entries, clients, state.registry)
      ensures state.next !in clients && Safe(Do(state, Step.Create(t)))
      ensures var s := Do(state, Step.Create(t));
              s.registry == state.registry[name := state.next] &&
              s.clients == state.clients[state.next := Client(name, true, false, 0)] &&
              t in s.threads && s.threads[t] == Subscribing(state.next)
    {
      SafeStep(state, Step.Create(t));
      CreateDone(state, t);
      NumbersAreNew(state);
    }

    lemma AfterCreating(entries: map<string, AgentClient>, was: State, client: AgentClient, name: string)
      requires AllMirror(clients, was.clients) && SameEntries(entries, clients, was.registry) && Distinct(clients)
      requires was.next !in clients && client !in clients.Values && Mirrors(client, Client(name, true, false, 0))
      ensures var objects := clients[was.next := client];
              AllMirror(objects, was.clients[was.next := Client(name, true, false, 0)]) &&
              SameEntries(entries[name := client], objects, was.registry[name := was.next]) &&
              Distinct(objects) && objects.Values == clients.Values + {client}
    {
      ValuesAdd(clients, was.next, client);
      DistinctAdd(clients, was.next, client);
      EntriesAdd(entries, clients, was.registry, name, was.next, client);
      MirrorAdd(clients, was.clients, was.next, client, Client(name, true, false, 0));
    }

    lemma Together()
      requires registry.Valid() && Safe(state) && registry.live == clients.Values
      requires AllMirror(clients, state.clients) && Distinct(clients)
      requires SameEntries(registry.entries, clients, state.registry)
      ensures Valid()
    {
    }

    /** The server's metadata: without it the subscription ends. */
    method Metadata(ghost t: nat, client: AgentClient, present: bool, id: nat)
      requires Valid() && Enabled(state, Step.Metadata(t, present)) && Holds(t, client)
      modifies this`state, client
      ensures Valid() && state == Do(old(state), Step.Metadata(t, present)) && clients == old(clients)
      ensures present <==> Now(t).Reading?
      ensures !present <==> Now(t).Ending?
    {
      hide Valid, Holds, Safe, Do, Enabled, AllMirror, Distinct, SameEntries;
      ghost var after := Do(state, Step.Metadata(t, present));
      ghost var c, k := BeforeUse(t, client);
      MetadataDone(state, t, present);
      SafeStep(state, Step.Metadata(t, present));
      if present { client.Subscribed(id); }
      MirrorBack(clients, state.clients, c, k.(serverIdValid := k.serverIdValid || present));
      state := after;
      Together();
    }

    /** What a thread relies on that works with a client. */
    lemma BeforeUse(t: nat, client: AgentClient) returns (c: nat, k: Client)
      requires Valid() && Holds(t, client)
      ensures t in state.threads && ClientOf(state.threads[t]) == Some(c) && c in clients && clients[c] == client
      ensures c in state.clients && k == state.clients[c] && Mirrors(client, k) && Safe(state)
      ensures registry.Valid() && registry.live == clients.Values && Distinct(clients) && client in clients.Values
      ensures AllMirror(clients, state.clients) && SameEntries(registry.entries, clients, state.registry)
      ensures AllMirror(clients - {c}, state.clients - {c}) && client !in (clients - {c}).Values
    {
      c := ClientOf(state.threads[t]).value;
      k := state.clients[c];
      MirrorOthers(clients, state.clients, c);
    }

    /** The condition of the read loop after a message has been read. */
    method Check(ghost t: nat, client: AgentClient) returns (go: bool)
      requires Valid() && Enabled(state, Step.Check(t)) && Holds(t, client)
      modifies this`state
      ensures Valid() && state == Do(old(state), Step.Check(t))
      ensures go <==> Now(t).Processing?
      ensures !go <==> Now(t).Ending?
    {
      hide Valid, Holds, Safe, Do, Enabled, AllMirror, Distinct, SameEntries;
      ghost var after := Do(state, Step.Check(t));
      ghost var c, k := BeforeUse(t, client);
      CheckDone(state, t);
      SafeStep(state, Step.Check(t));
      go := client.active;
      state := after;
      Together();
    }

    /** The destructor. */
    method Delete(ghost t: nat, client: AgentClient)
      requires Valid() && Enabled(state, Step.Delete(t)) && Holds(t, client)
      modifies this, registry
      ensures Valid() && state == Do(old(state), Step.Delete(t))
      ensures old(Now(t)).Ending? && clients == old(clients) - {old(Now(t)).client}
    {
      hide Valid, Holds, Safe, Do, Enabled, AllMirror, Distinct, SameEntries;
      ghost var after := Do(state, Step.Delete(t));
      ghost var c, k := BeforeUse(t, client);
      DeleteDone(state, t);
      SafeStep(state, Step.Delete(t));
      EntriesRemove(registry.entries, clients, state, c);
      ValuesRemove(clients, c);
      registry.Delete(client);
      clients := clients - {c};
      state := after;
      Together();
    }

    /** cancelSubscribeTelemetry, on a client that has not been deleted meanwhile. */
    method Cancel(ghost t: nat, client: AgentClient, success: bool)
      requires Valid() && Enabled(state, Step.Cancel(t, success)) && Holds(t, client)
      modifies this`state, client
      ensures Valid() && state == Do(old(state), Step.Cancel(t, success)) && clients == old(clients)
    {
      hide Valid, Holds, Safe, Do, Enabled, AllMirror, Distinct, SameEntries;
      ghost var after := Do(state, Step.Cancel(t, success));
      ghost var c, k := BeforeUse(t, client);
      CancelDone(state, t, success);
      SafeStep(state, Step.Cancel(t, success));
      client.CancelSubscribeTelemetry(success);
      MirrorBack(clients, state.clients, c, k.(active := k.active && !(k.serverIdValid && success)));
      state := after;
      Together();
    }

    /** The other steps access neither the map nor a client. */
    ghost method Other(step: Step)
      requires Valid() && !step.Find? && !step.Create? && !step.Metadata? && !step.Check? && !step.Delete? &&
               !step.Cancel?
      modifies this`state
      ensures Valid() && state == Do(old(state), step) && state.registry == old(state.registry)
    {
      hide Valid, Safe, Do, Distinct, SameEntries;
      Apart();
      OtherDone(state, step);
      SafeStep(state, step);
      state := Do(state, step);
      Together();
    }

    lemma Apart()
      requires Valid()
      ensures registry.Valid() && Safe(state) && registry.live == clients.Values
      ensures AllMirror(clients, state.clients) && Distinct(clients)
      ensures SameEntries(registry.entries, clients, state.registry)
    {
    }
  }

  lemma NumbersAreNew(s: State)
    requires Safe(s)
    ensures s.next !in s.clients
  {
  }
}
