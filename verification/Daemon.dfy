/**
  Who set which output, and what happens to the outputs of a client that resets them or goes away (src/main.cpp,
  `outputSetters`, `clientResetOutputs`, `serverClientDisconnected`, and the methods of the modules they call).
*/
module Daemon {
  import opened Basics
  import opened OutputQueue
  import opened OutputModule

  /** Every output that nobody has set is at its safe state, and a module without configuration has no set outputs. */
  predicate Restful(s: Outputs)
    requires Sized(s, |s.want|)
  {
    && (forall i :: 0 <= i < |s.want| && s.who[i] == None ==> s.want[i] == SafeOutputs(s)[i])
    && (s.safe.None? ==> forall i :: 0 <= i < |s.who| ==> s.who[i] == None)
  }

  predicate SameOutputs(s: Outputs, s': Outputs) {
    s.want == s'.want && s.who == s'.who
  }

  predicate OwnedOnlyBy(s: Outputs, client: Client) {
    forall i :: 0 <= i < |s.who| && s.who[i].Some? ==> s.who[i] == Some(client)
  }

  /** Resetting everything equals resetting the outputs of the only client that set any, exactly for restful modules. */
  lemma ResetsAgreeIff(s: Outputs, client: Client)
    requires Sized(s, |s.want|) && OwnedOnlyBy(s, client)
    ensures SameOutputs(ResetAll(s), ResetClient(s, client)) <==> Restful(s)
  {
    var a, b := ResetAll(s), ResetClient(s, client);
    if Restful(s) {
      assert a.want == b.want;
      assert a.who == b.who;
    }
    if SameOutputs(a, b) {
      forall i | 0 <= i < |s.want| && (s.who[i] == None || s.safe.None?)
        ensures s.who[i] == None && s.want[i] == SafeOutputs(s)[i]
      {
        assert a.want[i] == b.want[i] == s.want[i] && a.who[i] == b.who[i] == s.who[i];
      }
    }
  }

  /** What happens to a module between one activation or configuration and the next keeps it restful. */
  lemma StepRestful(s: Outputs, e: Event)
    requires Sized(s, |s.want|) && Possible(s, e) && Restful(s)
    requires e.Requested? ==> s.safe.Some?
    ensures Sized(Step(s, e), |s.want|)
    ensures if e.ConfigWritten?
      then Restful(Step(s, e)) <==> forall i :: 0 <= i < |s.want| && s.who[i] == None ==> s.want[i] == e.safe[i]
      else Restful(Step(s, e))
  {
  }

  /** Runs after an activation on which the configuration is left alone, and requests are served only by configured modules. */
  predicate Undisturbed(s: Outputs, es: seq<Event>)
    decreases |es|
  {
    es == [] || (
      && Sized(s, |s.want|) && Possible(s, es[0]) && !es[0].ConfigWritten? && (es[0].Requested? ==> s.safe.Some?)
      && Undisturbed(Step(s, es[0]), es[1..]))
  }

  function After(s: Outputs, es: seq<Event>): Outputs
    requires Undisturbed(s, es)
    decreases |es|
  {
    if es == [] then s else After(Step(s, es[0]), es[1..])
  }

  lemma {:induction false} AfterRestful(s: Outputs, es: seq<Event>)
    requires Sized(s, |s.want|) && Restful(s) && Undisturbed(s, es)
    ensures Sized(After(s, es), |s.want|) && Restful(After(s, es))
    decreases |es|
  {
    if es != [] {
      StepRestful(s, es[0]);
      AfterRestful(Step(s, es[0]), es[1..]);
    }
  }

  /** In particular every module that has been activated with a configuration and kept it. */
  lemma ActivatedStaysRestful(n: nat, safe: Option<seq<byte>>, es: seq<Event>)
    requires safe.Some? ==> |safe.value| == n
    requires Undisturbed(Activated(n, safe), es)
    ensures Sized(After(Activated(n, safe), es), n) && Restful(After(Activated(n, safe), es))
  {
    AfterRestful(Activated(n, safe), es);
  }

  /** The outputs of the modules by address. */
  type World = seq<Option<Outputs>>

  predicate Wellformed(w: World) {
    forall i :: 0 <= i < |w| && w[i].Some? ==> Sized(w[i].value, |w[i].value.want|)
  }

  /** The clients that have set some output. */
  function Setters(w: World): set<Client> {
    set i, j | 0 <= i < |w| && w[i].Some? && 0 <= j < |w[i].value.who| && w[i].value.who[j].Some? :: w[i].value.who[j].value
  }

  function ResetClientEverywhere(w: World, client: Client): World
    requires Wellformed(w)
  {
    seq(|w|, i requires 0 <= i < |w| => if w[i].Some? then Some(ResetClient(w[i].value, client)) else None)
  }

  function ResetEverything(w: World): World {
    seq(|w|, i requires 0 <= i < |w| => if w[i].Some? then Some(ResetAll(w[i].value)) else None)
  }

  /** `clientResetOutputs`: one broadcast when nobody else has set any output. */
  function ClientResets(w: World, client: Client): World
    requires Wellformed(w)
  {
    if |Setters(w)| >= 2 then ResetClientEverywhere(w, client)
    else if Setters(w) == {client} then ResetEverything(w)
    else w
  }

  lemma OnlySetter(w: World, client: Client, i: nat)
    requires i < |w| && w[i].Some? && Setters(w) <= {client}
    ensures OwnedOnlyBy(w[i].value, client)
  {
    forall j | 0 <= j < |w[i].value.who| && w[i].value.who[j].Some? ensures w[i].value.who[j] == Some(client) {
      assert w[i].value.who[j].value in Setters(w);
    }
  }

  lemma NotSetter(w: World, client: Client, i: nat)
    requires i < |w| && w[i].Some? && client !in Setters(w)
    ensures !Owns(w[i].value, client)
  {
    var who := w[i].value.who;
    forall j | 0 <= j < |who| ensures who[j] != Some(client) {
      assert who[j].Some? ==> who[j].value in Setters(w);
    }
  }

  /** The broadcast leaves every module with the outputs and owners a reset of the one client's outputs gives, if and only if all modules are restful. */
  lemma BroadcastRefinesIff(w: World, client: Client)
    requires Wellformed(w) && Setters(w) == {client}
    ensures (forall i :: 0 <= i < |w| && w[i].Some? ==>
        SameOutputs(ClientResets(w, client)[i].value, ResetClientEverywhere(w, client)[i].value))
      <==> (forall i :: 0 <= i < |w| && w[i].Some? ==> Restful(w[i].value))
  {
    forall i | 0 <= i < |w| && w[i].Some?
      ensures SameOutputs(ClientResets(w, client)[i].value, ResetClientEverywhere(w, client)[i].value) <==> Restful(w[i].value)
    {
      OnlySetter(w, client, i);
      ResetsAgreeIff(w[i].value, client);
    }
  }

  /** The outputs set by the client are safe and free, all others are as before. */
  predicate Released(s: Outputs, s': Outputs, client: Client)
    requires Sized(s, |s.want|)
  {
    && Sized(s', |s.want|)
    && forall i :: 0 <= i < |s.want| ==>
      if s.who[i] == Some(client) then s'.who[i] == None && s'.want[i] == SafeOutputs(s)[i]
      else s'.who[i] == s.who[i] && s'.want[i] == s.want[i]
  }

  /** Resetting the outputs of one client touches nobody else's, whichever way it is done. */
  lemma ClientIsolation(w: World, client: Client)
    requires Wellformed(w)
    requires forall i :: 0 <= i < |w| && w[i].Some? ==> Restful(w[i].value)
    ensures |ClientResets(w, client)| == |w|
    ensures forall i :: 0 <= i < |w| ==> ClientResets(w, client)[i].Some? == w[i].Some?
    ensures forall i :: 0 <= i < |w| && w[i].Some? ==> Released(w[i].value, ClientResets(w, client)[i].value, client)
    ensures client !in Setters(ClientResets(w, client))
  {
    var w' := ClientResets(w, client);
    forall i | 0 <= i < |w| && w[i].Some? ensures Released(w[i].value, w'[i].value, client) {
      if Setters(w) == {client} {
        OnlySetter(w, client, i);
      } else if |Setters(w)| < 2 {
        if client in Setters(w) {
          SmallSet(Setters(w), client);
        }
        NotSetter(w, client, i);
      }
    }
    forall i, j | 0 <= i < |w'| && w'[i].Some? && 0 <= j < |w'[i].value.who| && w'[i].value.who[j].Some?
      ensures w'[i].value.who[j].value != client
    {
      assert Released(w[i].value, w'[i].value, client);
    }
  }

  lemma SmallSet(cs: set<Client>, c: Client)
    requires c in cs && |cs| < 2
    ensures cs == {c}
  {
    var rest := cs - {c};
    assert cs == rest + {c};
    assert |cs| == |rest| + 1;
  }

  /** What happens to the daemon: something to one module, or the outputs of a client are reset, on request or because it is gone. */
  datatype WorldEvent = At(i: nat, e: Event) | Resets(client: Client)

  function WorldStep(w: World, x: WorldEvent): World
    requires Wellformed(w)
  {
    match x
    case At(i, e) => if i < |w| && w[i].Some? then w[i := Some(Step(w[i].value, e))] else w
    case Resets(client) => ClientResets(w, client)
  }

  /** The event is possible, leaves the configuration alone, and requests are served by configured modules only. */
  predicate Allowed(w: World, x: WorldEvent)
    requires Wellformed(w)
  {
    x.At? && x.i < |w| && w[x.i].Some? ==>
      && Possible(w[x.i].value, x.e) && !x.e.ConfigWritten?
      && (x.e.Requested? ==> w[x.i].value.safe.Some?)
  }

  predicate AllowedRun(w: World, xs: seq<WorldEvent>)
    decreases |xs|
  {
    Wellformed(w) && (xs == [] || (Allowed(w, xs[0]) && AllowedRun(WorldStep(w, xs[0]), xs[1..])))
  }

  function AfterAll(w: World, xs: seq<WorldEvent>): World
    requires AllowedRun(w, xs)
    decreases |xs|
  {
    if xs == [] then w else AfterAll(WorldStep(w, xs[0]), xs[1..])
  }

  predicate RestfulWorld(w: World) {
    Wellformed(w) && forall i :: 0 <= i < |w| && w[i].Some? ==> Restful(w[i].value)
  }

  lemma WorldStepRestful(w: World, x: WorldEvent)
    requires RestfulWorld(w) && Allowed(w, x)
    ensures RestfulWorld(WorldStep(w, x))
  {
    forall i | 0 <= i < |w| && w[i].Some?
      ensures Sized(WorldStep(w, x)[i].value, |w[i].value.want|) && Restful(WorldStep(w, x)[i].value)
    {
      if x.Resets? {
        StepRestful(w[i].value, AllReset);
        StepRestful(w[i].value, ClientReset(x.client));
      } else if x.i == i {
        StepRestful(w[i].value, x.e);
      }
    }
  }

  lemma {:induction false} AfterAllRestful(w: World, xs: seq<WorldEvent>)
    requires RestfulWorld(w) && AllowedRun(w, xs)
    ensures RestfulWorld(AfterAll(w, xs))
    decreases |xs|
  {
    if xs != [] {
      WorldStepRestful(w, xs[0]);
      AfterAllRestful(WorldStep(w, xs[0]), xs[1..]);
    }
  }

  /** Modules of any kinds, each activated with the configuration given, if any. */
  predicate ActivatedWorld(w: World) {
    forall i :: 0 <= i < |w| && w[i].Some? ==> FreshlyActivated(w[i].value)
  }

  predicate FreshlyActivated(s: Outputs) {
    (s.safe.Some? ==> |s.safe.value| == |s.want|) && s == Activated(|s.want|, s.safe)
  }

  /**
    After any run of the daemon, a client that resets its outputs or disconnects has every module left with the wanted
    outputs and owners of a per-module reset, broadcast or not; its own outputs are safe and free, and nobody else's change.
  */
  lemma ResetsInEveryRun(w0: World, xs: seq<WorldEvent>, client: Client)
    requires ActivatedWorld(w0) && AllowedRun(w0, xs)
    ensures var w := AfterAll(w0, xs);
      && RestfulWorld(w)
      && client !in Setters(ClientResets(w, client))
      && forall i :: 0 <= i < |w| && w[i].Some? ==>
        && ClientResets(w, client)[i].Some?
        && SameOutputs(ClientResets(w, client)[i].value, ResetClientEverywhere(w, client)[i].value)
        && Released(w[i].value, ClientResets(w, client)[i].value, client)
  {
    assert RestfulWorld(w0) by {
      forall i | 0 <= i < |w0| && w0[i].Some? ensures Sized(w0[i].value, |w0[i].value.want|) && Restful(w0[i].value) {
        assert FreshlyActivated(w0[i].value);
      }
    }
    AfterAllRestful(w0, xs);
    var w := AfterAll(w0, xs);
    ClientIsolation(w, client);
    RefinesForRestful(w, client);
  }

  /** What an event of the daemon is for the module at address `i`. */
  function ProjectedEvent(w: World, x: WorldEvent, i: nat): seq<Event> {
    match x
    case At(j, e) => if j == i then [e] else []
    case Resets(client) =>
      if |Setters(w)| >= 2 then [ClientReset(client)] else if Setters(w) == {client} then [AllReset] else []
  }

  /** The run as the module at address `i` goes through it. */
  function Projected(w: World, xs: seq<WorldEvent>, i: nat): seq<Event>
    requires AllowedRun(w, xs)
    decreases |xs|
  {
    if xs == [] then [] else ProjectedEvent(w, xs[0], i) + Projected(WorldStep(w, xs[0]), xs[1..], i)
  }

  lemma ProjectedStep(w: World, x: WorldEvent, i: nat)
    requires Wellformed(w) && Allowed(w, x) && i < |w| && w[i].Some?
    ensures |WorldStep(w, x)| == |w|
    ensures var es := ProjectedEvent(w, x, i);
      WorldStep(w, x)[i] == (if es == [] then w[i] else Some(Step(w[i].value, es[0]))) && (es != [] ==> |es| == 1 && Possible(w[i].value, es[0]))
  {
  }

  lemma {:induction false} ProjectedRun(w: World, xs: seq<WorldEvent>, i: nat)
    requires AllowedRun(w, xs) && i < |w| && w[i].Some?
    ensures |AfterAll(w, xs)| == |w|
    ensures PossibleRun(w[i].value, Projected(w, xs, i))
    ensures AfterAll(w, xs)[i] == Some(Run(w[i].value, Projected(w, xs, i)))
    decreases |xs|
  {
    if xs != [] {
      var es, rest := ProjectedEvent(w, xs[0], i), Projected(WorldStep(w, xs[0]), xs[1..], i);
      ProjectedStep(w, xs[0], i);
      ProjectedRun(WorldStep(w, xs[0]), xs[1..], i);
      if es == [] {
        assert es + rest == rest;
      } else {
        assert (es + rest)[1..] == rest && (es + rest)[0] == es[0];
      }
    }
  }

  /**
    When a client resets its outputs or disconnects after any run of the daemon, exactly the outputs it was the last to set
    become safe and free; every other output keeps its value and its owner.
  */
  lemma LastSetOutputsReleased(w0: World, xs: seq<WorldEvent>, client: Client, i: nat, p: nat)
    requires ActivatedWorld(w0) && AllowedRun(w0, xs) && i < |w0| && w0[i].Some? && p < |w0[i].value.want|
    ensures PossibleRun(w0[i].value, Projected(w0, xs, i))
    ensures var w := AfterAll(w0, xs);
      && RestfulWorld(w)
      && |ClientResets(w, client)| == |w| == |w0| && w[i].Some? && ClientResets(w, client)[i].Some?
      && var s, s' := w[i].value, ClientResets(w, client)[i].value;
        && |s.want| == |s.who| == |s'.want| == |s'.who| == |SafeOutputs(s)| == |w0[i].value.want|
        && if LastSetBy(w0[i].value, Projected(w0, xs, i), p, client)
           then s'.who[p] == None && s'.want[p] == SafeOutputs(s)[p]
           else s'.who[p] == s.who[p] && s'.want[p] == s.want[p]
  {
    assert FreshlyActivated(w0[i].value);
    ProjectedRun(w0, xs, i);
    OwnerIsLastSetter(w0[i].value, Projected(w0, xs, i), p, client);
    ResetsInEveryRun(w0, xs, client);
    var w := AfterAll(w0, xs);
    RefinesForRestful(w, client);
    assert Released(w[i].value, ClientResets(w, client)[i].value, client);
  }

  lemma RefinesForRestful(w: World, client: Client)
    requires RestfulWorld(w)
    ensures |ClientResets(w, client)| == |w|
    ensures forall i :: 0 <= i < |w| && w[i].Some? ==>
      && ClientResets(w, client)[i].Some?
      && SameOutputs(ClientResets(w, client)[i].value, ResetClientEverywhere(w, client)[i].value)
  {
    if Setters(w) == {client} {
      BroadcastRefinesIff(w, client);
    } else if |Setters(w)| < 2 {
      if client in Setters(w) {
        SmallSet(Setters(w), client);
      }
      forall i | 0 <= i < |w| && w[i].Some?
        ensures SameOutputs(w[i].value, ResetClientEverywhere(w, client)[i].value)
      {
        NotSetter(w, client, i);
      }
    }
  }

  /**
    A module that is given new safe outputs while all but one of its outputs are free: the broadcast resets the free ones
    too, a reset of the only client's outputs does not.
  */
  lemma ReconfiguredDiffers(client: Client)
    ensures var s := Step(Step(Activated(16, Some(seq(16, _ => 0))), Requested(client, map[0 := 1])), ConfigWritten(seq(16, _ => 1)));
      && Wellformed([Some(s)]) && Setters([Some(s)]) == {client}
      && ClientResets([Some(s)], client)[0].value.want[1] == 1
      && ResetClientEverywhere([Some(s)], client)[0].value.want[1] == 0
  {
    var s0 := Activated(16, Some(seq(16, _ => 0)));
    var ports: map<nat, byte> := map[0 := 1];
    assert ports[0] != s0.want[0];
    assert Changes(s0, ports);
    var s1 := Step(s0, Requested(client, ports));
    assert s1.want[1] == 0 && s1.who[0] == Some(client) && forall i :: 0 < i < 16 ==> s1.who[i] == None;
    var w: World := [Some(Step(s1, ConfigWritten(seq(16, _ => 1))))];
    assert client in Setters(w) by {
      assert w[0].value.who[0].value == client;
    }
    assert Setters(w) == {client};
  }

  lemma {:induction false} DistinctSize(cs: seq<Client>, all: set<Client>)
    requires Distinct(cs) && forall c :: c in cs <==> c in all
    ensures |cs| == |all|
  {
    if cs == [] {
      assert all == {};
    } else {
      var n := |cs| - 1;
      var rest := all - {cs[n]};
      assert all == rest + {cs[n]};
      assert forall c :: c in cs[..n] <==> c in rest by {
        assert forall c :: c in cs <==> c in cs[..n] || c == cs[n];
      }
      DistinctSize(cs[..n], rest);
    }
  }

  ghost function States(modules: seq<OutputModule?>): World
    reads modules
  {
    seq(|modules|, i requires 0 <= i < |modules| reads modules =>
      if modules[i] != null then Some(modules[i].State()) else None)
  }

  /** The daemon: its modules by address, and who has subscribed to what. */
  class Application {
    var modules: seq<OutputModule?>
    var subscribes: seq<set<Client>>
    var topoSubscribes: set<Client>

    /** Every address has its own module object. */
    ghost predicate Valid()
      reads this, modules
    {
      && |subscribes| == |modules|
      && (forall i :: 0 <= i < |modules| && modules[i] != null ==> modules[i].Valid())
      && (forall i, j :: 0 <= i < j < |modules| && modules[i] != null ==> modules[i] != modules[j])
    }

    ghost function World(): World
      reads `modules, modules
    {
      States(modules)
    }

    /** The global `outputSetters`. */
    method OutputSetters() returns (result: seq<Client>)
      requires Valid()
      ensures Distinct(result)
      ensures forall c :: c in result <==> c in Setters(World())
    {
      result := [];
      for i := 0 to |modules|
        invariant Distinct(result)
        invariant forall c :: c in result <==> c in Setters(World()[..i])
      {
        ghost var before := result;
        if modules[i] != null {
          var setters := modules[i].OutputSetters();
          for k := 0 to |setters|
            invariant Distinct(result)
            invariant forall c :: c in result <==> c in before || c in setters[..k]
          {
            if setters[k] !in result {
              result := result + [setters[k]];
            }
          }
        }
        SettersSnoc(World()[..i], World()[i]);
        assert World()[..i] + [World()[i]] == World()[..i + 1];
      }
      assert World()[..|modules|] == World();
    }

    method ResetOutputsOfClient(client: Client)
      requires Valid()
      modifies modules
      ensures Valid() && World() == ResetClientEverywhere(old(World()), client)
    {
      for i := 0 to |modules|
        invariant Valid()
        invariant forall j :: i <= j < |modules| && modules[j] != null ==> modules[j].State() == old(modules[j].State())
        invariant forall j :: 0 <= j < i && modules[j] != null ==>
          modules[j].State() == ResetClient(old(modules[j].State()), client)
      {
        if modules[i] != null {
          modules[i].ResetOutputsOfClient(client);
        }
      }
    }

    method AllOutputsReset()
      requires Valid()
      modifies modules
      ensures Valid() && World() == ResetEverything(old(World()))
    {
      for i := 0 to |modules|
        invariant Valid()
        invariant forall j :: i <= j < |modules| && modules[j] != null ==> modules[j].State() == old(modules[j].State())
        invariant forall j :: 0 <= j < i && modules[j] != null ==> modules[j].State() == ResetAll(old(modules[j].State()))
      {
        if modules[i] != null {
          modules[i].AllOutputsReset();
        }
      }
    }

    /** `clientResetOutputs`; the result says whether the reset of all modules is broadcast on the bus. */
    method ClientResetOutputs(client: Client) returns (broadcast: bool)
      requires Valid()
      modifies modules
      ensures Valid() && World() == ClientResets(old(World()), client)
      ensures broadcast <==> Setters(old(World())) == {client}
    {
      var setters := OutputSetters();
      DistinctSize(setters, Setters(World()));
      broadcast := false;
      if |setters| >= 2 {
        ResetOutputsOfClient(client);
      } else if |setters| == 1 && setters[0] == client {
        SmallSet(Setters(World()), client);
        AllOutputsReset();
        broadcast := true;
      } else {
        assert client in Setters(World()) ==> client in setters;
      }
    }

    method Unsubscribe(client: Client)
      modifies `subscribes, `topoSubscribes
      ensures |subscribes| == old(|subscribes|)
      ensures forall i :: 0 <= i < |subscribes| ==> subscribes[i] == old(subscribes)[i] - {client}
      ensures topoSubscribes == old(topoSubscribes) - {client}
    {
      for i := 0 to |subscribes|
        invariant |subscribes| == old(|subscribes|) && topoSubscribes == old(topoSubscribes)
        invariant forall j :: 0 <= j < |subscribes| ==>
          subscribes[j] == if j < i then old(subscribes)[j] - {client} else old(subscribes)[j]
      {
        subscribes := subscribes[i := subscribes[i] - {client}];
      }
      topoSubscribes := topoSubscribes - {client};
    }

    /** `serverClientDisconnected`. */
    method ServerClientDisconnected(client: Client)
      requires Valid()
      modifies this, modules
      ensures Valid() && modules == old(modules)
      ensures |subscribes| == old(|subscribes|)
      ensures forall i :: 0 <= i < |subscribes| ==> subscribes[i] == old(subscribes)[i] - {client}
      ensures topoSubscribes == old(topoSubscribes) - {client}
      ensures World() == ClientResets(old(World()), client)
    {
      Unsubscribe(client);
      var broadcast := ClientResetOutputs(client);
    }
  }

  lemma SettersSnoc(w: World, m: Option<Outputs>)
    ensures forall c :: c in Setters(w + [m]) <==> c in Setters(w) || (m.Some? && Owns(m.value, c))
  {
    var w' := w + [m];
    forall c ensures c in Setters(w') <==> c in Setters(w) || (m.Some? && Owns(m.value, c)) {
      if c in Setters(w) {
        var i, j :| 0 <= i < |w| && w[i].Some? && 0 <= j < |w[i].value.who| && w[i].value.who[j] == Some(c);
        assert w'[i].value.who[j] == Some(c);
      }
      if m.Some? && Owns(m.value, c) {
        var j :| 0 <= j < |m.value.who| && m.value.who[j] == Some(c);
        assert w'[|w|].value.who[j] == Some(c);
      }
    }
  }
}
