/**
  The wanted and the confirmed outputs of one module, and the requests to set them (src/modules/uni.cpp; unis.cpp and
  led.cpp do the same with other sizes): while a command is on its way, further requests wait and are then sent together.

  The state is described by functions on values; class `OutputModule` updates it in place.
*/
module OutputQueue {
  import opened Basics
  import opened OutputCodec

  type Client = nat

  /** A request to be answered, by a number that tells requests apart; the daemon's own have no client. */
  datatype Request = Request(client: Option<Client>, serial: nat)

  datatype Answer = Answer(request: Request, ok: bool)

  /** `flying` are the outputs carried by the commands on their way, `answers` all responses so far. */
  datatype Outputs = Outputs(
    want: seq<byte>,
    confirmed: seq<byte>,
    who: seq<Option<Client>>,
    safe: Option<seq<byte>>,
    waiting: seq<Request>,
    sent: seq<Request>,
    flying: seq<seq<byte>>,
    serial: nat,
    answers: seq<Answer>)

  predicate Sized(s: Outputs, n: nat) {
    |s.want| == n && |s.confirmed| == n && |s.who| == n && (s.safe.Some? ==> |s.safe.value| == n)
  }

  /** The outputs after a reset: those of the configuration, or all off. */
  function SafeOutputs(s: Outputs): seq<byte> {
    match s.safe
    case Some(outputs) => outputs
    case None => seq(|s.want|, _ => 0)
  }

  /** `setOutputs`: whatever was recorded as sent is overwritten. */
  function SetOutputs(s: Outputs): Outputs {
    s.(sent := s.waiting, waiting := [], flying := s.flying + [s.want])
  }

  function Answers(requests: seq<Request>, ok: bool): seq<Answer> {
    seq(|requests|, i requires 0 <= i < |requests| => Answer(requests[i], ok))
  }

  predicate Changes(s: Outputs, ports: map<nat, byte>) {
    exists p :: p in ports && p < |s.want| && ports[p] != s.want[p]
  }

  function Wanted(s: Outputs, ports: map<nat, byte>): seq<byte> {
    seq(|s.want|, i requires 0 <= i < |s.want| => if i in ports then ports[i] else s.want[i])
  }

  function Owners(s: Outputs, client: Client, ports: map<nat, byte>): seq<Option<Client>>
    requires |s.who| == |s.want|
  {
    seq(|s.who|, i requires 0 <= i < |s.who| => if i in ports && ports[i] != s.want[i] then Some(client) else s.who[i])
  }

  /** `jsonSetOutput` for a request that has passed all checks. */
  function RequestOutputs(s: Outputs, client: Client, ports: map<nat, byte>): Outputs
    requires |s.who| == |s.want|
  {
    var request := Request(Some(client), s.serial);
    var s1 := s.(want := Wanted(s, ports), who := Owners(s, client, ports), serial := s.serial + 1);
    if Changes(s, ports) then
      var s2 := s1.(waiting := s.waiting + [request]);
      if s.want == s.confirmed then SetOutputs(s2) else s2
    else
      s1.(answers := s.answers + [Answer(request, true)])
  }

  /** A request that has not passed them is answered with an error at once. */
  function RefuseOutputs(s: Outputs, client: Client): Outputs {
    s.(serial := s.serial + 1, answers := s.answers + [Answer(Request(Some(client), s.serial), false)])
  }

  function Completed(s: Outputs, confirmed: seq<byte>, ok: bool): Outputs {
    var s1 := s.(
      confirmed := confirmed,
      answers := s.answers + Answers(s.sent, ok),
      sent := [],
      flying := if s.flying == [] then [] else s.flying[1..]);
    if s.waiting == [] then s1 else SetOutputs(s1)
  }

  predicate Owns(s: Outputs, client: Client) {
    exists i :: 0 <= i < |s.who| && s.who[i] == Some(client)
  }

  function ResetWant(s: Outputs, client: Client): seq<byte>
    requires |s.who| == |s.want| && s.safe.Some? && |s.safe.value| == |s.want|
  {
    seq(|s.want|, i requires 0 <= i < |s.want| => if s.who[i] == Some(client) then s.safe.value[i] else s.want[i])
  }

  function ResetWho(s: Outputs, client: Client): seq<Option<Client>> {
    seq(|s.who|, i requires 0 <= i < |s.who| => if s.who[i] == Some(client) then None else s.who[i])
  }

  /** `resetOutputsOfClient`. */
  function ResetClient(s: Outputs, client: Client): Outputs
    requires |s.who| == |s.want| && (s.safe.Some? ==> |s.safe.value| == |s.want|)
  {
    if s.safe.None? || !Owns(s, client) then s
    else
      var s1 := s.(
        want := ResetWant(s, client),
        who := ResetWho(s, client),
        serial := s.serial + 1,
        waiting := s.waiting + [Request(None, s.serial)]);
      if s.sent == [] then SetOutputs(s1) else s1
  }

  /** `allOutputsReset`, and likewise `outputsReset` at the end of an activation. */
  function ResetAll(s: Outputs): Outputs {
    s.(want := SafeOutputs(s), confirmed := SafeOutputs(s), who := seq(|s.who|, _ => None))
  }

  datatype Event =
    | Requested(client: Client, ports: map<nat, byte>)
    | Refused(client: Client)
    | OutputsSet(reported: seq<byte>)
    | OutputsNotSet
    | ClientReset(client: Client)
    | AllReset
    | ConfigWritten(safe: seq<byte>)

  /** Events as they come: answers of the module only to a command on its way, arrays of the right size. */
  predicate Possible(s: Outputs, e: Event) {
    match e
    case OutputsSet(reported) => s.flying != [] && |reported| == |s.want|
    case OutputsNotSet => s.flying != []
    case ConfigWritten(safe) => |safe| == |s.want|
    case _ => true
  }

  function Step(s: Outputs, e: Event): Outputs
    requires Sized(s, |s.want|)
  {
    match e
    case Requested(client, ports) => RequestOutputs(s, client, ports)
    case Refused(client) => RefuseOutputs(s, client)
    case OutputsSet(reported) => Completed(s, reported, true)
    case OutputsNotSet => Completed(s, s.want, false)
    case ClientReset(client) => ResetClient(s, client)
    case AllReset => ResetAll(s)
    case ConfigWritten(safe) => s.(safe := Some(safe))
  }

  /**
    At most one command is on its way; it answers to the requests in `sent`, and unless a request is waiting it carries
    the outputs wanted now. An idle module has no request left, and its outputs are those wanted.
  */
  predicate Coherent(s: Outputs) {
    && Sized(s, |s.want|)
    && |s.flying| <= 1
    && (s.flying == [] ==> s.sent == [] && s.waiting == [] && s.want == s.confirmed)
    && (s.flying != [] ==> s.sent != [] && (s.waiting == [] ==> s.want == s.flying[0]))
  }

  /** The events that keep the state coherent. */
  predicate Harmless(s: Outputs, e: Event) {
    match e
    case Requested(_, ports) => Changes(s, ports) && s.flying != [] ==> s.want != s.confirmed
    case OutputsSet(reported) => s.waiting == [] ==> reported == s.want
    case AllReset => s.flying != [] && s.waiting == [] ==> s.flying[0] == SafeOutputs(s)
    case _ => true
  }

  /**
    A request that arrives while a command is on its way although the confirmed outputs are the wanted ones is sent at
    once; a module that reports other outputs than those wanted is left waiting; and resetting all outputs forgets a
    command on its way. Every other event keeps the state coherent.
  */
  lemma StepCoherentIff(s: Outputs, e: Event)
    requires Coherent(s) && Possible(s, e)
    ensures Coherent(Step(s, e)) <==> Harmless(s, e)
  {
    match e
    case Requested(client, ports) =>
      if !Changes(s, ports) {
        assert Wanted(s, ports) == s.want;
      }
    case _ =>
  }

  function IsRequest(k: nat): Request -> nat {
    (r: Request) => if r.serial == k then 1 else 0
  }

  function IsAnswer(k: nat): Answer -> nat {
    (a: Answer) => if a.request.serial == k then 1 else 0
  }

  /** In how many places request `k` is: waiting, sent, or answered. */
  function Places(s: Outputs, k: nat): nat {
    Sum(s.waiting, IsRequest(k)) + Sum(s.sent, IsRequest(k)) + Sum(s.answers, IsAnswer(k))
  }

  predicate Accounted(s: Outputs, k: nat) {
    Places(s, k) == if k < s.serial then 1 else 0
  }

  lemma {:induction false} AnswersCount(requests: seq<Request>, ok: bool, k: nat)
    ensures Sum(Answers(requests, ok), IsAnswer(k)) == Sum(requests, IsRequest(k))
  {
    if requests != [] {
      assert Answers(requests, ok)[1..] == Answers(requests[1..], ok);
      AnswersCount(requests[1..], ok, k);
    }
  }

  lemma StepAccounted(s: Outputs, e: Event, k: nat)
    requires Coherent(s) && Possible(s, e) && Accounted(s, k)
    requires e.Requested? ==> Harmless(s, e)
    ensures Accounted(Step(s, e), k)
  {
    match e
    case Requested(client, ports) =>
      SumAppend(s.waiting, Request(Some(client), s.serial), IsRequest(k));
      SumAppend(s.answers, Answer(Request(Some(client), s.serial), true), IsAnswer(k));
    case Refused(client) => SumAppend(s.answers, Answer(Request(Some(client), s.serial), false), IsAnswer(k));
    case OutputsSet(_) => CompletedCount(s, true, k);
    case OutputsNotSet => CompletedCount(s, false, k);
    case ClientReset(_) => SumAppend(s.waiting, Request(None, s.serial), IsRequest(k));
    case _ =>
  }

  lemma CompletedCount(s: Outputs, ok: bool, k: nat)
    ensures Sum(s.answers + Answers(s.sent, ok), IsAnswer(k)) == Sum(s.answers, IsAnswer(k)) + Sum(s.sent, IsRequest(k))
  {
    SumConcat(s.answers, Answers(s.sent, ok), IsAnswer(k));
    AnswersCount(s.sent, ok, k);
  }

  /** The module has been activated: nothing is on its way, and its outputs are the safe ones. */
  function Activated(n: nat, safe: Option<seq<byte>>): Outputs
    requires safe.Some? ==> |safe.value| == n
  {
    var outputs := if safe.Some? then safe.value else seq(n, _ => 0);
    Outputs(outputs, outputs, seq(n, _ => None), safe, [], [], [], 0, [])
  }

  /** Events that can come one after the other. */
  predicate PossibleRun(s: Outputs, es: seq<Event>)
    decreases |es|
  {
    es == [] || (Sized(s, |s.want|) && Possible(s, es[0]) && PossibleRun(Step(s, es[0]), es[1..]))
  }

  function Run(s: Outputs, es: seq<Event>): Outputs
    requires PossibleRun(s, es)
    decreases |es|
  {
    if es == [] then s else Run(Step(s, es[0]), es[1..])
  }

  /** Every event is harmless when it comes. */
  predicate HarmlessRun(s: Outputs, es: seq<Event>)
    requires PossibleRun(s, es)
    decreases |es|
  {
    es == [] || (Harmless(s, es[0]) && HarmlessRun(Step(s, es[0]), es[1..]))
  }

  /** Every state the run goes through is coherent. */
  predicate CoherentRun(s: Outputs, es: seq<Event>)
    requires PossibleRun(s, es)
    decreases |es|
  {
    Coherent(s) && (es == [] || CoherentRun(Step(s, es[0]), es[1..]))
  }

  /** A run from a coherent state stays coherent all the way if and only if its events are harmless. */
  lemma {:induction false} RunCoherentIff(s: Outputs, es: seq<Event>)
    requires Coherent(s) && PossibleRun(s, es)
    ensures CoherentRun(s, es) <==> HarmlessRun(s, es)
    decreases |es|
  {
    if es != [] {
      StepCoherentIff(s, es[0]);
      if Harmless(s, es[0]) {
        RunCoherentIff(Step(s, es[0]), es[1..]);
      } else {
        NotCoherentFrom(Step(s, es[0]), es[1..]);
      }
    }
  }

  lemma NotCoherentFrom(s: Outputs, es: seq<Event>)
    requires !Coherent(s) && PossibleRun(s, es)
    ensures !CoherentRun(s, es)
  {
  }

  lemma {:induction false} RunKeeps(s: Outputs, es: seq<Event>, k: nat)
    requires Coherent(s) && Accounted(s, k) && PossibleRun(s, es) && HarmlessRun(s, es)
    ensures Coherent(Run(s, es)) && Accounted(Run(s, es), k)
    decreases |es|
  {
    if es != [] {
      StepCoherentIff(s, es[0]);
      StepAccounted(s, es[0], k);
      RunKeeps(Step(s, es[0]), es[1..], k);
    }
  }

  /** What clients and the module may rely on: every request has its answer, and an idle module has nothing left to do. */
  predicate Served(s: Outputs, k: nat) {
    && |s.flying| <= 1
    && Places(s, k) == (if k < s.serial then 1 else 0)
    && (s.flying == [] ==> s.want == s.confirmed && Sum(s.answers, IsAnswer(k)) == if k < s.serial then 1 else 0)
  }

  /**
    On runs of harmless events at most one command is on its way, every request is waiting, sent or answered, once, and
    when no command is on its way every request has been answered and the outputs confirmed are those wanted.
  */
  lemma EveryRequestAnsweredOnce(n: nat, safe: Option<seq<byte>>, es: seq<Event>, k: nat)
    requires safe.Some? ==> |safe.value| == n
    requires PossibleRun(Activated(n, safe), es) && HarmlessRun(Activated(n, safe), es)
    ensures Served(Run(Activated(n, safe), es), k)
  {
    RunKeeps(Activated(n, safe), es, k);
  }

  /** Outputs that survive the way to the module and back. */
  predicate AllNormal(outputs: seq<byte>) {
    forall i :: 0 <= i < |outputs| ==> Normal(outputs[i]) == outputs[i]
  }

  /** What a module that echoes the command reports. */
  function Echo(outputs: seq<byte>): (reported: seq<byte>)
    ensures AllNormal(outputs) ==> reported == outputs
  {
    seq(|outputs|, i requires 0 <= i < |outputs| => Normal(outputs[i]))
  }

  /** On the bus that is so: the data sent, echoed and decoded. */
  lemma ReportIsEcho(l: Layout, outputs: seq<byte>, data: seq<byte>, garbage: seq<byte>, reported: seq<byte>)
    requires |outputs| == |garbage| == l.Outputs()
    requires Encodes(l, outputs, data) && Decodes(l, data, garbage, reported)
    ensures reported == Echo(outputs)
  {
    RoundTrip(l, outputs, data, garbage, reported);
  }

  /** A module that echoes the command it got reports the wanted outputs exactly if they are in normal form. */
  lemma EchoHarmlessIff(l: Layout, s: Outputs, data: seq<byte>, garbage: seq<byte>, reported: seq<byte>)
    requires Coherent(s) && s.flying != [] && s.waiting == [] && |s.want| == |garbage| == l.Outputs()
    requires Encodes(l, s.flying[0], data) && Decodes(l, data, garbage, reported)
    ensures Harmless(s, OutputsSet(reported)) <==> AllNormal(s.want)
  {
    RoundTrip(l, s.want, data, garbage, reported);
  }

  /**
    Events of a module that echoes what it is sent: clients and configurations name valid codes, no request arrives while
    a command is on its way although the confirmed outputs are the wanted ones, and no bulk reset while one is.
  */
  predicate Echoing(s: Outputs, e: Event) {
    match e
    case Requested(_, ports) =>
      && (forall p :: p in ports ==> Normal(ports[p]) == ports[p])
      && (Changes(s, ports) && s.flying != [] ==> s.want != s.confirmed)
    case OutputsSet(reported) => s.flying != [] && reported == Echo(s.flying[0])
    case AllReset => s.flying == []
    case ConfigWritten(safe) => AllNormal(safe)
    case _ => true
  }

  predicate EchoRun(s: Outputs, es: seq<Event>)
    requires PossibleRun(s, es)
    decreases |es|
  {
    es == [] || (Echoing(s, es[0]) && EchoRun(Step(s, es[0]), es[1..]))
  }

  predicate NormalOutputs(s: Outputs) {
    && AllNormal(s.want)
    && (s.safe.Some? ==> AllNormal(s.safe.value))
    && (forall i :: 0 <= i < |s.flying| ==> AllNormal(s.flying[i]))
  }

  lemma EchoStep(s: Outputs, e: Event)
    requires Coherent(s) && NormalOutputs(s) && Possible(s, e) && Echoing(s, e)
    ensures Harmless(s, e) && NormalOutputs(Step(s, e))
  {
    assert AllNormal(SafeOutputs(s));
  }

  lemma {:induction false} EchoRunHarmless(s: Outputs, es: seq<Event>)
    requires Coherent(s) && NormalOutputs(s) && PossibleRun(s, es) && EchoRun(s, es)
    ensures HarmlessRun(s, es) && NormalOutputs(Run(s, es))
    decreases |es|
  {
    if es != [] {
      EchoStep(s, es[0]);
      StepCoherentIff(s, es[0]);
      EchoRunHarmless(Step(s, es[0]), es[1..]);
    }
  }

  /** A module that echoes what it is sent serves every request, and only normal outputs are ever wanted. */
  lemma EchoingModuleServes(n: nat, safe: Option<seq<byte>>, es: seq<Event>, k: nat)
    requires safe.Some? ==> |safe.value| == n && AllNormal(safe.value)
    requires PossibleRun(Activated(n, safe), es) && EchoRun(Activated(n, safe), es)
    ensures Served(Run(Activated(n, safe), es), k) && NormalOutputs(Run(Activated(n, safe), es))
  {
    EchoRunHarmless(Activated(n, safe), es);
    EveryRequestAnsweredOnce(n, safe, es, k);
  }

  /** A request that is nowhere stays nowhere. */
  lemma StepForgets(s: Outputs, e: Event, k: nat)
    requires Sized(s, |s.want|) && Possible(s, e) && k < s.serial && Places(s, k) == 0
    ensures k < Step(s, e).serial && Places(Step(s, e), k) == 0
  {
    match e
    case Requested(client, ports) => RequestForgets(s, client, ports, k);
    case Refused(client) => SumAppend(s.answers, Answer(Request(Some(client), s.serial), false), IsAnswer(k));
    case OutputsSet(reported) => CompletionForgets(s, reported, true, k);
    case OutputsNotSet => CompletionForgets(s, s.want, false, k);
    case ClientReset(_) => SumAppend(s.waiting, Request(None, s.serial), IsRequest(k));
    case _ =>
  }

  lemma CompletionForgets(s: Outputs, confirmed: seq<byte>, ok: bool, k: nat)
    requires Places(s, k) == 0
    ensures Places(Completed(s, confirmed, ok), k) == 0
  {
    CompletedCount(s, ok, k);
  }

  lemma RequestForgets(s: Outputs, client: Client, ports: map<nat, byte>, k: nat)
    requires |s.who| == |s.want| && k < s.serial && Places(s, k) == 0
    ensures Places(RequestOutputs(s, client, ports), k) == 0
  {
    SumAppend(s.waiting, Request(Some(client), s.serial), IsRequest(k));
    SumAppend(s.answers, Answer(Request(Some(client), s.serial), true), IsAnswer(k));
  }

  lemma {:induction false} RunForgets(s: Outputs, es: seq<Event>, k: nat)
    requires PossibleRun(s, es) && k < s.serial && Places(s, k) == 0
    ensures Places(Run(s, es), k) == 0
    decreases |es|
  {
    if es != [] {
      StepForgets(s, es[0], k);
      RunForgets(Step(s, es[0]), es[1..], k);
    }
  }

  /**
    A request sent on top of a command on its way makes the daemon forget whom that command has to answer: whatever
    happens afterwards, these requests are never answered.
  */
  lemma HarmfulRequestLosesAnswers(s: Outputs, client: Client, ports: map<nat, byte>, k: nat, es: seq<Event>)
    requires Coherent(s) && !Harmless(s, Requested(client, ports))
    requires Accounted(s, k) && Sum(s.sent, IsRequest(k)) > 0
    requires PossibleRun(RequestOutputs(s, client, ports), es)
    ensures |RequestOutputs(s, client, ports).flying| == 2
    ensures Places(Run(RequestOutputs(s, client, ports), es), k) == 0
  {
    SumAppend(s.waiting, Request(Some(client), s.serial), IsRequest(k));
    RunForgets(RequestOutputs(s, client, ports), es, k);
  }

  /** Output 0 is set, and while that command is on its way it is reset: the wanted outputs are the confirmed ones again. */
  function Blinked(client: Client): Outputs {
    var s1 := RequestOutputs(Activated(16, None), client, map[0 := 1]);
    RequestOutputs(s1, client, map[0 := 0])
  }

  /** Setting it once more then puts a second command on its way, and the first request is never answered. */
  lemma BlinkingLosesAnswer(client: Client, es: seq<Event>)
    requires PossibleRun(RequestOutputs(Blinked(client), client, map[0 := 1]), es)
    ensures var s := Run(RequestOutputs(Blinked(client), client, map[0 := 1]), es);
      Places(s, 0) == 0
    ensures Coherent(Blinked(client)) && |RequestOutputs(Blinked(client), client, map[0 := 1]).flying| == 2
  {
    var s2 := Blinked(client);
    var ports: map<nat, byte> := map[0 := 1];
    BlinkedState(client);
    assert ports[0] != s2.want[0];
    assert Changes(s2, ports);
    assert Sum(s2.waiting, IsRequest(0)) == 0 && Sum(s2.sent, IsRequest(0)) == 1 && Sum(s2.answers, IsAnswer(0)) == 0;
    HarmfulRequestLosesAnswers(s2, client, ports, 0, es);
  }

  lemma BlinkedState(client: Client)
    ensures var s := Blinked(client);
      && Coherent(s) && s.want == s.confirmed == seq(16, _ => 0) && |s.flying| == 1
      && s.waiting == [Request(Some(client), 1)] && s.sent == [Request(Some(client), 0)] && s.answers == [] && s.serial == 2
  {
    var s0 := Activated(16, None);
    var on: map<nat, byte> := map[0 := 1];
    var off: map<nat, byte> := map[0 := 0];
    assert on[0] != s0.want[0];
    assert Changes(s0, on);
    var s1 := RequestOutputs(s0, client, on);
    assert off[0] != s1.want[0];
    assert Changes(s1, off);
  }

  /** A bulk reset while a command is on its way: when the module echoes it, it is idle with other outputs than those wanted. */
  lemma BulkResetMissesCommand(client: Client)
    ensures var s1 := Step(Activated(16, None), Requested(client, map[0 := 1]));
      var s2 := Step(s1, AllReset);
      var s3 := Step(s2, OutputsSet(Echo(s1.want)));
      Coherent(s1) && s2.flying == [s1.want] && s3.flying == [] && s3.want[0] == 0 && s3.confirmed[0] == 1
  {
    var s0 := Activated(16, None);
    var ports: map<nat, byte> := map[0 := 1];
    assert ports[0] != s0.want[0];
    assert Changes(s0, ports);
  }

  /** A safe state that is no valid code, as a configuration read from a module may hold: the echo never equals it. */
  lemma AbnormalSafeState(client: Client)
    ensures var s0 := Activated(16, Some(seq(16, _ => 2)));
      var s1 := Step(s0, Requested(client, map[0 := 1]));
      var s2 := Step(s1, OutputsSet(s1.want));
      var s3 := Step(s2, ClientReset(client));
      var s4 := Step(s3, OutputsSet(Echo(s3.want)));
      Coherent(s3) && s3.flying == [s3.want] && s4.flying == [] && s4.want[0] == 2 && s4.confirmed[0] == 1
  {
    var s0 := Activated(16, Some(seq(16, _ => 2)));
    var ports: map<nat, byte> := map[0 := 1];
    assert ports[0] != s0.want[0];
    assert Changes(s0, ports);
    var s1 := Step(s0, Requested(client, ports));
    assert s1.who[0] == Some(client) && s1.want[0] == 1;
    var s2 := Step(s1, OutputsSet(s1.want));
    assert Owns(s2, client);
  }

  /** The event, coming in this state, leads to this answer: a report or a failure of the module answers what had been sent. */
  predicate Causes(s: Outputs, e: Event, a: Answer) {
    match e
    case OutputsSet(_) => a.ok && a.request in s.sent
    case OutputsNotSet => !a.ok && a.request in s.sent
    case Requested(client, ports) => a == Answer(Request(Some(client), s.serial), true) && !Changes(s, ports)
    case Refused(client) => a == Answer(Request(Some(client), s.serial), false)
    case _ => false
  }

  lemma StepCauses(s: Outputs, e: Event)
    requires Sized(s, |s.want|) && Possible(s, e)
    ensures s.answers <= Step(s, e).answers
    ensures forall j :: |s.answers| <= j < |Step(s, e).answers| ==> Causes(s, e, Step(s, e).answers[j])
  {
  }

  lemma {:induction false} RunSnoc(s: Outputs, es: seq<Event>, n: nat)
    requires PossibleRun(s, es) && n < |es|
    ensures PossibleRun(s, es[..n]) && PossibleRun(s, es[..n + 1])
    ensures var t := Run(s, es[..n]);
      Sized(t, |t.want|) && Possible(t, es[n]) && Run(s, es[..n + 1]) == Step(t, es[n])
    decreases |es|
  {
    if n == 0 {
      assert es[..1][1..] == [] && es[..0] == [];
    } else {
      RunSnoc(Step(s, es[0]), es[1..], n - 1);
      assert es[..n][1..] == es[1..][..n - 1] && es[..n + 1][1..] == es[1..][..n];
    }
  }

  /** In every run each answer has its cause: an event that came in a state it answers from, with the outcome it reports. */
  lemma {:induction false} EveryAnswerHasCause(s: Outputs, es: seq<Event>, j: nat) returns (i: nat)
    requires PossibleRun(s, es) && |s.answers| <= j < |Run(s, es).answers|
    ensures i < |es| && PossibleRun(s, es[..i])
    ensures Causes(Run(s, es[..i]), es[i], Run(s, es).answers[j])
  {
    var n := |es| - 1;
    assert es[..|es|] == es;
    RunSnoc(s, es, n);
    var t := Run(s, es[..n]);
    StepCauses(t, es[n]);
    if j < |t.answers| {
      i := EveryAnswerHasCause(s, es[..n], j);
      assert es[..n][..i] == es[..i];
    } else {
      i := n;
    }
  }

  /** The event is a request of this client that gives output `p` a new value. */
  predicate Sets(s: Outputs, e: Event, p: nat, client: Client) {
    e.Requested? && e.client == client && p in e.ports && p < |s.want| && e.ports[p] != s.want[p]
  }

  /** The event takes output `p` from its owner `client`: another client sets it, or it is reset. */
  predicate Takes(s: Outputs, e: Event, p: nat, client: Client) {
    || (e.Requested? && e.client != client && Sets(s, e, p, e.client))
    || e.AllReset?
    || (e.ClientReset? && e.client == client && s.safe.Some?)
  }

  lemma StepOwner(s: Outputs, e: Event, p: nat, client: Client)
    requires Sized(s, |s.want|) && Possible(s, e) && p < |s.want|
    ensures |Step(s, e).who| == |s.who|
    ensures Step(s, e).who[p] == Some(client) <==> Sets(s, e, p, client) || (s.who[p] == Some(client) && !Takes(s, e, p, client))
  {
  }

  /** In the i-th state of the run. */
  predicate SetsAt(s: Outputs, es: seq<Event>, i: nat, p: nat, client: Client)
    requires PossibleRun(s, es) && i < |es|
  {
    RunSnoc(s, es, i);
    Sets(Run(s, es[..i]), es[i], p, client)
  }

  predicate TakesAt(s: Outputs, es: seq<Event>, i: nat, p: nat, client: Client)
    requires PossibleRun(s, es) && i < |es|
  {
    RunSnoc(s, es, i);
    Takes(Run(s, es[..i]), es[i], p, client)
  }

  /** The client has set the output, and nothing has taken it since. */
  predicate LastSetBy(s: Outputs, es: seq<Event>, p: nat, client: Client)
    requires PossibleRun(s, es)
  {
    exists i :: 0 <= i < |es| && LastSetAt(s, es, i, p, client)
  }

  lemma SameBefore(s: Outputs, es: seq<Event>, i: nat, p: nat, client: Client)
    requires PossibleRun(s, es) && i + 1 < |es| && PossibleRun(s, es[..|es| - 1])
    ensures SetsAt(s, es[..|es| - 1], i, p, client) == SetsAt(s, es, i, p, client)
    ensures TakesAt(s, es[..|es| - 1], i, p, client) == TakesAt(s, es, i, p, client)
  {
    assert es[..|es| - 1][..i] == es[..i];
  }

  predicate LastSetAt(s: Outputs, es: seq<Event>, i: nat, p: nat, client: Client)
    requires PossibleRun(s, es) && i < |es|
  {
    SetsAt(s, es, i, p, client) && forall j :: i < j < |es| ==> !TakesAt(s, es, j, p, client)
  }

  lemma LastSetAtSnoc(s: Outputs, es: seq<Event>, i: nat, p: nat, client: Client)
    requires PossibleRun(s, es) && i + 1 < |es| && PossibleRun(s, es[..|es| - 1])
    ensures LastSetAt(s, es, i, p, client) <==>
      LastSetAt(s, es[..|es| - 1], i, p, client) && !TakesAt(s, es, |es| - 1, p, client)
  {
    var n := |es| - 1;
    forall j | i <= j < n
      ensures SetsAt(s, es[..n], j, p, client) == SetsAt(s, es, j, p, client)
      ensures TakesAt(s, es[..n], j, p, client) == TakesAt(s, es, j, p, client)
    {
      SameBefore(s, es, j, p, client);
    }
  }

  lemma LastSetBySnoc(s: Outputs, es: seq<Event>, p: nat, client: Client)
    requires PossibleRun(s, es) && es != [] && PossibleRun(s, es[..|es| - 1])
    ensures var n := |es| - 1;
      LastSetBy(s, es, p, client) <==>
        SetsAt(s, es, n, p, client) || (LastSetBy(s, es[..n], p, client) && !TakesAt(s, es, n, p, client))
  {
    var n := |es| - 1;
    if i :| 0 <= i < n && LastSetAt(s, es, i, p, client) {
      LastSetAtSnoc(s, es, i, p, client);
    }
    if i :| 0 <= i < n && LastSetAt(s, es[..n], i, p, client) {
      LastSetAtSnoc(s, es, i, p, client);
    }
    if SetsAt(s, es, n, p, client) {
      assert LastSetAt(s, es, n, p, client);
    }
  }

  /**
    In every run that begins with no owner, a client owns an output if and only if it has set it and since then no other
    client has, and it has not been reset.
  */
  lemma {:induction false} OwnerIsLastSetter(s: Outputs, es: seq<Event>, p: nat, client: Client)
    requires PossibleRun(s, es) && p < |s.want| && Sized(s, |s.want|) && s.who[p] == None
    ensures |Run(s, es).want| == |Run(s, es).who| == |s.want|
    ensures Run(s, es).who[p] == Some(client) <==> LastSetBy(s, es, p, client)
    decreases |es|
  {
    if es != [] {
      var n := |es| - 1;
      assert es[..n + 1] == es;
      RunSnoc(s, es, n);
      OwnerIsLastSetter(s, es[..n], p, client);
      StepOwner(Run(s, es[..n]), es[n], p, client);
      LastSetBySnoc(s, es, p, client);
    }
  }
}
