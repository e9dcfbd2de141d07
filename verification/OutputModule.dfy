/** The outputs of one module, updated in place (`MtbUni` and `MtbUnis`, src/modules/uni.cpp and unis.cpp). */
module OutputModule {
  import opened Basics
  import opened OutputCodec
  import opened OutputQueue

  /** No client occurs twice. */
  predicate Distinct(cs: seq<Client>) {
    forall i, j :: 0 <= i < j < |cs| ==> cs[i] != cs[j]
  }

  /** Every requested port has the requested value, and where that is a new one the client is the owner; the rest is unchanged. */
  predicate Stored(want: seq<byte>, want': seq<byte>, who: seq<Option<Client>>, who': seq<Option<Client>>, client: Client,
                   ports: map<nat, byte>)
  {
    && |want'| == |want| && |who'| == |who| == |want|
    && forall p :: 0 <= p < |want| ==>
      && want'[p] == (if p in ports then ports[p] else want[p])
      && who'[p] == (if p in ports && ports[p] != want[p] then Some(client) else who[p])
  }

  /** The answers so far, and then one to each request in order, all with the same outcome. */
  predicate AnswersAppended(answers: seq<Answer>, answers': seq<Answer>, requests: seq<Request>, ok: bool) {
    && answers <= answers'
    && |answers'| == |answers| + |requests|
    && forall i :: 0 <= i < |requests| ==>
      answers'[|answers| + i].request == requests[i] && answers'[|answers| + i].ok == ok
  }

  /** `MtbUni` and `MtbUnis`, as far as outputs are concerned. */
  class OutputModule {
    const layout: Layout
    var outputsWant: seq<byte>
    var outputsConfirmed: seq<byte>
    var whoSetOutput: seq<Option<Client>>
    var outputsSafe: Option<seq<byte>>
    var setOutputsWaiting: seq<Request>
    var setOutputsSent: seq<Request>
    var serial: nat
    ghost var flying: seq<seq<byte>>
    ghost var answers: seq<Answer>

    ghost function State(): Outputs
      reads this
    {
      Outputs(outputsWant, outputsConfirmed, whoSetOutput, outputsSafe, setOutputsWaiting, setOutputsSent, flying, serial, answers)
    }

    ghost predicate Valid()
      reads this
    {
      Sized(State(), layout.Outputs())
    }

    /** The data of the command that is sent. */
    method SetOutputs() returns (data: seq<byte>)
      requires Valid()
      modifies this
      ensures State() == OutputQueue.SetOutputs(old(State()))
      ensures setOutputsSent == old(setOutputsWaiting) && setOutputsWaiting == [] && flying == old(flying) + [outputsWant]
      ensures Encodes(layout, outputsWant, data)
    {
      setOutputsSent := setOutputsWaiting;
      setOutputsWaiting := [];
      flying := flying + [outputsWant];
      match layout
      case Uni => data := UniOutputsData(outputsWant);
      case Unis => data := UnisOutputsData(outputsWant);
    }

    /** The loop of `jsonSetOutput` that stores the new values and whose they are. */
    method StorePorts(client: Client, ports: map<nat, byte>) returns (changed: bool)
      requires Valid() && forall p :: p in ports ==> p < layout.Outputs()
      modifies `outputsWant, `whoSetOutput
      ensures changed <==> Changes(old(State()), ports)
      ensures outputsWant == Wanted(old(State()), ports)
      ensures whoSetOutput == Owners(old(State()), client, ports)
      ensures Stored(old(outputsWant), outputsWant, old(whoSetOutput), whoSetOutput, client, ports)
    {
      ghost var s := State();
      changed := false;
      var keys := ports.Keys;
      while keys != {}
        invariant keys <= ports.Keys
        invariant |outputsWant| == |whoSetOutput| == |s.want|
        invariant changed <==> exists p :: p in ports && p !in keys && ports[p] != s.want[p]
        invariant forall p :: 0 <= p < |s.want| ==>
          if p in ports && p !in keys
          then outputsWant[p] == ports[p] && whoSetOutput[p] == Owners(s, client, ports)[p]
          else outputsWant[p] == s.want[p] && whoSetOutput[p] == s.who[p]
      {
        var port :| port in keys;
        if ports[port] != outputsWant[port] {
          changed := true;
          whoSetOutput := whoSetOutput[port := Some(client)];
        }
        outputsWant := outputsWant[port := ports[port]];
        keys := keys - {port};
      }
    }

    /** `jsonSetOutput` behind its checks. */
    method JsonSetOutput(client: Client, ports: map<nat, byte>)
      requires Valid() && forall p :: p in ports ==> p < layout.Outputs()
      modifies this
      ensures State() == RequestOutputs(old(State()), client, ports)
      ensures Stored(old(outputsWant), outputsWant, old(whoSetOutput), whoSetOutput, client, ports)
      ensures outputsConfirmed == old(outputsConfirmed)
      ensures if outputsWant == old(outputsWant)
        then answers == old(answers) + [Answer(Request(Some(client), old(serial)), true)]
             && setOutputsWaiting == old(setOutputsWaiting) && setOutputsSent == old(setOutputsSent)
        else answers == old(answers)
             && Request(Some(client), old(serial)) in setOutputsWaiting + setOutputsSent
    {
      var send := outputsWant == outputsConfirmed;
      var changed := StorePorts(client, ports);
      var request := Request(Some(client), serial);
      serial := serial + 1;
      if changed {
        setOutputsWaiting := setOutputsWaiting + [request];
        if send {
          var data := SetOutputs();
        }
      } else {
        answers := answers + [Answer(request, true)];
      }
    }

    /** The callback of the command: `data` is what the module reports. */
    method MtbBusOutputsSet(data: seq<byte>, garbage: seq<byte>) returns (reported: seq<byte>)
      requires Valid() && |garbage| == layout.Outputs()
      modifies this
      ensures Decodes(layout, data, garbage, reported)
      ensures State() == Completed(old(State()), reported, true)
      ensures outputsWant == old(outputsWant) && whoSetOutput == old(whoSetOutput) && outputsConfirmed == reported
      ensures AnswersAppended(old(answers), answers, old(setOutputsSent), true)
    {
      match layout {
        case Uni => reported := UniModuleOutputs(data, garbage);
        case Unis => reported := UnisModuleOutputs(data, garbage);
      }
      Complete(reported, true);
    }

    method MtbBusOutputsNotSet()
      requires Valid()
      modifies this
      ensures State() == Completed(old(State()), old(outputsWant), false)
      ensures outputsWant == outputsConfirmed == old(outputsWant) && whoSetOutput == old(whoSetOutput)
      ensures AnswersAppended(old(answers), answers, old(setOutputsSent), false)
    {
      Complete(outputsWant, false);
    }

    /** What both callbacks do: answer the requests sent and send the next outputs. */
    method Complete(confirmed: seq<byte>, ok: bool)
      requires Valid() && |confirmed| == layout.Outputs()
      modifies this
      ensures State() == Completed(old(State()), confirmed, ok)
      ensures AnswersAppended(old(answers), answers, old(setOutputsSent), ok)
      ensures setOutputsSent == old(setOutputsWaiting) && setOutputsWaiting == []
    {
      outputsConfirmed := confirmed;
      answers := answers + Answers(setOutputsSent, ok);
      setOutputsSent := [];
      flying := if flying == [] then [] else flying[1..];
      if setOutputsWaiting != [] {
        var data := SetOutputs();
      }
    }

    method ResetOutputsOfClient(client: Client)
      requires Valid()
      modifies this
      ensures State() == ResetClient(old(State()), client)
      ensures outputsConfirmed == old(outputsConfirmed) && answers == old(answers)
      ensures forall p :: 0 <= p < layout.Outputs() ==>
        if outputsSafe.Some? && old(whoSetOutput)[p] == Some(client)
        then outputsWant[p] == outputsSafe.value[p] && whoSetOutput[p] == None
        else outputsWant[p] == old(outputsWant)[p] && whoSetOutput[p] == old(whoSetOutput)[p]
    {
      ghost var s := State();
      var send := false;
      if outputsSafe.Some? {
        for i := 0 to |whoSetOutput|
          invariant |outputsWant| == |whoSetOutput| == |s.want|
          invariant State() == s.(want := outputsWant, who := whoSetOutput)
          invariant send <==> exists j :: 0 <= j < i && s.who[j] == Some(client)
          invariant forall j :: 0 <= j < |s.want| ==>
            if j < i then outputsWant[j] == ResetWant(s, client)[j] && whoSetOutput[j] == ResetWho(s, client)[j]
            else outputsWant[j] == s.want[j] && whoSetOutput[j] == s.who[j]
        {
          if whoSetOutput[i] == Some(client) {
            outputsWant := outputsWant[i := outputsSafe.value[i]];
            whoSetOutput := whoSetOutput[i := None];
            send := true;
          }
        }
        assert outputsWant == ResetWant(s, client) && whoSetOutput == ResetWho(s, client);
      }
      if send {
        setOutputsWaiting := setOutputsWaiting + [Request(None, serial)];
        serial := serial + 1;
        if setOutputsSent == [] {
          var data := SetOutputs();
        }
      } else {
        assert outputsSafe.Some? ==> outputsWant == s.want && whoSetOutput == s.who;
      }
    }

    method AllOutputsReset()
      requires Valid()
      modifies this
      ensures State() == ResetAll(old(State()))
      ensures forall p :: 0 <= p < layout.Outputs() ==>
        && outputsWant[p] == outputsConfirmed[p] == (if outputsSafe.Some? then outputsSafe.value[p] else 0)
        && whoSetOutput[p] == None
    {
      ghost var s := State();
      for i := 0 to |outputsWant|
        invariant |outputsWant| == |outputsConfirmed| == |whoSetOutput| == |s.want|
        invariant State() == s.(want := outputsWant, confirmed := outputsConfirmed, who := whoSetOutput)
        invariant forall j :: 0 <= j < i ==> outputsWant[j] == outputsConfirmed[j] == SafeOutputs(s)[j] && whoSetOutput[j] == None
      {
        var safe := if outputsSafe.Some? then outputsSafe.value[i] else 0;
        outputsWant := outputsWant[i := safe];
        outputsConfirmed := outputsConfirmed[i := safe];
        whoSetOutput := whoSetOutput[i := None];
      }
      assert outputsWant == SafeOutputs(s) && outputsConfirmed == SafeOutputs(s) && whoSetOutput == seq(|s.who|, _ => None);
    }

    method OutputSetters() returns (result: seq<Client>)
      ensures Distinct(result)
      ensures forall c :: c in result <==> Owns(State(), c)
    {
      result := [];
      for i := 0 to |whoSetOutput|
        invariant Distinct(result)
        invariant forall c :: c in result <==> exists j :: 0 <= j < i && whoSetOutput[j] == Some(c)
      {
        if whoSetOutput[i].Some? && whoSetOutput[i].value !in result {
          result := result + [whoSetOutput[i].value];
        }
      }
    }
  }
}
