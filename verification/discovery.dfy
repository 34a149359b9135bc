/** Port discovery of app/translator-client.tsx: probe `http://127.0.0.1:p/`
    for each candidate port in order and keep the first that answers with a
    2xx status. The probe outcomes are an input, one per candidate. */
module Discovery {
  import opened Fetch

  /** The candidate ports, in probing order. */
  const Ports: seq<int> := [5002, 5003, 5004]

  /** What `findWorkingPort` did: whether it found a port, which one, and
      how many probes it sent. */
  datatype Found = Found(found: bool, port: int, probed: nat)

  /** A probe counts when it answers with an ok status; a refused or failed
      connection is logged and skipped. */
  predicate Answers(o: Outcome) {
    o.Responded? && Ok(o.response)
  }

  /** The search from candidate `i` on. */
  function Search(probes: seq<Outcome>, i: nat): (f: Found)
    requires |probes| == |Ports| && i <= |Ports|
    decreases |Ports| - i
    ensures i < f.probed <= |Ports| || (f.probed == i == |Ports|)
    ensures f.found ==> Answers(probes[f.probed - 1]) && f.port == Ports[f.probed - 1]
    ensures !f.found ==> f.probed == |Ports|
    ensures forall j :: i <= j < f.probed - 1 ==> !Answers(probes[j])
    ensures !f.found ==> forall j :: i <= j < |Ports| ==> !Answers(probes[j])
  {
    if i == |Ports| then Found(false, 0, i)
    else if Answers(probes[i]) then Found(true, Ports[i], i + 1)
    else Search(probes, i + 1)
  }

  /** `findWorkingPort()`: the found flag, and on success the port it sets. */
  function FindWorkingPort(probes: seq<Outcome>): (f: Found)
    requires |probes| == |Ports|
    ensures f.found <==> exists i :: 0 <= i < |Ports| && Answers(probes[i])
    ensures f.found ==> f.port in Ports
  {
    Search(probes, 0)
  }

  /** The port later requests use: the found one, or the previous one when
      nothing answered (`setApiPort` is not called then). */
  function NextApiPort(apiPort: int, f: Found): (p: int)
    ensures !f.found ==> p == apiPort
  {
    if f.found then f.port else apiPort
  }

  /** The first answering candidate wins and no later one is probed; when
      none answers all three are probed and the port is kept. */
  lemma FirstAnsweringPort(probes: seq<Outcome>, apiPort: int)
    requires |probes| == |Ports|
    ensures var f := FindWorkingPort(probes);
      (f.found <==> exists j :: 0 <= j < |Ports| && Answers(probes[j]))
      && (f.found ==> f.port in Ports && Answers(probes[f.probed - 1])
                      && forall j :: 0 <= j < f.probed - 1 ==> !Answers(probes[j]))
      && (!f.found ==> f.probed == 3 && NextApiPort(apiPort, f) == apiPort)
  {
  }

  /** Only the outcomes of probes that were sent matter: changing what a
      later candidate would have answered changes nothing. */
  lemma {:induction false} LaterProbesUnseen(probes: seq<Outcome>, other: seq<Outcome>, i: nat)
    requires |probes| == |Ports| == |other| && i <= |Ports|
    requires var f := Search(probes, i);
      forall j :: i <= j < f.probed ==> other[j] == probes[j]
    ensures Search(other, i) == Search(probes, i)
    decreases |Ports| - i
  {
    if i < |Ports| && !Answers(probes[i]) {
      LaterProbesUnseen(probes, other, i + 1);
    }
  }

  const NoServer := "Could not find running Python server"

  /** The mount effect: probe the candidates, and show a message when no
      server answered; otherwise the status stays as it was. */
  function DiscoveryStatus(status: string, probes: seq<Outcome>): (s: string)
    requires |probes| == |Ports|
    ensures (forall j :: 0 <= j < |Ports| ==> !Answers(probes[j])) ==> s == NoServer
    ensures (exists j :: 0 <= j < |Ports| && Answers(probes[j])) ==> s == status
  {
    if !FindWorkingPort(probes).found then NoServer else status
  }
}
