/**
 * The monitored objects: a service, as the client prints it on one line, and a host,
 * which keeps the services attached to it in a dictionary keyed by service name.
 */
module Monitor {
  import opened PyStr

  /** The attributes of a service that its one-line listing shows, as already-decoded text.
      `currentState` is the label `status_to_s` gave the state code. */
  datatype Service = Service(
    host: string,
    name: string,
    pluginOutput: string,
    currentState: string,
    problemHasBeenAcknowledged: string,
    notificationsEnabled: string)

  const HostWidth: nat := 25
  const NameWidth: nat := 35
  const OutputWidth: nat := 35

  /** The six columns of `Service.pp`: host, name, plugin output, state, acknowledgement
      flag and notification flag. */
  function Columns(svc: Service): (cols: seq<string>)
    ensures |cols| == 6
    ensures |cols[0]| == Max(|svc.host|, HostWidth) && cols[0][..|svc.host|] == svc.host
    ensures forall i :: |svc.host| <= i < |cols[0]| ==> cols[0][i] == ' '
    ensures |cols[1]| == NameWidth && cols[1][..Min(|svc.name|, NameWidth)] == Prefix(svc.name, NameWidth)
    ensures forall i :: |svc.name| <= i < NameWidth ==> cols[1][i] == ' '
    ensures |cols[2]| == OutputWidth && cols[2][..Min(|svc.pluginOutput|, OutputWidth)] == Prefix(svc.pluginOutput, OutputWidth)
    ensures forall i :: |svc.pluginOutput| <= i < OutputWidth ==> cols[2][i] == ' '
    ensures cols[3] == svc.currentState
    ensures cols[4] == "ACK" <==> svc.problemHasBeenAcknowledged == "1"
    ensures cols[4] == "ACK" || cols[4] == " "
    ensures cols[5] == "MUTED" <==> svc.notificationsEnabled != "1"
    ensures cols[5] == "MUTED" || cols[5] == " "
  {
    [ LJust(svc.host, HostWidth),
      LJust(Prefix(svc.name, NameWidth), NameWidth),
      LJust(Prefix(svc.pluginOutput, OutputWidth), OutputWidth),
      svc.currentState,
      if svc.problemHasBeenAcknowledged == "1" then "ACK" else " ",
      if svc.notificationsEnabled == "1" then " " else "MUTED" ]
  }

  /** The line `Service.pp` prints: the columns separated by tabs. */
  function PpLine(svc: Service): string
  {
    JoinWith(Columns(svc), '\t')
  }

  /** When the service's own texts hold no tab, splitting the printed line at tabs gives
      back exactly the six columns. */
  lemma PpLineColumns(svc: Service)
    requires HasNoTab(svc.host) && HasNoTab(svc.name) && HasNoTab(svc.pluginOutput)
    requires HasNoTab(svc.currentState)
    ensures SplitOn(PpLine(svc), '\t') == Columns(svc)
  {
    var cols := Columns(svc);
    forall j | 0 <= j < |cols|
      ensures HasNoTab(cols[j])
    {
      if j == 1 {
        assert forall i :: 0 <= i < |Prefix(svc.name, NameWidth)| ==> Prefix(svc.name, NameWidth)[i] == svc.name[i];
      } else if j == 2 {
        assert forall i :: 0 <= i < |Prefix(svc.pluginOutput, OutputWidth)| ==>
                 Prefix(svc.pluginOutput, OutputWidth)[i] == svc.pluginOutput[i];
      }
    }
    SplitOfJoin(cols, '\t');
  }

  /** A host and the services attached to it. */
  class Host {
    var name: string
    var services: map<string, Service>

    constructor (name: string)
      ensures this.name == name && services == map[]
    {
      this.name := name;
      services := map[];
    }

    /** `attach_service`: file `svc` under `key`, replacing what was there. */
    method AttachService(key: string, svc: Service)
      modifies this
      ensures name == old(name)
      ensures services.Keys == old(services).Keys + {key}
      ensures services[key] == svc
      ensures forall k :: k in old(services) && k != key ==> services[k] == old(services)[k]
    {
      services := services[key := svc];
    }
  }
}
