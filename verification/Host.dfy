/** One machine of the application: the IKE daemon behind it, the user's stop request, and its datagram socket.
    Whatever the machine does not decide itself is chosen arbitrarily. */
module Host {
  import opened Core
  import SaCollector

  // What one `recvfrom` yields: a datagram of the configured peer, somebody else's, nothing in time, or an error.
  datatype Input = Datagram(text: string) | Foreign | Silence | Failure

  // One round of the four daemon and kernel queries.  States and policies are listed by their request ids.
  datatype Observed = Observed(error: Error, ikes: seq<SaCollector.Ike>, children: seq<SaCollector.Child>,
                               states: seq<nat>, policies: seq<nat>)

  // The history of a machine, as far as the properties speak of it.
  datatype Entry =
    | Load(id: string, ok: bool)
    | Unload(ok: bool)
    | Started(ok: bool)
    | Terminated(ok: bool)
    | Cleaned(id: string, verified: bool)
    | Queried(id: string, ike: string, esp: string, ok: bool)
    | Sent(text: string, quiet: bool)   // quiet: neither the connection nor an SA was there
    | Received(text: string)
    | Iteration(passed: bool, connectionLeft: bool, saLeft: bool)

  const CONNECTION: Bytes := "conn-native"
  const CHILD: Bytes := "child-native"

  /** The lists show an IKE or a CHILD of the test connection. */
  predicate Shows(o: Observed) {
    || (exists i :: 0 <= i < |o.ikes| && o.ikes[i].name == CONNECTION)
    || (exists i :: 0 <= i < |o.children| && o.children[i].name == CHILD)
  }

  class Host {
    const peerInitiates: bool   // whether the other side may bring up SAs of the loaded connection
    var present: bool           // the daemon holds the test connection
    var sa: bool                // an IKE or CHILD SA of the test connection exists
    var stopped: bool
    var patience: nat           // the user stops the program at the latest after so many checks
    var inputs: seq<Input>      // what the socket will yield
    ghost var log: seq<Entry>

    constructor (peerInitiates: bool, present: bool, sa: bool, patience: nat, inputs: seq<Input>)
      ensures log == [] && this.peerInitiates == peerInitiates && !stopped
    {
      this.peerInitiates, this.present, this.sa, this.patience, this.inputs := peerInitiates, present, sa, patience, inputs;
      stopped, log := false, [];
    }

    /** SAs go away at any time; they appear by themselves only if the other side brings them up. */
    ghost predicate Drifted(presentBefore: bool, saBefore: bool, saAfter: bool) {
      saAfter ==> saBefore || (presentBefore && peerInitiates)
    }

    method Drift()
      modifies `sa
      ensures Drifted(present, old(sa), sa)
    {
      var any: bool := *;
      sa := any && (sa || (present && peerInitiates));
    }

    method StopRequested() returns (stop: bool)
      modifies `stopped, `patience
      ensures stop == stopped && (old(stopped) ==> stopped)
      ensures !stop ==> patience < old(patience)
      ensures patience <= old(patience)
    {
      var asked: bool := *;
      if patience == 0 || asked {
        stopped := true;
      } else if !stopped {
        patience := patience - 1;
      }
      stop := stopped;
    }

    /** `AddIpsecConnection`.  A failed call may still have reached the daemon. */
    method LoadConnection(id: string) returns (error: Error)
      modifies `present, `sa, `log
      ensures log == old(log) + [Load(id, error == Ok)]
      ensures error == Ok || old(present) ==> present
      ensures Drifted(old(present), old(sa), sa)
    {
      Drift();
      error := *;
      var reached: bool := *;
      present := present || error == Ok || reached;
      log := log + [Load(id, error == Ok)];
    }

    /** `RemoveIpsecConnection`.  A failed call may still have reached the daemon. */
    method UnloadConnection() returns (error: Error)
      modifies `present, `sa, `log
      ensures log == old(log) + [Unload(error == Ok)]
      ensures error == Ok || error == ConnectionNotFound || !old(present) ==> !present
      ensures Drifted(old(present), old(sa), sa)
    {
      Drift();
      error := *;
      var reached: bool := *;
      present := present && error != Ok && error != ConnectionNotFound && !reached;
      log := log + [Unload(error == Ok)];
    }

    /** `GetIpsecConnections` and the search for the test connection. */
    method ConnectionAbsent() returns (error: Error, removed: bool)
      modifies `sa
      ensures error == Ok ==> removed == !present
      ensures error != Ok ==> removed
      ensures Drifted(present, old(sa), sa)
    {
      Drift();
      error := *;
      removed := error != Ok || !present;
    }

    /** The queries of one round tell the truth. */
    method Query() returns (o: Observed)
      modifies `sa
      ensures o.error == Ok ==> (Shows(o) <==> sa)
      ensures Drifted(present, old(sa), sa)
    {
      Drift();
      o := *;
      if o.error == Ok && sa && !Shows(o) {
        var ike := SaCollector.NewIke(CONNECTION);
        o := o.(ikes := [ike] + o.ikes);
        assert o.ikes[0].name == CONNECTION;
      } else if o.error == Ok && !sa {
        o := o.(ikes := [], children := []);
      }
    }

    /** `TerminateIpsecIke`. */
    method Terminate() returns (error: Error)
      modifies `sa, `log
      ensures log == old(log) + [Terminated(error == Ok)]
      ensures Drifted(present, old(sa), sa)
    {
      Drift();
      error := *;
      log := log + [Terminated(error == Ok)];
    }

    /** `StartNativeAppConnection`. */
    method Start() returns (error: Error)
      modifies `sa, `log
      ensures log == old(log) + [Started(error == Ok)]
      ensures !present ==> (sa ==> old(sa))
    {
      Drift();
      error := *;
      var up: bool := *;
      sa := sa || (present && up);
      log := log + [Started(error == Ok)];
    }

    /** `sendto`.  A call that reports an error may still have sent the datagram. */
    method Send(text: string) returns (error: Error)
      modifies `log
      ensures log == old(log) + [Sent(text, !present && !sa)]
      ensures error == Ok || error == Internal
    {
      var works: bool := *;
      error := if works then Ok else Internal;
      log := log + [Sent(text, !present && !sa)];
    }

    /** `recvfrom`.  When nothing is left to come, the user stops the program. */
    method Receive() returns (input: Input)
      modifies `inputs, `log, `stopped
      ensures old(stopped) ==> stopped
      ensures input.Datagram? ==> log == old(log) + [Received(input.text)]
      ensures !input.Datagram? ==> log == old(log)
      ensures |inputs| < |old(inputs)| || (stopped && inputs == old(inputs))
    {
      if inputs == [] {
        stopped := true;
        input := Silence;
      } else {
        input := inputs[0];
        inputs := inputs[1..];
        if input.Datagram? {
          log := log + [Received(input.text)];
        }
      }
    }
  }
}
