/**
 * The settings dialog: it validates what the user typed, stores it in the
 * shared `Settings`, and starts or stops the local relay so that it matches
 * the chosen server mode. Dialogs are left out; the relay's start and
 * shutdown are recorded as the calls the dialog makes.
 */
module SettingsDialog {
  import opened JavaText
  import opened Config

  /**
   * How a press of "save" ends. `StartRejected`: the settings were stored,
   * but restarting the relay threw because the dialog had already shut its
   * relay's thread pool down.
   */
  datatype SaveOutcome = PortNotNumber | EmptyHost | PortOutOfRange | Saved | StartRejected

  /** A call the dialog makes on its relay. */
  datatype ServerCall = StartServer(port: int) | Shutdown

  /** What `saveSettings` accepts: the trimmed host and the parsed port, or why it refuses. */
  datatype Validation = Rejected(reason: SaveOutcome) | Accepted(host: string, port: int)

  /** A TCP port number the dialog accepts. */
  predicate IsPort(p: int) {
    0 < p <= 65535
  }

  /** The checks of `saveSettings`, in their order: the port parses, the host is non-blank, the port is in range. */
  function Validate(hostText: string, portText: string): (v: Validation)
    ensures v.Accepted? <==>
              && ParseInt(Trim(portText)).Some?
              && Trim(hostText) != ""
              && IsPort(ParseInt(Trim(portText)).value)
    ensures v.Accepted? ==> v.host == Trim(hostText) && ParseInt(Trim(portText)) == Some(v.port)
    ensures ParseInt(Trim(portText)).None? ==> v == Rejected(PortNotNumber)
    ensures ParseInt(Trim(portText)).Some? && Trim(hostText) == "" ==> v == Rejected(EmptyHost)
    ensures v.Rejected? ==> v.reason != Saved && v.reason != StartRejected
  {
    var host := Trim(hostText);
    var port := ParseInt(Trim(portText));
    if port.None? then Rejected(PortNotNumber)
    else if host == "" then Rejected(EmptyHost)
    else if port.value <= 0 || port.value > 65535 then Rejected(PortOutOfRange)
    else Accepted(host, port.value)
  }

  /** The relay calls that bring a relay in state `running` to the requested mode: none when they agree. */
  function Reconcile(running: bool, serverMode: bool, port: int): (calls: seq<ServerCall>)
    ensures |calls| <= 1
    ensures calls == [] <==> running == serverMode
    ensures calls != [] && serverMode ==> calls == [StartServer(port)]
    ensures calls != [] && !serverMode ==> calls == [Shutdown]
  {
    if serverMode == running then []
    else if serverMode then [StartServer(port)]
    else [Shutdown]
  }

  /**
   * What the dialog knows of its relay: whether it believes it runs, and
   * whether the relay's thread pool has been shut down. The pool is created
   * once with the relay and `shutdown` ends it for good, so a later start
   * throws before the dialog records the relay as running.
   */
  datatype RelayState = RelayState(running: bool, poolDown: bool)

  /** A shut-down pool runs nothing. */
  predicate Coherent(r: RelayState) {
    r.poolDown ==> !r.running
  }

  /** The effect of one relay call on what the dialog knows. */
  function Step(r: RelayState, c: ServerCall): (r': RelayState)
    requires Coherent(r)
    ensures Coherent(r')
  {
    match c
    case StartServer(_) => if r.poolDown then r else RelayState(true, false)
    case Shutdown => RelayState(false, true)
  }

  /** The effect of a sequence of relay calls, oldest first. */
  function After(r: RelayState, calls: seq<ServerCall>): (r': RelayState)
    requires Coherent(r)
    ensures Coherent(r')
    decreases |calls|
  {
    if calls == [] then r else Step(After(r, calls[..|calls| - 1]), calls[|calls| - 1])
  }

  /** A single call is one step. */
  lemma AfterOne(r: RelayState, c: ServerCall)
    requires Coherent(r)
    ensures After(r, [c]) == Step(r, c)
  {
    assert [c][..0] == [];
  }

  /**
   * Reconciling leaves the relay in the requested mode, unless the mode asks
   * for a start and the pool is already shut down: then it stays stopped.
   */
  lemma ReconcileReachesMode(r: RelayState, serverMode: bool, port: int)
    requires Coherent(r)
    ensures After(r, Reconcile(r.running, serverMode, port)).running == (serverMode && !r.poolDown)
    ensures After(r, Reconcile(r.running, serverMode, port)).poolDown == (r.poolDown || (r.running && !serverMode))
  {
    var calls := Reconcile(r.running, serverMode, port);
    if calls != [] {
      AfterOne(r, calls[0]);
    }
  }

  /**
   * Saving the same mode twice makes no relay call the second time, except
   * that a start refused by a shut-down pool is asked for, and refused, again.
   */
  lemma ReconcileIdempotent(r: RelayState, serverMode: bool, port: int)
    requires Coherent(r)
    ensures var r' := After(r, Reconcile(r.running, serverMode, port));
            Reconcile(r'.running, serverMode, port) == if r.poolDown && serverMode then [StartServer(port)] else []
  {
    ReconcileReachesMode(r, serverMode, port);
  }

  class SettingsView {
    /** The shared `Settings.getInstance()` object. */
    const settings: Settings
    var isServerRunning: bool
    /** Whether `shutdown` has ended the dialog's relay's thread pool. */
    var poolShutDown: bool
    /** Every start and shutdown the dialog has asked its relay for, oldest first. */
    var serverCalls: seq<ServerCall>

    ghost predicate Valid()
      reads this, settings
    {
      settings.Valid() && Coherent(RelayState(isServerRunning, poolShutDown))
    }

    /**
     * The dialog makes a relay of its own, with a fresh pool, and assumes it
     * runs exactly when the saved mode says so.
     */
    constructor (shared: Settings)
      requires shared.Valid()
      ensures settings == shared && Valid()
      ensures isServerRunning == shared.startServerMode && !poolShutDown && serverCalls == []
    {
      settings := shared;
      isServerRunning := shared.startServerMode;
      poolShutDown := false;
      serverCalls := [];
    }

    /**
     * `saveSettings`: a refused input stores nothing and leaves the relay
     * alone; an accepted one sets host, port and mode, saves, and then
     * starts or stops the relay only if its state differs from the mode.
     * A start after the pool was shut down throws out of the method, which
     * only catches the number format error: the settings stay saved and the
     * relay stays stopped.
     */
    method SaveSettings(hostText: string, portText: string, serverMode: bool, writeFails: bool)
      returns (outcome: SaveOutcome, written: Option<Properties>)
      requires Valid()
      modifies this, settings
      ensures Valid()
      ensures var v := Validate(hostText, portText);
              && (v.Rejected? ==> outcome == v.reason && written == None)
              && (v.Accepted? ==> outcome == if serverMode && old(poolShutDown) then StartRejected else Saved)
      ensures Validate(hostText, portText).Rejected? ==>
                && settings.Current() == old(settings.Current())
                && settings.properties == old(settings.properties)
                && isServerRunning == old(isServerRunning) && poolShutDown == old(poolShutDown)
                && serverCalls == old(serverCalls)
      ensures Validate(hostText, portText).Accepted? ==>
                var v := Validate(hostText, portText);
                && settings.Current() == ServerConfig(v.host, v.port, serverMode)
                && settings.properties == SaveProps(old(settings.properties), settings.Current())
                && written == (if writeFails then None else Some(settings.properties))
                && serverCalls == old(serverCalls) + Reconcile(old(isServerRunning), serverMode, v.port)
                && RelayState(isServerRunning, poolShutDown)
                   == After(RelayState(old(isServerRunning), old(poolShutDown)), Reconcile(old(isServerRunning), serverMode, v.port))
                && isServerRunning == (serverMode && !old(poolShutDown))
    {
      var v := Validate(hostText, portText);
      if v.Rejected? {
        return v.reason, None;
      }
      settings.SetServerHost(v.host);
      settings.SetServerPort(v.port);
      settings.SetStartServerMode(serverMode);
      written := settings.SaveSettings(writeFails);
      var rejected := ApplyMode(serverMode, v.port);
      outcome := if rejected then StartRejected else Saved;
    }

    /**
     * The end of `saveSettings`: start or stop the relay only when it is not
     * already in the chosen mode; `rejected` when the start threw.
     */
    method ApplyMode(serverMode: bool, port: int) returns (rejected: bool)
      requires Coherent(RelayState(isServerRunning, poolShutDown))
      modifies this
      ensures rejected <==> serverMode && old(poolShutDown)
      ensures serverCalls == old(serverCalls) + Reconcile(old(isServerRunning), serverMode, port)
      ensures RelayState(isServerRunning, poolShutDown)
              == After(RelayState(old(isServerRunning), old(poolShutDown)), Reconcile(old(isServerRunning), serverMode, port))
      ensures isServerRunning == (serverMode && !old(poolShutDown))
    {
      ReconcileReachesMode(RelayState(isServerRunning, poolShutDown), serverMode, port);
      rejected := false;
      if serverMode != isServerRunning {
        if serverMode {
          rejected := Call(StartServer(port));
        } else {
          rejected := Call(Shutdown);
        }
      }
    }

    /** One call on the dialog's relay; `rejected` when it is a start the shut-down pool refuses. */
    method Call(c: ServerCall) returns (rejected: bool)
      requires Coherent(RelayState(isServerRunning, poolShutDown))
      modifies this
      ensures rejected <==> c.StartServer? && old(poolShutDown)
      ensures serverCalls == old(serverCalls) + [c]
      ensures RelayState(isServerRunning, poolShutDown) == Step(RelayState(old(isServerRunning), old(poolShutDown)), c)
      ensures RelayState(isServerRunning, poolShutDown) == After(RelayState(old(isServerRunning), old(poolShutDown)), [c])
    {
      AfterOne(RelayState(isServerRunning, poolShutDown), c);
      serverCalls := serverCalls + [c];
      rejected := false;
      match c
      case StartServer(_) =>
        if poolShutDown {
          rejected := true;
        } else {
          isServerRunning := true;
        }
      case Shutdown =>
        isServerRunning := false;
        poolShutDown := true;
    }

    /**
     * `toggleServer`: a stopped relay is started on the typed port and a
     * running one is shut down, flipping `isServerRunning`. A non-numeric
     * port aborts before any call (the exception is not caught); a start
     * after the pool was shut down is asked for and throws, so the relay
     * stays stopped. `toggled` tells whether the state flipped. The port is
     * not range-checked here.
     */
    method ToggleServer(portText: string) returns (toggled: bool)
      requires Valid()
      modifies this
      ensures Valid()
      ensures toggled <==> old(isServerRunning) || (ParseInt(Trim(portText)).Some? && !old(poolShutDown))
      ensures toggled ==> isServerRunning == !old(isServerRunning)
      ensures !toggled ==> isServerRunning == old(isServerRunning) && poolShutDown == old(poolShutDown)
      ensures old(isServerRunning) ==> serverCalls == old(serverCalls) + [Shutdown] && poolShutDown
      ensures !old(isServerRunning) && ParseInt(Trim(portText)).Some? ==>
                serverCalls == old(serverCalls) + [StartServer(ParseInt(Trim(portText)).value)]
      ensures !old(isServerRunning) && ParseInt(Trim(portText)).None? ==> serverCalls == old(serverCalls)
      ensures RelayState(isServerRunning, poolShutDown)
              == After(RelayState(old(isServerRunning), old(poolShutDown)), serverCalls[|old(serverCalls)|..])
    {
      ghost var calls0 := serverCalls;
      if !isServerRunning {
        var port := ParseInt(Trim(portText));
        if port.None? {
          assert serverCalls[|calls0|..] == [];
          return false;
        }
        var rejected := Call(StartServer(port.value));
        toggled := !rejected;
      } else {
        var _ := Call(Shutdown);
        toggled := true;
      }
      assert serverCalls[|calls0|..] == [serverCalls[|calls0|]];
    }
  }
}
