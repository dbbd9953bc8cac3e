/** A deployment as a transaction: ordered commands, a trap that rolls back when any of them
    fails, and a last resort when the rollback fails as well. */
module Deploy {
  import opened Models

  // ---------- the machine ----------

  datatype Service = Collector | Web

  /** What the scripts change. A database is the list of what was written to it; `None` is no file. */
  datatype Host = Host(
    current: Option<string>,
    previousRelease: Option<string>,
    enabled: set<Service>,
    active: set<Service>,
    database: Option<seq<int>>,
    releases: set<string>)

  predicate IsRevision(s: string) {
    |s| == 40 && forall i | 0 <= i < |s| :: '0' <= s[i] <= '9' || 'a' <= s[i] <= 'f'
  }

  /** A full lower-case hexadecimal commit. */
  lemma RevisionIs(s: string)
    ensures IsRevision(s) <==> |s| == 40 && forall c | c in s :: c in "0123456789abcdef"
  {
    var digits := "0123456789abcdef";
    forall c: char ensures c in digits <==> '0' <= c <= '9' || 'a' <= c <= 'f' {
      if '0' <= c <= '9' {
        assert digits[c as int - '0' as int] == c;
      } else if 'a' <= c <= 'f' {
        assert digits[c as int - 'a' as int + 10] == c;
      }
    }
    assert IsRevision(s) ==> forall c | c in s :: '0' <= c <= '9' || 'a' <= c <= 'f';
    assert forall i | 0 <= i < |s| :: s[i] in s;
  }

  /** The link names a revision. */
  predicate NamesRevision(h: Host) {
    h.current.Some? && IsRevision(h.current.value)
  }

  // ---------- commands ----------

  /** A command of a script. `Check` stands for any command that changes nothing that is modelled. */
  datatype Command = Skip
                   | Check
                   | Stage(release: string)
                   | SetPrevious(previous: Option<string>)
                   | Link(target: string)
                   | Unlink
                   | Enable(services: set<Service>)
                   | Disable(services: set<Service>)
                   | Stop
                   | Start(service: Service)
                   | RequireActive(service: Service)
                   | ReplaceDatabase(content: seq<int>)
                   | DisableNow

  /** How one command went: whether it took effect, its exit status, and what a started collector
      wrote. A command that exits with success has taken effect, except that a started service
      may be gone again; a failing command may have taken effect or not. A command on several
      services that fails may have reached any of them: `reached` with its enablement, `stopped`
      with its stop. A start may leave any service down, whatever its status: those `reached` run
      after it, and it took effect when a collector ran, however briefly. */
  datatype Fate = Fate(effect: bool, success: bool, written: seq<int>, reached: set<Service>, stopped: set<Service>)

  const EVERY_SERVICE: set<Service> := {Collector, Web}

  datatype Ran = Ran(host: Host, success: bool)

  /** Those of the services a command got to. */
  function Reached(services: set<Service>, fate: Fate): set<Service> {
    if fate.success then services else services * fate.reached
  }

  function Stopped(h: Host, fate: Fate): Host {
    h.(active := if fate.success then {} else h.active - fate.stopped)
  }

  /** What starting a service asks for: the unit of the dashboard requires the collector. */
  function WithRequired(service: Service): set<Service> {
    match service
    case Collector => {Collector}
    case Web => {Collector, Web}
  }

  function Content(h: Host): seq<int> {
    if h.database.Some? then h.database.value else []
  }

  /** Starting a service, or restarting it and what requires it. A collector that ran has written to
      its database, and created it first if there was none. */
  function Started(h: Host, service: Service, fate: Fate): Host {
    h.(active := (h.active + WithRequired(service)) * fate.reached,
       database := if fate.effect then Some(Content(h) + fate.written) else h.database)
  }

  predicate Worked(fate: Fate) {
    fate.effect || fate.success
  }

  /** What one command leaves, and its status. */
  function Execute(h: Host, c: Command, fate: Fate): Ran {
    match c
    case Skip => Ran(h, true)
    case Check => Ran(h, fate.success)
    case RequireActive(service) => Ran(h, service in h.active)
    case Start(service) => Ran(Started(h, service, fate), fate.success)
    case Stop => Ran(Stopped(h, fate), fate.success)
    case Enable(services) => Ran(h.(enabled := h.enabled + Reached(services, fate)), fate.success)
    case Disable(services) => Ran(h.(enabled := h.enabled - Reached(services, fate)), fate.success)
    case DisableNow => Ran(Stopped(h, fate).(enabled := h.enabled - Reached(EVERY_SERVICE, fate)), fate.success)
    case Stage(release) => Ran(if Worked(fate) then h.(releases := h.releases + {release}) else h, fate.success)
    case SetPrevious(previous) => Ran(if Worked(fate) then h.(previousRelease := previous) else h, fate.success)
    case Link(target) => Ran(if Worked(fate) then h.(current := Some(target)) else h, fate.success)
    case Unlink => Ran(if Worked(fate) then h.(current := None) else h, fate.success)
    case ReplaceDatabase(content) => Ran(if Worked(fate) then h.(database := Some(content)) else h, fate.success)
  }

  /** set -e: a script stops at its first failing command. */
  function RunScript(h: Host, script: seq<Command>, fates: seq<Fate>): Ran
    requires |fates| == |script|
    decreases |script|
  {
    if script == [] then
      Ran(h, true)
    else
      var first := Execute(h, script[0], fates[0]);
      if first.success then RunScript(first.host, script[1..], fates[1..]) else first
  }

  // ---------- the scripts ----------

  /** What backup.sh captures before a deployment. */
  datatype Backup = Backup(previousRelease: Option<string>, enabled: set<Service>, active: set<Service>,
      database: Option<seq<int>>)

  function Capture(h: Host): Backup {
    Backup(h.previousRelease, h.enabled, h.active,
           if h.database.Some? && h.database.value != [] then h.database else None)
  }

  /** The release that is replaced is remembered. */
  function Pointer(captured: Host, revision: string): Command {
    if NamesRevision(captured) && captured.current.value != revision then SetPrevious(captured.current) else Skip
  }

  /** install.sh, verify.sh and the continuity check of the proxy. */
  function DeployScript(captured: Host, revision: string): seq<Command> {
    [Check, Stage(revision), Check, Pointer(captured, revision),
     Link(revision), Check, Enable(EVERY_SERVICE), Start(Collector), Check, Start(Web),
     RequireActive(Collector), RequireActive(Web), Check, Check]
  }

  function EnableOrDisable(service: Service, captured: set<Service>): Command {
    if service in captured then Enable({service}) else Disable({service})
  }

  function IfCaptured(service: Service, captured: set<Service>, command: Command): Command {
    if service in captured then command else Skip
  }

  function StopAndRestore(backup: Backup): seq<Command> {
    [Check, Check, Stop, if backup.database.Some? then ReplaceDatabase(backup.database.value) else Skip]
  }

  function Relink(backup: Backup, previous: string): seq<Command> {
    [Link(previous), Check, SetPrevious(backup.previousRelease),
     EnableOrDisable(Collector, backup.enabled), EnableOrDisable(Web, backup.enabled)]
  }

  function RestartCaptured(backup: Backup): seq<Command> {
    [IfCaptured(Collector, backup.active, Start(Collector)), IfCaptured(Web, backup.active, Start(Web)),
     IfCaptured(Collector, backup.active, RequireActive(Collector)), IfCaptured(Web, backup.active, RequireActive(Web))]
  }

  /** rollback.sh with the captured state: validate and prepare, stop, restore, relink, restore the
      pointer and the enablement, restart, check. */
  function RollbackScript(backup: Backup, previous: string): seq<Command> {
    StopAndRestore(backup) + (Relink(backup, previous) + RestartCaptured(backup))
  }

  /** backup.sh refuses a pointer that is no revision, and then nothing is done. */
  predicate CanBackUp(h: Host) {
    h.previousRelease.Some? ==> IsRevision(h.previousRelease.value)
  }

  /** There is a release to go back to. */
  predicate HasPrevious(captured: Host, h: Host) {
    NamesRevision(captured) && captured.current.value in h.releases
  }

  datatype Fates = Fates(deploy: seq<Fate>, rollback: seq<Fate>, lastResort: Fate, unlink: Fate)

  predicate ProperFates(fates: Fates) {
    |fates.deploy| == 14 && |fates.rollback| == 13
  }

  /** The exit trap. */
  function Trap(captured: Host, h: Host, fates: Fates): Host
    requires ProperFates(fates)
  {
    if HasPrevious(captured, h) then
      var rolledBack := RunScript(h, RollbackScript(Capture(captured), captured.current.value), fates.rollback);
      if rolledBack.success then rolledBack.host else Execute(rolledBack.host, DisableNow, fates.lastResort).host
    else
      Execute(Execute(h, DisableNow, fates.lastResort).host, Unlink, fates.unlink).host
  }

  function Deployment(captured: Host, revision: string, fates: Fates): Ran
    requires ProperFates(fates)
  {
    if CanBackUp(captured) then
      var deployed := RunScript(captured, DeployScript(captured, revision), fates.deploy);
      if deployed.success then deployed else Ran(Trap(captured, deployed.host, fates), false)
    else
      Ran(captured, false)
  }

  // ---------- the scripts as they run ----------

  class Machine {
    var host: Host

    constructor (host: Host)
      ensures this.host == host
    {
      this.host := host;
    }

    method Command(c: Command, fate: Fate) returns (success: bool)
      modifies this
      ensures Ran(host, success) == Execute(old(host), c, fate)
    {
      var ran := Execute(host, c, fate);
      host, success := ran.host, ran.success;
    }

    method Script(script: seq<Command>, fates: seq<Fate>) returns (success: bool)
      requires |fates| == |script|
      modifies this
      ensures Ran(host, success) == RunScript(old(host), script, fates)
    {
      for i := 0 to |script|
        invariant RunScript(old(host), script, fates) == RunScript(host, script[i..], fates[i..])
      {
        assert script[i..][1..] == script[i + 1..] && fates[i..][1..] == fates[i + 1..];
        var ok := Command(script[i], fates[i]);
        if !ok {
          return false;
        }
      }
      success := true;
    }

    /** transaction.sh */
    method Deploy(revision: string, fates: Fates) returns (success: bool)
      requires ProperFates(fates)
      modifies this
      ensures Ran(host, success) == Deployment(old(host), revision, fates)
    {
      var captured := host;
      if !CanBackUp(captured) {
        return false;
      }
      success := Script(DeployScript(captured, revision), fates.deploy);
      if !success {
        if HasPrevious(captured, host) {
          var restored := Script(RollbackScript(Capture(captured), captured.current.value), fates.rollback);
          if !restored {
            var disabled := Command(DisableNow, fates.lastResort);
          }
        } else {
          var disabled := Command(DisableNow, fates.lastResort);
          var unlinked := Command(Unlink, fates.unlink);
        }
      }
    }
  }

  // ---------- what a failed deployment leaves behind ----------

  predicate HasData(h: Host) {
    h.database.Some? && h.database.value != []
  }

  /** The machine is as captured; a database that held anything holds what it held, plus what the old
      collector wrote after it was started again. */
  predicate Restored(captured: Host, h: Host) {
    && h.current == captured.current
    && h.previousRelease == captured.previousRelease
    && h.enabled == captured.enabled
    && h.active == captured.active
    && (HasData(captured) ==>
          && h.database.Some? && captured.database.value <= h.database.value
          && (Collector !in captured.active ==> h.database == captured.database))
  }

  /** The dashboard runs and the collector it requires does not, which has exited by itself. */
  predicate WebAlone(active: set<Service>) {
    Web in active && Collector !in active
  }

  /** The collector started with the dashboard was gone again and has left the captured database alone. */
  predicate LeftNoTrace(captured: Host, start: Fate) {
    && Collector !in start.reached
    && (HasData(captured) && start.effect ==> start.written == [])
  }

  predicate Offline(h: Host) {
    h.enabled == {} && h.active == {}
  }

  /** The services were disabled and stopped, all of them, whatever the exit status. */
  predicate TookDown(fate: Fate) {
    fate.success || (fate.reached == fate.stopped == EVERY_SERVICE)
  }

  lemma ScriptGoesOn(h: Host, script: seq<Command>, fates: seq<Fate>) returns (next: Host)
    requires |fates| == |script| && script != [] && RunScript(h, script, fates).success
    ensures Execute(h, script[0], fates[0]) == Ran(next, true)
    ensures RunScript(h, script, fates) == RunScript(next, script[1..], fates[1..])
  {
    next := Execute(h, script[0], fates[0]).host;
  }

  lemma {:induction false} ScriptConcat(h: Host, a: seq<Command>, b: seq<Command>, fates: seq<Fate>)
    requires |fates| == |a| + |b|
    ensures RunScript(h, a + b, fates) ==
            if RunScript(h, a, fates[..|a|]).success then RunScript(RunScript(h, a, fates[..|a|]).host, b, fates[|a|..])
            else RunScript(h, a, fates[..|a|])
    decreases |a|
  {
    if a == [] {
      assert a + b == b && fates[0..] == fates;
    } else {
      var first := Execute(h, a[0], fates[0]);
      assert (a + b)[1..] == a[1..] + b && (a + b)[0] == a[0];
      assert fates[..|a|][1..] == fates[1..][..|a| - 1] && fates[|a|..] == fates[1..][|a| - 1..];
      if first.success {
        ScriptConcat(first.host, a[1..], b, fates[1..]);
      }
    }
  }

  lemma StoppedAndRestored(h: Host, backup: Backup, fates: seq<Fate>)
    requires |fates| == 4 && RunScript(h, StopAndRestore(backup), fates).success
    ensures var after := RunScript(h, StopAndRestore(backup), fates).host;
            after.active == {} && (backup.database.Some? ==> after.database == backup.database)
  {
    var script := StopAndRestore(backup);
    var h1 := ScriptGoesOn(h, script, fates);
    var h2 := ScriptGoesOn(h1, script[1..], fates[1..]);
    assert script[1..][1..] == script[2..] && fates[1..][1..] == fates[2..];
    var h3 := ScriptGoesOn(h2, script[2..], fates[2..]);
    assert script[2..][1..] == script[3..] && fates[2..][1..] == fates[3..];
    var h4 := ScriptGoesOn(h3, script[3..], fates[3..]);
    assert script[3..][1..] == [] && fates[3..][1..] == [];
  }

  /** The database is replaced while no service runs that could write to it. */
  lemma ReplacedWhileDown(h: Host, backup: Backup, previous: string, fates: seq<Fate>, i: nat)
    requires |fates| == 13 && i < 13
    requires RollbackScript(backup, previous)[i].ReplaceDatabase?
    requires RunScript(h, RollbackScript(backup, previous)[..i], fates[..i]).success
    ensures RunScript(h, RollbackScript(backup, previous)[..i], fates[..i]).host.active == {}
  {
    var script := StopAndRestore(backup)[..3];
    assert i == 3 && RollbackScript(backup, previous)[..3] == script;
    var h1 := ScriptGoesOn(h, script, fates[..3]);
    var h2 := ScriptGoesOn(h1, script[1..], fates[..3][1..]);
    assert script[1..][1..] == script[2..] && fates[..3][1..][1..] == fates[..3][2..];
    var h3 := ScriptGoesOn(h2, script[2..], fates[..3][2..]);
    assert script[2..][1..] == [] && fates[..3][2..][1..] == [];
  }

  lemma Relinked(h: Host, backup: Backup, previous: string, fates: seq<Fate>)
    requires |fates| == 5 && RunScript(h, Relink(backup, previous), fates).success
    ensures var after := RunScript(h, Relink(backup, previous), fates).host;
            && after.current == Some(previous) && after.previousRelease == backup.previousRelease
            && after.enabled == backup.enabled && after.active == h.active && after.database == h.database
  {
    var script := Relink(backup, previous);
    var h1 := ScriptGoesOn(h, script, fates);
    var h2 := ScriptGoesOn(h1, script[1..], fates[1..]);
    assert script[1..][1..] == script[2..] && fates[1..][1..] == fates[2..];
    var h3 := ScriptGoesOn(h2, script[2..], fates[2..]);
    assert script[2..][1..] == script[3..] && fates[2..][1..] == fates[3..];
    var h4 := ScriptGoesOn(h3, script[3..], fates[3..]);
    assert script[3..][1..] == script[4..] && fates[3..][1..] == fates[4..];
    var h5 := ScriptGoesOn(h4, script[4..], fates[4..]);
    assert script[4..][1..] == [] && fates[4..][1..] == [];
    EveryService(h5.enabled, backup.enabled);
  }

  lemma EveryService(a: set<Service>, b: set<Service>)
    requires (Collector in a <==> Collector in b) && (Web in a <==> Web in b)
    ensures a == b
  {
    forall s: Service ensures s in a <==> s in b {
      match s
      case Collector =>
      case Web =>
    }
  }

  /** Restart and check: what was active is active again, and nothing else is, except a collector
      that was down and is required by the dashboard. */
  lemma Restarted(h: Host, backup: Backup, fates: seq<Fate>)
    requires |fates| == 4 && h.active == {} && RunScript(h, RestartCaptured(backup), fates).success
    ensures var after := RunScript(h, RestartCaptured(backup), fates).host;
            && after.active == (if WebAlone(backup.active) && Collector in fates[1].reached then EVERY_SERVICE
                                else backup.active)
            && after.(active := h.active, database := h.database) == h
            && (Collector !in backup.active && Web !in backup.active ==> after.database == h.database)
            && (WebAlone(backup.active) ==>
                  after.database == if fates[1].effect then Some(Content(h) + fates[1].written) else h.database)
            && (h.database.Some? ==> after.database.Some? && h.database.value <= after.database.value)
  {
    var script := RestartCaptured(backup);
    var h1 := ScriptGoesOn(h, script, fates);
    var h2 := ScriptGoesOn(h1, script[1..], fates[1..]);
    assert script[1..][1..] == script[2..] && fates[1..][1..] == fates[2..];
    var h3 := ScriptGoesOn(h2, script[2..], fates[2..]);
    assert script[2..][1..] == script[3..] && fates[2..][1..] == fates[3..];
    var h4 := ScriptGoesOn(h3, script[3..], fates[3..]);
    assert script[3..][1..] == [] && fates[3..][1..] == [];
    if WebAlone(backup.active) && Collector in fates[1].reached {
      EveryService(h4.active, EVERY_SERVICE);
    } else {
      EveryService(h4.active, backup.active);
    }
  }

  function Rollback(captured: Host, h: Host, fates: seq<Fate>): Ran
    requires |fates| == 13 && captured.current.Some?
  {
    RunScript(h, RollbackScript(Capture(captured), captured.current.value), fates)
  }

  /** The start of the dashboard in the rollback. */
  const RESTART_OF_WEB: nat := 10

  /** From whatever state the failure left, a rollback that succeeds restores link, pointer, enablement
      and the captured database, up to what a collector wrote since. All that was captured is restored
      if and only if it did not start a collector that was down. */
  lemma SuccessfulRollbackRestores(captured: Host, h: Host, fates: seq<Fate>)
    requires |fates| == 13 && captured.current.Some? && Rollback(captured, h, fates).success
    ensures var after := Rollback(captured, h, fates).host;
            && after.current == captured.current && after.previousRelease == captured.previousRelease
            && after.enabled == captured.enabled
            && after.active == (if WebAlone(captured.active) && Collector in fates[RESTART_OF_WEB].reached
                                then EVERY_SERVICE else captured.active)
            && (HasData(captured) ==> after.database.Some? && captured.database.value <= after.database.value)
    ensures Restored(captured, Rollback(captured, h, fates).host) <==>
            (WebAlone(captured.active) ==> LeftNoTrace(captured, fates[RESTART_OF_WEB]))
    ensures WebAlone(captured.active) ==> !Offline(Rollback(captured, h, fates).host)
  {
    var backup, previous := Capture(captured), captured.current.value;
    ScriptConcat(h, StopAndRestore(backup), Relink(backup, previous) + RestartCaptured(backup), fates);
    StoppedAndRestored(h, backup, fates[..4]);
    var stopped := RunScript(h, StopAndRestore(backup), fates[..4]).host;
    ScriptConcat(stopped, Relink(backup, previous), RestartCaptured(backup), fates[4..]);
    Relinked(stopped, backup, previous, fates[4..][..5]);
    var relinked := RunScript(stopped, Relink(backup, previous), fates[4..][..5]).host;
    Restarted(relinked, backup, fates[4..][5..]);
    assert fates[4..][5..][1] == fates[RESTART_OF_WEB];
    AppendsNothing(Content(relinked), fates[RESTART_OF_WEB].written);
  }

  lemma AppendsNothing(a: seq<int>, b: seq<int>)
    ensures a + b == a <==> b == []
  {
    assert |a + b| == |a| + |b|;
  }

  /** The deployment removes no release. */
  lemma {:induction false} ReleasesStay(h: Host, script: seq<Command>, fates: seq<Fate>)
    requires |fates| == |script|
    ensures h.releases <= RunScript(h, script, fates).host.releases
    decreases |script|
  {
    if script == [] {
    } else {
      var first := Execute(h, script[0], fates[0]);
      if first.success {
        ReleasesStay(first.host, script[1..], fates[1..]);
      }
    }
  }

  /** Commands that leave `current` alone. */
  predicate NoLinking(script: seq<Command>) {
    forall i | 0 <= i < |script| :: !script[i].Link? && !script[i].Unlink?
  }

  lemma {:induction false} CurrentStays(h: Host, script: seq<Command>, fates: seq<Fate>)
    requires |fates| == |script| && NoLinking(script)
    ensures RunScript(h, script, fates).host.current == h.current
    decreases |script|
  {
    if script == [] {
    } else {
      var first := Execute(h, script[0], fates[0]);
      if first.success {
        CurrentStays(first.host, script[1..], fates[1..]);
      }
    }
  }

  /** Enabling, starting and checking services changes nothing else, except that a collector writes. */
  predicate ServicesOnly(script: seq<Command>) {
    forall i | 0 <= i < |script| :: script[i].Check? || script[i].Enable? || script[i].Start?
        || script[i].RequireActive?
  }

  predicate NoEnabling(script: seq<Command>) {
    forall i | 0 <= i < |script| :: !script[i].Enable?
  }

  lemma {:induction false} RestStays(h: Host, script: seq<Command>, fates: seq<Fate>)
    requires |fates| == |script| && ServicesOnly(script)
    ensures var after := RunScript(h, script, fates).host;
            && after.current == h.current && after.previousRelease == h.previousRelease && after.releases == h.releases
            && (NoEnabling(script) ==> after.enabled == h.enabled)
    decreases |script|
  {
    if script == [] {
    } else {
      var first := Execute(h, script[0], fates[0]);
      if first.success {
        RestStays(first.host, script[1..], fates[1..]);
      }
    }
  }

  /** install.sh up to the switch, the switch, and everything after it. */
  function BeforeSwitch(captured: Host, revision: string): seq<Command> {
    [Check, Stage(revision), Check, Pointer(captured, revision)]
  }

  function AfterSwitch(): seq<Command> {
    [Check, Enable(EVERY_SERVICE), Start(Collector), Check, Start(Web),
     RequireActive(Collector), RequireActive(Web), Check, Check]
  }

  /** The pointer to the release before is written last, if at all. */
  lemma StagedAndPointed(captured: Host, revision: string, pointer: Command, fates: seq<Fate>)
    requires |fates| == 4 && (pointer.Skip? || pointer.SetPrevious?)
    requires RunScript(captured, [Check, Stage(revision), Check, pointer], fates).success
    ensures RunScript(captured, [Check, Stage(revision), Check, pointer], fates).host ==
            captured.(releases := captured.releases + {revision},
                      previousRelease := if pointer.Skip? then captured.previousRelease else pointer.previous)
  {
    var script := [Check, Stage(revision), Check, pointer];
    var h1 := ScriptGoesOn(captured, script, fates);
    var h2 := ScriptGoesOn(h1, script[1..], fates[1..]);
    assert script[1..][1..] == script[2..] && fates[1..][1..] == fates[2..];
    var h3 := ScriptGoesOn(h2, script[2..], fates[2..]);
    assert script[2..][1..] == script[3..] && fates[2..][1..] == fates[3..];
    var h4 := ScriptGoesOn(h3, script[3..], fates[3..]);
  }

  function Remembered(captured: Host, revision: string): Option<string> {
    if NamesRevision(captured) && captured.current.value != revision
    then captured.current else captured.previousRelease
  }

  lemma BeforeSwitchDone(captured: Host, revision: string, fates: seq<Fate>)
    requires |fates| == 4 && RunScript(captured, BeforeSwitch(captured, revision), fates).success
    ensures RunScript(captured, BeforeSwitch(captured, revision), fates).host ==
            captured.(releases := captured.releases + {revision}, previousRelease := Remembered(captured, revision))
  {
    hide IsRevision, RunScript;
    StagedAndPointed(captured, revision, Pointer(captured, revision), fates);
  }

  lemma DeployInParts(captured: Host, revision: string, fates: seq<Fate>)
    requires |fates| == 14
    ensures RunScript(captured, DeployScript(captured, revision), fates) ==
            var before := RunScript(captured, BeforeSwitch(captured, revision), fates[..4]);
            if !before.success then before
            else
              var switched := Execute(before.host, Link(revision), fates[4]);
              if !switched.success then switched else RunScript(switched.host, AfterSwitch(), fates[5..])
  {
    hide IsRevision;
    var rest := [Link(revision)] + AfterSwitch();
    assert DeployScript(captured, revision) == BeforeSwitch(captured, revision) + rest;
    ScriptConcat(captured, BeforeSwitch(captured, revision), rest, fates);
    assert rest[1..] == AfterSwitch() && fates[4..][1..] == fates[5..];
  }

  /** The switch is atomic and comes after staging: wherever a deployment stops, `current` is the
      captured link or the complete new release. */
  lemma CurrentNeverDangles(captured: Host, revision: string, fates: seq<Fate>)
    requires |fates| == 14
    ensures var h := RunScript(captured, DeployScript(captured, revision), fates).host;
            h.current == captured.current || (h.current == Some(revision) && revision in h.releases)
  {
    hide IsRevision;
    DeployInParts(captured, revision, fates);
    CurrentStays(captured, BeforeSwitch(captured, revision), fates[..4]);
    var before := RunScript(captured, BeforeSwitch(captured, revision), fates[..4]);
    if before.success {
      BeforeSwitchDone(captured, revision, fates[..4]);
      var switched := Execute(before.host, Link(revision), fates[4]);
      if switched.success {
        RestStays(switched.host, AfterSwitch(), fates[5..]);
      }
    }
  }

  lemma BothEnabled(h: Host, fates: seq<Fate>)
    requires |fates| == 2 && RunScript(h, [Check, Enable(EVERY_SERVICE)], fates).success
    ensures RunScript(h, [Check, Enable(EVERY_SERVICE)], fates).host.enabled == EVERY_SERVICE
  {
    var script := [Check, Enable(EVERY_SERVICE)];
    var h1 := ScriptGoesOn(h, script, fates);
    var h2 := ScriptGoesOn(h1, script[1..], fates[1..]);
    EveryService(h2.enabled, EVERY_SERVICE);
  }

  lemma BothActive(h: Host, fates: seq<Fate>)
    requires |fates| == 4 && RunScript(h, [RequireActive(Collector), RequireActive(Web), Check, Check], fates).success
    ensures RunScript(h, [RequireActive(Collector), RequireActive(Web), Check, Check], fates).host == h
    ensures h.active == EVERY_SERVICE
  {
    var script := [RequireActive(Collector), RequireActive(Web), Check, Check];
    var h1 := ScriptGoesOn(h, script, fates);
    var h2 := ScriptGoesOn(h1, script[1..], fates[1..]);
    assert script[1..][1..] == script[2..] && fates[1..][1..] == fates[2..];
    var h3 := ScriptGoesOn(h2, script[2..], fates[2..]);
    assert script[2..][1..] == script[3..] && fates[2..][1..] == fates[3..];
    var h4 := ScriptGoesOn(h3, script[3..], fates[3..]);
    EveryService(h.active, EVERY_SERVICE);
  }

  lemma AfterSwitchDone(h: Host, fates: seq<Fate>)
    requires |fates| == 9 && RunScript(h, AfterSwitch(), fates).success
    ensures RunScript(h, AfterSwitch(), fates).host.enabled == EVERY_SERVICE
    ensures RunScript(h, AfterSwitch(), fates).host.active == EVERY_SERVICE
  {
    hide RunScript;
    var enabling, starting := [Check, Enable(EVERY_SERVICE)], [Start(Collector), Check, Start(Web)];
    var checking := [RequireActive(Collector), RequireActive(Web), Check, Check];
    assert AfterSwitch() == enabling + (starting + checking);
    ScriptConcat(h, enabling, starting + checking, fates);
    BothEnabled(h, fates[..2]);
    var h1 := RunScript(h, enabling, fates[..2]).host;
    ScriptConcat(h1, starting, checking, fates[2..]);
    RestStays(h1, starting, fates[2..][..3]);
    BothActive(RunScript(h1, starting, fates[2..][..3]).host, fates[2..][3..]);
  }

  /** A deployment that succeeds runs the new release, staged and linked, with both services
      enabled and running, and remembers the release it replaced. */
  lemma SuccessfulDeployment(captured: Host, revision: string, fates: Fates)
    requires ProperFates(fates) && Deployment(captured, revision, fates).success
    ensures var h := Deployment(captured, revision, fates).host;
            && h.current == Some(revision) && revision in h.releases
            && h.enabled == EVERY_SERVICE && h.active == EVERY_SERVICE
            && h.previousRelease == Remembered(captured, revision)
  {
    hide IsRevision, Trap, RunScript, DeployScript, Remembered;
    DeployInParts(captured, revision, fates.deploy);
    BeforeSwitchDone(captured, revision, fates.deploy[..4]);
    var before := RunScript(captured, BeforeSwitch(captured, revision), fates.deploy[..4]).host;
    var switched := Execute(before, Link(revision), fates.deploy[4]).host;
    RestStays(switched, AfterSwitch(), fates.deploy[5..]);
    AfterSwitchDone(switched, fates.deploy[5..]);
  }

  /** The machine when the trap runs. */
  function AtFailure(captured: Host, revision: string, fates: Fates): Host
    requires ProperFates(fates)
  {
    RunScript(captured, DeployScript(captured, revision), fates.deploy).host
  }

  /** There was a release to go back to, and the rollback succeeded. */
  predicate RolledBack(captured: Host, failed: Host, fates: Fates)
    requires ProperFates(fates)
  {
    HasPrevious(captured, failed) && Rollback(captured, failed, fates.rollback).success
  }

  /** The captured dashboard ran alone, and starting it again brought its collector back. */
  predicate Disturbed(captured: Host, fates: Fates)
    requires ProperFates(fates)
  {
    WebAlone(captured.active) && !LeftNoTrace(captured, fates.rollback[RESTART_OF_WEB])
  }

  /** A failure at any step, of any kind: a rollback that succeeds restores the machine unless it brought
      back a collector that was down; otherwise the last resort, when it works, leaves both services
      disabled and stopped, and without a release to go back to no current release. A release that was
      there to go back to still is. Without a backup nothing is done at all. */
  lemma FailedDeployment(captured: Host, revision: string, fates: Fates)
    requires ProperFates(fates) && !Deployment(captured, revision, fates).success
    ensures CanBackUp(captured) && RolledBack(captured, AtFailure(captured, revision, fates), fates) ==>
              (Restored(captured, Deployment(captured, revision, fates).host) <==> !Disturbed(captured, fates))
    ensures CanBackUp(captured) && TookDown(fates.lastResort) ==>
              (Restored(captured, Deployment(captured, revision, fates).host)
                  || Offline(Deployment(captured, revision, fates).host) <==>
               !(RolledBack(captured, AtFailure(captured, revision, fates), fates) && Disturbed(captured, fates)))
    ensures CanBackUp(captured) && TookDown(fates.lastResort) && Worked(fates.unlink)
            && !(captured.current.Some? && IsRevision(captured.current.value)
                 && captured.current.value in AtFailure(captured, revision, fates).releases) ==>
              Offline(Deployment(captured, revision, fates).host)
                  && Deployment(captured, revision, fates).host.current == None
    ensures HasPrevious(captured, captured) ==> HasPrevious(captured, AtFailure(captured, revision, fates))
    ensures !CanBackUp(captured) ==> Deployment(captured, revision, fates).host == captured
  {
    hide RunScript, RollbackScript, Restored, TookDown, LeftNoTrace, WebAlone;
    var failed := AtFailure(captured, revision, fates);
    forall h: Host ensures TookDown(fates.lastResort) ==> Offline(Execute(h, DisableNow, fates.lastResort).host) {
      TakingDown(h, fates.lastResort);
    }
    ReleasesStay(captured, DeployScript(captured, revision), fates.deploy);
    if RolledBack(captured, failed, fates) {
      SuccessfulRollbackRestores(captured, failed, fates.rollback);
    }
  }

  lemma CapturedIsRestored(captured: Host)
    ensures Restored(captured, captured)
  {
  }

  /** From this host, every failed deployment of a revision whose last resort goes this way leaves a
      safe machine. */
  ghost predicate AlwaysSafe(captured: Host, lastResort: Fate) {
    forall revision: string, fates: Fates |
      IsRevision(revision) && ProperFates(fates) && fates.lastResort == lastResort
      && !Deployment(captured, revision, fates).success ::
      || Restored(captured, Deployment(captured, revision, fates).host)
      || Offline(Deployment(captured, revision, fates).host)
  }

  // ---------- witnesses: deployments whose verification fails ----------

  const FINE := Fate(true, true, [], EVERY_SERVICE, EVERY_SERVICE)
  const FAILING := Fate(false, false, [], {}, {})

  predicate AllFine(fates: seq<Fate>) {
    forall i | 0 <= i < |fates| :: fates[i] == FINE
  }

  /** A revision that is not the current one. */
  function AnotherRevision(h: Host): (revision: string)
    ensures IsRevision(revision) && h.current != Some(revision)
  {
    var revision := seq(40, _ => 'a');
    if h.current == Some(revision) then
      assert revision[0] != seq(40, _ => 'b')[0];
      seq(40, _ => 'b')
    else
      revision
  }

  /** Everything goes well up to the verification after the installation. */
  function FailedVerification(): seq<Fate> {
    seq(12, _ => FINE) + [FAILING, FAILING]
  }

  /** One command that goes well. */
  lemma NextCommand(h: Host, script: seq<Command>, fates: seq<Fate>, i: nat, c: Command)
    requires |fates| == |script| && i < |script| && script[i] == c && fates[i] == FINE
    requires Execute(h, c, FINE).success
    ensures RunScript(h, script[i..], fates[i..])
            == RunScript(Execute(h, c, FINE).host, script[i + 1..], fates[i + 1..])
  {
    assert script[i..][1..] == script[i + 1..] && fates[i..][1..] == fates[i + 1..];
  }

  function Linked(captured: Host, revision: string): Host {
    captured.(releases := captured.releases + {revision}, previousRelease := Remembered(captured, revision),
              current := Some(revision))
  }

  /** Both services enabled and running on it. */
  function Up(linked: Host): Host {
    linked.(enabled := EVERY_SERVICE, active := EVERY_SERVICE, database := Some(Content(linked)))
  }

  function Running(captured: Host, revision: string): Host {
    Up(Linked(captured, revision))
  }

  lemma PointerIsSet(captured: Host, staged: Host, revision: string)
    requires staged.previousRelease == captured.previousRelease
    ensures Execute(staged, Pointer(captured, revision), FINE) ==
            Ran(staged.(previousRelease := Remembered(captured, revision)), true)
  {
    hide IsRevision;
  }

  lemma {:induction false} ReleaseIsLinked(captured: Host, revision: string, script: seq<Command>, fates: seq<Fate>)
    requires 5 <= |fates| == |script| && forall i | 0 <= i < 5 :: fates[i] == FINE
    requires script[0] == Check && script[1] == Stage(revision) && script[2] == Check
    requires script[3] == Pointer(captured, revision) && script[4] == Link(revision)
    ensures RunScript(captured, script, fates) ==
            RunScript(Linked(captured, revision), script[5..], fates[5..])
  {
    hide RunScript, Pointer, Remembered;
    assert script[0..] == script && fates[0..] == fates;
    var staged := captured.(releases := captured.releases + {revision});
    var pointed := staged.(previousRelease := Remembered(captured, revision));
    NextCommand(captured, script, fates, 0, Check);
    NextCommand(captured, script, fates, 1, Stage(revision));
    NextCommand(staged, script, fates, 2, Check);
    PointerIsSet(captured, staged, revision);
    NextCommand(staged, script, fates, 3, Pointer(captured, revision));
    NextCommand(pointed, script, fates, 4, Link(revision));
  }

  lemma {:induction false} ServicesAreRunning(linked: Host, script: seq<Command>, fates: seq<Fate>)
    requires 12 <= |fates| == |script| && forall i | 5 <= i < 12 :: fates[i] == FINE
    requires script[5] == Check && script[6] == Enable(EVERY_SERVICE) && script[7] == Start(Collector)
    requires script[8] == Check && script[9] == Start(Web)
    requires script[10] == RequireActive(Collector) && script[11] == RequireActive(Web)
    ensures RunScript(linked, script[5..], fates[5..]) == RunScript(Up(linked), script[12..], fates[12..])
  {
    hide RunScript;
    var enabled := linked.(enabled := EVERY_SERVICE);
    var half := Started(enabled, Collector, FINE);
    var running := Up(linked);
    NextCommand(linked, script, fates, 5, Check);
    NextCommand(linked, script, fates, 6, Enable(EVERY_SERVICE));
    EveryService(linked.enabled + EVERY_SERVICE, EVERY_SERVICE);
    NextCommand(enabled, script, fates, 7, Start(Collector));
    NextCommand(half, script, fates, 8, Check);
    NextCommand(half, script, fates, 9, Start(Web));
    EveryService((half.active + EVERY_SERVICE) * EVERY_SERVICE, EVERY_SERVICE);
    assert Content(linked) + FINE.written == Content(linked);
    assert Started(half, Web, FINE) == running;
    NextCommand(running, script, fates, 10, RequireActive(Collector));
    NextCommand(running, script, fates, 11, RequireActive(Web));
  }

  lemma FailsAtOnce(h: Host, script: seq<Command>, fates: seq<Fate>)
    requires |fates| == |script| && script != [] && script[0] == Check && fates[0] == FAILING
    ensures RunScript(h, script, fates) == Ran(h, false)
  {
  }

  /** The verification after the installation fails. */
  lemma VerificationFails(captured: Host, revision: string, script: seq<Command>, fates: seq<Fate>)
    requires script == DeployScript(captured, revision) && fates == FailedVerification()
    ensures RunScript(captured, script, fates) == Ran(Running(captured, revision), false)
  {
    hide RunScript, Pointer, Remembered;
    ReleaseIsLinked(captured, revision, script, fates);
    ServicesAreRunning(Linked(captured, revision), script, fates);
    FailsAtOnce(Running(captured, revision), script[12..], fates[12..]);
  }

  /** What the last resort does to running services. */
  lemma TakingDown(h: Host, fate: Fate)
    ensures TookDown(fate) ==> Offline(Execute(h, DisableNow, fate).host)
    ensures h.enabled == h.active == EVERY_SERVICE && Offline(Execute(h, DisableNow, fate).host) ==> TookDown(fate)
  {
    AllServices();
    var after := Execute(h, DisableNow, fate).host;
    if TookDown(fate) {
      EveryService(after.enabled, {});
      EveryService(after.active, {});
    } else if h.enabled == h.active == EVERY_SERVICE {
      assert Collector !in fate.reached ==> Collector in after.enabled;
      assert Web !in fate.reached ==> Web in after.enabled;
      assert Collector !in fate.stopped ==> Collector in after.active;
      assert Web !in fate.stopped ==> Web in after.active;
      if after.enabled == {} {
        EveryService(fate.reached, EVERY_SERVICE);
      }
      if after.active == {} {
        EveryService(fate.stopped, EVERY_SERVICE);
      }
    }
  }

  lemma AllServices()
    ensures forall services: set<Service> :: services <= EVERY_SERVICE
  {
    forall services: set<Service> ensures services <= EVERY_SERVICE {
      forall service | service in services ensures service in EVERY_SERVICE {
        match service
        case Collector =>
        case Web =>
      }
    }
  }

  /** Whatever the host, when the services cannot all be taken down, a deployment can leave them up
      with the new release. */
  lemma StuckMachine(captured: Host, lastResort: Fate) returns (revision: string, fates: Fates)
    requires CanBackUp(captured) && !TookDown(lastResort)
    ensures IsRevision(revision) && ProperFates(fates) && fates.lastResort == lastResort
    ensures !Deployment(captured, revision, fates).success
    ensures !Offline(Deployment(captured, revision, fates).host)
    ensures !Restored(captured, Deployment(captured, revision, fates).host)
  {
    revision := AnotherRevision(captured);
    fates := Fates(FailedVerification(), seq(13, _ => FAILING), lastResort, FAILING);
    VerificationFails(captured, revision, DeployScript(captured, revision), fates.deploy);
    var running := Running(captured, revision);
    if captured.current.Some? {
      RollbackFails(captured, running, fates.rollback);
    }
    hide RunScript, IsRevision, DeployScript, TookDown, RollbackScript;
    TakingDown(running, lastResort);
    assert Deployment(captured, revision, fates) == Ran(Execute(running, DisableNow, lastResort).host, false);
  }

  lemma RollbackFails(captured: Host, h: Host, fates: seq<Fate>)
    requires captured.current.Some? && |fates| == 13 && fates[0] == FAILING
    ensures Rollback(captured, h, fates) == Ran(h, false)
  {
    FailsAtOnce(h, RollbackScript(Capture(captured), captured.current.value), fates);
  }

  lemma {:induction false} FineRun(h: Host, script: seq<Command>, fates: seq<Fate>)
    requires |fates| == |script| && AllFine(fates)
    requires forall c | c in script :: !c.RequireActive?
    ensures RunScript(h, script, fates).success
    decreases |script|
  {
    if script == [] {
    } else {
      assert script[0] in script;
      FineRun(Execute(h, script[0], fates[0]).host, script[1..], fates[1..]);
    }
  }

  lemma FineRestart(h: Host, backup: Backup, fates: seq<Fate>)
    requires |fates| == 4 && AllFine(fates)
    ensures RunScript(h, RestartCaptured(backup), fates).success
  {
    var starts := [IfCaptured(Collector, backup.active, Start(Collector)), IfCaptured(Web, backup.active, Start(Web))];
    var checks := [IfCaptured(Collector, backup.active, RequireActive(Collector)),
                   IfCaptured(Web, backup.active, RequireActive(Web))];
    assert RestartCaptured(backup) == starts + checks;
    ScriptConcat(h, starts, checks, fates);
    FineRun(h, starts, fates[..2]);
    var h1 := ScriptGoesOn(h, starts, fates[..2]);
    var h2 := ScriptGoesOn(h1, starts[1..], fates[..2][1..]);
    assert starts[1..][1..] == [] && fates[..2][1..][1..] == [];
    assert Execute(h2, checks[0], FINE) == Ran(h2, true) && Execute(h2, checks[1], FINE) == Ran(h2, true);
    assert checks[1..][1..] == [] && fates[2..][0] == FINE && fates[2..][1..][0] == FINE;
    assert RunScript(h2, checks[1..], fates[2..][1..]).success;
  }

  lemma FineRollback(captured: Host, h: Host, fates: seq<Fate>)
    requires |fates| == 13 && captured.current.Some? && AllFine(fates)
    ensures Rollback(captured, h, fates).success
  {
    var backup, previous := Capture(captured), captured.current.value;
    hide RunScript;
    ScriptConcat(h, StopAndRestore(backup), Relink(backup, previous) + RestartCaptured(backup), fates);
    FineRun(h, StopAndRestore(backup), fates[..4]);
    var stopped := RunScript(h, StopAndRestore(backup), fates[..4]).host;
    ScriptConcat(stopped, Relink(backup, previous), RestartCaptured(backup), fates[4..]);
    FineRun(stopped, Relink(backup, previous), fates[4..][..5]);
    FineRestart(RunScript(stopped, Relink(backup, previous), fates[4..][..5]).host, backup, fates[4..][5..]);
  }

  /** A captured dashboard without its collector: everything in the rollback goes well, and it ends
      with both services running, although only one was. */
  lemma CollectorPulledIn(captured: Host, lastResort: Fate) returns (fates: Fates)
    requires CanBackUp(captured) && NamesRevision(captured) && WebAlone(captured.active)
    ensures ProperFates(fates) && fates.lastResort == lastResort
    ensures AllFine(fates.rollback)
    ensures var deployed := Deployment(captured, captured.current.value, fates);
            && !deployed.success && deployed.host.active == EVERY_SERVICE
            && !Restored(captured, deployed.host) && !Offline(deployed.host)
  {
    var revision := captured.current.value;
    fates := Fates(FailedVerification(), seq(13, _ => FINE), lastResort, FINE);
    VerificationFails(captured, revision, DeployScript(captured, revision), fates.deploy);
    FineRollback(captured, Running(captured, revision), fates.rollback);
    hide RunScript, IsRevision, DeployScript, RollbackScript;
    SuccessfulRollbackRestores(captured, Running(captured, revision), fates.rollback);
  }

  /** What safety depends on, and all it depends on: the last resort, whose own failure the trap
      ignores, and that no dashboard runs without its collector when a release can be gone back to. */
  lemma SafeExactly(captured: Host, lastResort: Fate)
    ensures AlwaysSafe(captured, lastResort) <==>
            !CanBackUp(captured)
              || (TookDown(lastResort) && !(WebAlone(captured.active) && NamesRevision(captured)))
  {
    hide Deployment, Restored, Offline, IsRevision, TookDown, WebAlone;
    if CanBackUp(captured) && !TookDown(lastResort) {
      var revision, fates := StuckMachine(captured, lastResort);
    } else if CanBackUp(captured) && WebAlone(captured.active) && NamesRevision(captured) {
      var fates := CollectorPulledIn(captured, lastResort);
    } else {
      forall revision: string, fates: Fates |
        IsRevision(revision) && ProperFates(fates) && fates.lastResort == lastResort
        && !Deployment(captured, revision, fates).success
        ensures || Restored(captured, Deployment(captured, revision, fates).host)
                || Offline(Deployment(captured, revision, fates).host)
      {
        FailedDeployment(captured, revision, fates);
        CapturedIsRestored(captured);
      }
    }
  }
}
