/**
  The life of runtime instances: at most one is ever open, between operations it is the current
  one, and none is opened again after shutdown.
 */
module BoxManager {
  import opened Options

  datatype Mode = PoolMode | MultiPort | Hybrid

  // `ports` has one entry per node; `persisted` says that the configuration has a file.
  datatype Config = Config(mode: Mode, chains: bool, settings: string, ports: seq<nat>, persisted: bool)

  predicate CanReconcile(current: Config, desired: Config) {
    current.mode == MultiPort && desired.mode == MultiPort && !current.chains && !desired.chains && current.settings == desired.settings
  }

  // ---- what is replied ----

  // One attempt at an instance: it is not created, it starts, or starting fails and, if that was for a
  // port conflict, a node is moved to another port.
  datatype Move = Move(index: nat, port: nat)
  datatype Attempt = NotCreated | Up | Down(moved: Option<Move>)

  datatype StartReplies = StartReplies(monitored: bool, closesFirst: bool, attempts: nat -> Attempt, saved: bool, closesLast: bool)

  datatype BackReplies = BackReplies(closesFirst: bool, canceled: bool, created: bool, started: bool, closesLast: bool)

  datatype ReloadReplies = ReloadReplies(
    closesFirst: bool, rebuilt: Option<seq<nat>>, saved: bool, attempts: nat -> Attempt, savedPorts: bool, closesLast: bool, back: BackReplies)

  datatype TriggerReplies = TriggerReplies(
    canceled: bool, closesFirst: bool, clean: bool, rebuilt: Option<seq<nat>>, saved: bool, start: StartReplies,
    reconciled: bool, reload: ReloadReplies)

  datatype RestoreReplies = RestoreReplies(closesFirst: bool, clean: bool, start: StartReplies, reload: ReloadReplies)

  datatype Op =
    | Start(start: StartReplies) | Reload(config: Config, reload: ReloadReplies) | TriggerReload(trigger: TriggerReplies)
    | ApplyRestored(config: Config, restore: RestoreReplies) | Edit(config: Config) | Close | Shutdown

  // ---- when an instance comes up ----

  datatype Started = Started(up: bool, ports: seq<nat>, moved: bool)

  predicate MovesOn(attempt: Attempt, nodes: nat) {
    attempt.Down? && attempt.moved.Some? && attempt.moved.value.index < nodes
  }

  // From some attempt on, with the ports as they are by then.
  function Starting(ports: seq<nat>, attempts: nat -> Attempt, retry: nat): (s: Started)
    requires retry <= |ports| + 1
    ensures |s.ports| == |ports|
    decreases |ports| + 1 - retry
  {
    if retry == |ports| + 1 then Started(false, ports, retry > 0)
    else if attempts(retry).Up? then Started(true, ports, retry > 0)
    else if !MovesOn(attempts(retry), |ports|) then Started(false, ports, retry > 0)
    else
      var move := attempts(retry).moved.value;
      Starting(ports[move.index := move.port], attempts, retry + 1)
  }

  // The first attempt that starts, all before it having moved a port, within one attempt per node and one more.
  ghost predicate UpAt(nodes: nat, attempts: nat -> Attempt, retry: nat, r: nat) {
    retry <= r <= nodes && attempts(r).Up? && forall q {:trigger attempts(q)} :: retry <= q < r ==> MovesOn(attempts(q), nodes)
  }

  lemma {:induction false} StartsExactly(ports: seq<nat>, attempts: nat -> Attempt, retry: nat)
    requires retry <= |ports| + 1
    ensures Starting(ports, attempts, retry).up <==> exists r: nat :: UpAt(|ports|, attempts, retry, r)
    ensures Starting(ports, attempts, retry).up && attempts(retry).Up? ==> Starting(ports, attempts, retry).ports == ports
    ensures Starting(ports, attempts, retry).up ==> (Starting(ports, attempts, retry).moved <==> retry > 0 || !attempts(retry).Up?)
    decreases |ports| + 1 - retry
  {
    if retry <= |ports| {
      if attempts(retry).Up? {
        assert UpAt(|ports|, attempts, retry, retry);
      } else if MovesOn(attempts(retry), |ports|) {
        var move, next := attempts(retry).moved.value, retry + 1;
        StartsExactly(ports[move.index := move.port], attempts, next);
        assert |ports[move.index := move.port]| == |ports|;
        if r: nat :| UpAt(|ports|, attempts, retry, r) {
          assert UpAt(|ports|, attempts, next, r);
        }
        if r: nat :| UpAt(|ports|, attempts, next, r) {
          assert UpAt(|ports|, attempts, retry, r);
        }
      }
    }
  }

  // ---- when an operation succeeds ----

  predicate StartBegins(cfg: Option<Config>, running: bool, closing: bool, r: StartReplies) {
    r.monitored && !closing && !r.closesFirst && cfg.Some? && !running
  }

  predicate StartGoes(cfg: Option<Config>, running: bool, closing: bool, r: StartReplies) {
    && StartBegins(cfg, running, closing, r)
    && (cfg.value.ports != [] ==>
          var started := Starting(cfg.value.ports, r.attempts, 0);
          started.up && (started.moved && cfg.value.persisted ==> r.saved) && !r.closesLast)
  }

  predicate BackGoes(oldCfg: Option<Config>, closing: bool, r: BackReplies) {
    oldCfg.Some? && !closing && !r.closesFirst && !r.canceled && r.created && r.started && !r.closesLast
  }

  function Rebuilt(config: Config, ports: seq<nat>): Config {
    if |ports| == |config.ports| then config.(ports := ports) else config
  }

  // The new instance is up and its ports are saved.
  predicate ReloadUp(newCfg: Config, r: ReloadReplies) {
    && r.rebuilt.Some? && (newCfg.persisted ==> r.saved)
    && var started := Starting(Rebuilt(newCfg, r.rebuilt.value).ports, r.attempts, 0);
       started.up && (started.moved && newCfg.persisted ==> r.savedPorts)
  }

  function ReloadedTo(newCfg: Config, r: ReloadReplies): Config
    requires r.rebuilt.Some?
  {
    newCfg.(ports := Starting(Rebuilt(newCfg, r.rebuilt.value).ports, r.attempts, 0).ports)
  }

  predicate ReloadBegins(running: bool, closing: bool, r: ReloadReplies) {
    running && !closing && !r.closesFirst
  }

  predicate ReloadGoes(newCfg: Config, running: bool, closing: bool, r: ReloadReplies) {
    ReloadBegins(running, closing, r) && ReloadUp(newCfg, r) && !r.closesLast
  }

  // Goes back to what ran: the new instance did not come up, and nobody is closing.
  predicate ReloadBack(newCfg: Config, oldCfg: Option<Config>, running: bool, closing: bool, r: ReloadReplies) {
    ReloadBegins(running, closing, r) && !ReloadUp(newCfg, r) && BackGoes(oldCfg, false, r.back)
  }

  predicate TriggerBegins(cfg: Option<Config>, closing: bool, r: TriggerReplies) {
    !r.canceled && !closing && !r.closesFirst && cfg.Some?
  }

  // What is started when nothing runs: outside the pool mode the ports are given anew and saved first.
  predicate Prepares(config: Config, r: TriggerReplies) {
    config.mode != PoolMode ==> r.rebuilt.Some? && (config.persisted ==> r.saved)
  }

  function Prepared(config: Config, r: TriggerReplies): Config
    requires Prepares(config, r)
  {
    if config.mode != PoolMode then Rebuilt(config, r.rebuilt.value) else config
  }

  predicate InPlace(config: Config, runtimeCfg: Option<Config>, r: TriggerReplies) {
    runtimeCfg.Some? && CanReconcile(runtimeCfg.value, config) && r.reconciled
  }

  predicate TriggerGoes(cfg: Option<Config>, runtimeCfg: Option<Config>, running: bool, closing: bool, r: TriggerReplies) {
    && TriggerBegins(cfg, closing, r)
    && if cfg.value.ports == [] then !running || r.clean
       else if !running then Prepares(cfg.value, r) && StartGoes(Some(Prepared(cfg.value, r)), false, false, r.start)
       else InPlace(cfg.value, runtimeCfg, r) || ReloadGoes(cfg.value, true, false, r.reload)
  }

  predicate RestoreGoes(restored: Config, running: bool, closing: bool, r: RestoreReplies) {
    && !closing && !r.closesFirst
    && if restored.ports == [] then !running || r.clean
       else if running then ReloadGoes(restored, true, false, r.reload)
       else StartGoes(Some(restored), false, false, r.start)
  }

  // `closing` may be set by another goroutine whenever the manager's lock is free: the replies say when
  // it is found set; all else happens under the reload lock.
  class Manager {
    var currentBox: Option<nat>
    var cfg: Option<Config>
    var runtimeCfg: Option<Config>
    var closing: bool

    // The instances created so far are 0, 1, ..., next - 1; those in `live` are not closed.
    var live: set<nat>
    var next: nat
    // What the open instance was last made to serve.
    ghost var serving: Option<Config>
    // The current instance was closed but kept, because closing it reported an error.
    ghost var stale: bool
    ghost var shut: bool

    ghost predicate Running()
      reads this
    {
      currentBox.Some? && !stale
    }

    // Between operations.
    ghost predicate Valid()
      reads this
    {
      && (currentBox.Some? ==> currentBox.value < next)
      && (stale ==> currentBox.Some?)
      && live == (if Running() then {currentBox.value} else {})
      && (Running() ==> runtimeCfg.Some? && serving == runtimeCfg)
      && (shut ==> closing && currentBox.None?)
    }

    // During an operation that has given the current instance up.
    ghost predicate Idle()
      reads this
    {
      live == {} && currentBox.None? && !stale
    }

    constructor (config: Option<Config>)
      ensures Valid() && Idle() && cfg == config && !closing && !shut
    {
      currentBox, cfg, runtimeCfg, closing := None, config, None, false;
      live, next, serving, stale, shut := {}, 0, None, false, false;
    }

    // The only place an instance comes from: none other is open.
    method CreateBox(config: Config, created: bool) returns (instance: Option<nat>)
      requires live == {}
      modifies this`live, this`next, this`serving
      ensures instance.Some? <==> created
      ensures instance.None? ==> live == {} && next == old(next) && serving == old(serving)
      ensures instance.Some? ==> instance.value == old(next) && next == old(next) + 1 && live == {instance.value} && serving == Some(config)
    {
      if !created {
        return None;
      }
      instance := Some(next);
      live := live + {next};
      next := next + 1;
      serving := Some(config);
    }

    method CloseBox(instance: nat)
      modifies this`live
      ensures live == old(live) - {instance}
    {
      live := live - {instance};
    }

    // Creates and starts, moving a conflicting port and trying again at most once per node and once more.
    method CreateAndStart(given: Config, attempts: nat -> Attempt) returns (instance: Option<nat>, config: Config, portsChanged: bool)
      requires live == {}
      modifies this`live, this`next, this`serving
      ensures Started(instance.Some?, config.ports, portsChanged) == Starting(given.ports, attempts, 0) && config == given.(ports := config.ports)
      ensures instance.None? ==> live == {}
      ensures instance.Some? ==> live == {instance.value} && instance.value < next && serving == Some(config)
      ensures !portsChanged ==> config == given
      ensures old(next) <= next <= old(next) + |given.ports| + 1 && (instance.Some? ==> old(next) <= instance.value)
    {
      config, portsChanged := given, false;
      for retry := 0 to |given.ports| + 1
        invariant live == {} && config == given.(ports := config.ports) && |config.ports| == |given.ports|
        invariant portsChanged == (retry > 0) && (!portsChanged ==> config == given)
        invariant Starting(given.ports, attempts, 0) == Starting(config.ports, attempts, retry)
        invariant old(next) <= next <= old(next) + retry
      {
        instance := CreateBox(config, !attempts(retry).NotCreated?);
        if instance.None? {
          return;
        }
        if attempts(retry).Up? {
          return;
        }
        CloseBox(instance.value);
        var ports := Reassign(config.ports, attempts(retry).moved);
        if ports.None? {
          return None, config, portsChanged;
        }
        config, portsChanged := config.(ports := ports.value), true;
      }
      instance := None;
    }

    // Not a port conflict, no node on the port or no free port: nothing is reassigned.
    method Reassign(ports: seq<nat>, move: Option<Move>) returns (moved: Option<seq<nat>>)
      ensures moved == if move.Some? && move.value.index < |ports| then Some(ports[move.value.index := move.value.port]) else None
    {
      if move.None? || move.value.index >= |ports| {
        return None;
      }
      return Some(ports[move.value.index := move.value.port]);
    }

    // Whether it succeeds is decided by the replies; a failure leaves what ran.
    method StartLocked(replies: StartReplies) returns (ok: bool)
      requires Valid()
      modifies this
      ensures Valid() && shut == old(shut)
      ensures old(closing) ==> closing
      ensures ok <==> StartGoes(old(cfg), old(currentBox).Some?, old(closing), replies)
      ensures old(closing) ==> next == old(next)
      ensures !ok ==> currentBox == old(currentBox) && live == old(live) && runtimeCfg == old(runtimeCfg) && stale == old(stale)
      ensures ok ==> cfg.Some? && runtimeCfg == cfg && if cfg.value.ports == [] then currentBox.None? && live == {} else Running()
      ensures cfg == if StartBegins(old(cfg), old(currentBox).Some?, old(closing), replies)
                     then Some(old(cfg).value.(ports := Starting(old(cfg).value.ports, replies.attempts, 0).ports)) else old(cfg)
    {
      if !replies.monitored {
        return false;
      }
      closing := closing || replies.closesFirst;
      if closing || cfg.None? || currentBox.Some? {
        return false;
      }
      var config := cfg.value;
      if config.ports == [] {
        ok := EnterEmptyRuntime(config, true);
        return;
      }
      var instance, started, portsChanged := CreateAndStart(config, replies.attempts);
      cfg := Some(started);
      if instance.None? {
        return false;
      }
      if portsChanged && config.persisted {
        if !replies.saved {
          CloseBox(instance.value);
          return false;
        }
      }
      closing := replies.closesLast;
      if closing {
        CloseBox(instance.value);
        return false;
      }
      currentBox, runtimeCfg := instance, Some(started);
      ok := true;
    }

    // Back to the previous configuration: it runs again exactly if the replies allow it, and otherwise
    // nothing does.
    method RollbackToOldConfig(oldCfg: Option<Config>, replies: BackReplies)
      requires Idle() && !shut
      modifies this
      ensures Valid() && (old(closing) ==> closing) && !shut && !stale
      ensures currentBox.Some? <==> BackGoes(oldCfg, old(closing), replies)
      ensures currentBox.Some? ==> Running() && runtimeCfg == oldCfg && cfg == oldCfg
      ensures currentBox.None? ==> runtimeCfg == old(runtimeCfg) && cfg == old(cfg)
      ensures old(closing) ==> next == old(next)
    {
      closing := closing || replies.closesFirst;
      if oldCfg.None? || closing || replies.canceled {
        return;
      }
      var instance := CreateBox(oldCfg.value, replies.created);
      if instance.None? {
        return;
      }
      if !replies.started {
        CloseBox(instance.value);
        return;
      }
      closing := replies.closesLast;
      if closing {
        CloseBox(instance.value);
        return;
      }
      currentBox, cfg, runtimeCfg := instance, oldCfg, oldCfg;
    }

    // The new instance of a reload, up and with its ports saved, or none.
    method BringUp(newCfg: Config, replies: ReloadReplies) returns (instance: Option<nat>, config: Config)
      requires live == {}
      modifies this`live, this`next, this`serving
      ensures instance.Some? <==> ReloadUp(newCfg, replies)
      ensures instance.None? ==> live == {}
      ensures instance.Some? ==> live == {instance.value} && serving == Some(config) && config == ReloadedTo(newCfg, replies)
      ensures instance.Some? ==> old(next) <= instance.value < next
    {
      config := newCfg;
      if replies.rebuilt.None? {
        return None, config;
      }
      config := Rebuilt(newCfg, replies.rebuilt.value);
      if newCfg.persisted && !replies.saved {
        return None, config;
      }
      var portsChanged;
      instance, config, portsChanged := CreateAndStart(config, replies.attempts);
      if instance.None? {
        return;
      }
      if portsChanged && newCfg.persisted && !replies.savedPorts {
        CloseBox(instance.value);
        return None, config;
      }
    }

    // Success is decided by the replies.  A failure before the running instance was given up changes
    // nothing; after that the old configuration runs exactly if the new instance did not come up and
    // the way back succeeds, and otherwise nothing does.
    method ReloadLocked(newCfg: Config, replies: ReloadReplies) returns (ok: bool)
      requires Valid()
      modifies this
      ensures Valid() && (old(closing) ==> closing) && shut == old(shut)
      ensures ok <==> ReloadGoes(newCfg, old(currentBox).Some?, old(closing), replies)
      ensures old(closing) ==> next == old(next)
      ensures ok ==> Running() && runtimeCfg == cfg == Some(ReloadedTo(newCfg, replies)) && old(next) <= currentBox.value
      ensures !ReloadBegins(old(currentBox).Some?, old(closing), replies) ==>
                currentBox == old(currentBox) && live == old(live) && cfg == old(cfg) && runtimeCfg == old(runtimeCfg) && stale == old(stale)
      ensures !ok && ReloadBegins(old(currentBox).Some?, old(closing), replies) ==>
                var oldCfg := if old(runtimeCfg).Some? then old(runtimeCfg) else old(cfg);
                if ReloadBack(newCfg, oldCfg, old(currentBox).Some?, old(closing), replies) then Running() && runtimeCfg == cfg == oldCfg
                else Idle() && cfg == old(cfg) && runtimeCfg == old(runtimeCfg)
    {
      hide Starting, ReloadUp, ReloadedTo;
      closing := closing || replies.closesFirst;
      if closing || currentBox.None? {
        return false;
      }
      var oldBox := currentBox.value;
      var oldCfg := if runtimeCfg.Some? then runtimeCfg else cfg;
      currentBox := None;
      CloseBox(oldBox);
      stale := false;
      var instance, config := BringUp(newCfg, replies);
      if instance.None? {
        RollbackToOldConfig(oldCfg, replies.back);
        return false;
      }
      closing := replies.closesLast;
      if closing {
        CloseBox(instance.value);
        return false;
      }
      currentBox, cfg, runtimeCfg := instance, Some(config), Some(config);
      ok := true;
    }

    // Fails exactly when there is a running instance and closing it reports an error, and then keeps it as current.
    method EnterEmptyRuntime(config: Config, clean: bool) returns (ok: bool)
      requires Valid()
      modifies this`currentBox, this`cfg, this`runtimeCfg, this`live, this`stale
      ensures Valid() && live == {}
      ensures ok <==> old(currentBox).None? || clean
      ensures ok ==> currentBox.None? && !stale && cfg == Some(config) && runtimeCfg == Some(config)
      ensures !ok ==> stale && currentBox == old(currentBox) && cfg == old(cfg) && runtimeCfg == old(runtimeCfg)
    {
      if currentBox.Some? {
        CloseBox(currentBox.value);
        if !clean {
          stale := true;
          return false;
        }
      }
      currentBox, cfg, runtimeCfg := None, Some(config), Some(config);
      stale := false;
      ok := true;
    }

    // Success is decided by the replies.  It serves the configuration as edited, unless the current
    // instance was stale and a change in place was reported to have worked on it; a failure keeps what
    // ran, or goes back to its configuration, or leaves nothing running, each exactly when a reload does.
    method TriggerReloadLocked(replies: TriggerReplies) returns (ok: bool)
      requires Valid()
      modifies this
      ensures Valid() && (old(closing) ==> closing) && shut == old(shut)
      ensures ok <==> TriggerGoes(old(cfg), old(runtimeCfg), old(currentBox).Some?, old(closing), replies)
      ensures old(closing) ==> next == old(next) && live == old(live)
      ensures ok ==> cfg.Some? && cfg.value == old(cfg).value.(ports := cfg.value.ports)
      ensures ok ==> if old(cfg).value.ports == [] then currentBox.None? && live == {}
                     else currentBox.Some? && runtimeCfg == cfg && (Running() || old(stale))
      ensures ok && old(cfg).value.ports != [] && old(currentBox).Some? && currentBox == old(currentBox) ==>
                && old(runtimeCfg).Some? && old(runtimeCfg).value.mode == old(cfg).value.mode == MultiPort
                && !old(runtimeCfg).value.chains && !old(cfg).value.chains && old(runtimeCfg).value.settings == old(cfg).value.settings
      ensures !ok && Running() ==> runtimeCfg == (if old(runtimeCfg).Some? then old(runtimeCfg) else old(cfg))
      ensures !ok && TriggerBegins(old(cfg), old(closing), replies) && old(cfg).value.ports != [] && old(currentBox).Some? ==>
                (Running() <==>
                   if ReloadBegins(true, false, replies.reload)
                   then ReloadBack(old(cfg).value, if old(runtimeCfg).Some? then old(runtimeCfg) else old(cfg), true, false, replies.reload)
                   else old(Running()))
    {
      if replies.canceled {
        return false;
      }
      closing := closing || replies.closesFirst;
      if closing || cfg.None? {
        return false;
      }
      var copy := cfg.value;
      if copy.ports == [] {
        ok := EnterEmptyRuntime(copy, replies.clean);
        return;
      }
      if currentBox.None? {
        if copy.mode != PoolMode {
          if replies.rebuilt.None? || (copy.persisted && !replies.saved) {
            return false;
          }
          copy := Rebuilt(copy, replies.rebuilt.value);
        }
        cfg := Some(copy);
        ok := StartLocked(replies.start);
        return;
      }
      if runtimeCfg.Some? && CanReconcile(runtimeCfg.value, copy) {
        if replies.reconciled {
          cfg, runtimeCfg := Some(copy), Some(copy);
          serving := if stale then serving else Some(copy);
          return true;
        }
      }
      ok := ReloadLocked(copy, replies.reload);
    }

    method ApplyRestoredConfig(restored: Config, replies: RestoreReplies) returns (ok: bool)
      requires Valid()
      modifies this
      ensures Valid() && (old(closing) ==> closing) && shut == old(shut)
      ensures ok <==> RestoreGoes(restored, old(currentBox).Some?, old(closing), replies)
      ensures old(closing) ==> next == old(next) && live == old(live)
      ensures ok ==> cfg.Some? && cfg.value == restored.(ports := cfg.value.ports)
      ensures ok ==> if restored.ports == [] then currentBox.None? && live == {} else Running() && runtimeCfg == cfg
      ensures !ok && Running() ==> runtimeCfg == (if old(runtimeCfg).Some? then old(runtimeCfg) else old(cfg))
      ensures !ok && !old(closing) && !replies.closesFirst && restored.ports != [] && old(currentBox).Some? ==>
                (Running() <==>
                   if ReloadBegins(true, false, replies.reload)
                   then ReloadBack(restored, if old(runtimeCfg).Some? then old(runtimeCfg) else old(cfg), true, false, replies.reload)
                   else old(Running()))
    {
      closing := closing || replies.closesFirst;
      if closing {
        return false;
      }
      if restored.ports == [] {
        ok := EnterEmptyRuntime(restored, replies.clean);
      } else if currentBox.Some? {
        ok := ReloadLocked(restored, replies.reload);
      } else {
        cfg := Some(restored);
        ok := StartLocked(replies.start);
      }
    }

    // Nothing is open afterwards.
    method ShutdownLocked()
      requires Valid() && closing
      modifies this
      ensures Valid() && shut && closing && live == {} && currentBox.None? && next == old(next)
    {
      var instance := currentBox;
      currentBox := None;
      stale := false;
      if instance.Some? {
        CloseBox(instance.value);
      }
      shut := true;
    }
  }

  // What can be seen of a manager between two operations.
  datatype Glimpse = Glimpse(live: set<nat>, current: Option<nat>, stale: bool, shut: bool, created: nat)

  ghost function Seen(m: Manager): Glimpse
    reads m
  {
    Glimpse(m.live, m.currentBox, m.stale, m.shut, m.next)
  }

  // Exactly the current instance is open, or none if stopping it reported an error.
  ghost predicate OneLive(g: Glimpse) {
    g.live == if g.current.Some? && !g.stale then {g.current.value} else {}
  }

  // Once the manager has shut down nothing is open and nothing is created.
  ghost predicate StaysShut(early: Glimpse, late: Glimpse) {
    early.shut ==> late.shut && late.live == {} && late.created == early.created
  }

  // Any run of operations, in any order and with any failures, looked at before, between and after them.
  method AnyRun(config: Option<Config>, ops: seq<Op>) returns (m: Manager, ghost seen: seq<Glimpse>)
    ensures |seen| == |ops| + 1 && seen[|ops|] == Seen(m) && m.Valid()
    ensures forall i {:trigger seen[i]} :: 0 <= i <= |ops| ==> OneLive(seen[i]) && |seen[i].live| <= 1
    ensures forall i, j {:trigger seen[i], seen[j]} :: 0 <= i <= j <= |ops| ==> StaysShut(seen[i], seen[j])
  {
    m := new Manager(config);
    seen := [Seen(m)];
    for k := 0 to |ops|
      invariant m.Valid() && fresh(m) && |seen| == k + 1 && seen[k] == Seen(m)
      invariant forall i {:trigger seen[i]} :: 0 <= i <= k ==> OneLive(seen[i]) && |seen[i].live| <= 1
      invariant forall i, j {:trigger seen[i], seen[j]} :: 0 <= i <= j <= k ==> StaysShut(seen[i], seen[j])
    {
      ghost var before := seen;
      var ok := true;
      match ops[k] {
        case Start(r) => ok := m.StartLocked(r);
        case Reload(c, r) => ok := m.ReloadLocked(c, r);
        case TriggerReload(r) => ok := m.TriggerReloadLocked(r);
        case ApplyRestored(c, r) => ok := m.ApplyRestoredConfig(c, r);
        case Edit(c) => m.cfg := Some(c);
        case Close => m.closing := true;
        case Shutdown => if m.closing { m.ShutdownLocked(); }
      }
      assert StaysShut(before[k], Seen(m));
      seen := before + [Seen(m)];
      assert forall i :: 0 <= i <= k ==> seen[i] == before[i];
    }
  }
}
