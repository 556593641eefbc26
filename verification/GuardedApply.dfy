// Applying a rendered config: write, tell the runtime, smoke-check, record, or put all back.
module GuardedApply {
  import opened Wrappers
  import opened JsonText

  // Failures the rollback catches, and failures that escape from it.
  datatype Kind = Operational | Unexpected

  /** What one call into the outside does. A failing call may already have taken effect. */
  datatype Fault = Works | Fails(late: bool, kind: Kind)
  {
    predicate TakesEffect() { Works? || late }
    predicate Escapes() { Fails? && kind == Unexpected }
  }

  datatype Faults = Faults(lock: Fault, read: Fault, backup: Fault, write: Fault, update: Fault, restart: Fault,
                           smoke: Fault, receipt: Fault, restore: Fault, updateBack: Fault, restartBack: Fault,
                           failure: Fault, wantsRestart: bool, wantsRestartBack: bool)
  {
    /** Nothing between the write and the receipt fails. */
    predicate AllWork() {
      write.Works? && update.Works? && (wantsRestart ==> restart.Works?) && smoke.Works? && receipt.Works?
    }

    // The runtime is told of the original again only if it may have heard of the new config.
    predicate RuntimeRestored() {
      write.Works? ==> updateBack.Works? && (wantsRestartBack ==> restartBack.Works?)
    }

    /** What a rollback leaves in the file is the original. */
    predicate OriginalBack() {
      restore.TakesEffect() || !write.TakesEffect()
    }

    predicate RollbackEscapes() {
      restore.Escapes() || (restore.Works? && write.Works? && (updateBack.Escapes()
        || (updateBack.Works? && wantsRestartBack && restartBack.Escapes()))) || failure.Escapes()
    }
  }

  datatype Receipt =
    | Succeeded(bundle: string, originalDigest: string, renderedDigest: string, restarted: bool)
    | Failed(rollbackFailed: bool, bundle: string, originalDigest: string)

  datatype Outcome =
    | Refused                        // an error before anything was written
    | DryRun(receipt: Receipt)
    | Applied(receipt: Receipt)
    | RolledBack
    | RollbackFailed
    | Escaped                        // an unexpected error inside the rollback

  /** What reached the runtime: the id of a config, or a service restart. */
  datatype Call = Told(id: string) | Restarted

  datatype World = World(config: Text, backups: map<string, Text>, calls: seq<Call>, receipts: seq<Receipt>)

  datatype Request = Request(bundle: string, expected: string, render: Text -> Option<Text>, digest: Text -> string,
                             backup: string, wired: bool, dryRun: bool)
  {
    /** The config is the expected one and renders. */
    predicate Matches(config: Text) {
      expected != "" && digest(config) == expected && render(config).Some?
    }

    /** Everything before the backup succeeds. */
    predicate BacksUp(config: Text, f: Faults) {
      !dryRun && wired && f.lock.Works? && f.read.Works? && Matches(config)
    }

    /** Everything up to the backup succeeds. */
    predicate Admitted(config: Text, f: Faults) {
      BacksUp(config, f) && f.backup.Works?
    }
  }

  /** Which outcome an apply has. */
  function Result(w: World, q: Request, f: Faults): Outcome {
    if q.dryRun then
      if f.read.Works? && q.Matches(w.config) then DryRun(Success(w, q, false)) else Refused
    else if !q.Admitted(w.config, f) then Refused
    else if f.AllWork() then Applied(Success(w, q, f.wantsRestart))
    else if f.RollbackEscapes() then Escaped
    else if f.restore.Works? && f.RuntimeRestored() then RolledBack
    else RollbackFailed
  }

  /** The outcome by the single calls: one that fails after the backup means the change is not
      applied, and it is rolled back exactly if nothing that puts it back fails. */
  lemma OutcomeExactly(w: World, q: Request, f: Faults)
    ensures var matches := q.expected != "" && q.digest(w.config) == q.expected && q.render(w.config).Some?;
            var begun := && !q.dryRun && q.wired && f.lock == Works && f.read == Works && f.backup == Works && matches;
            var forward := && f.write == Works && f.update == Works && (!f.wantsRestart || f.restart == Works)
                           && f.smoke == Works && f.receipt == Works;
            var back := && f.restore == Works
                        && (f.write == Works ==>
                              f.updateBack == Works && (!f.wantsRestartBack || f.restartBack == Works))
                        && f.failure != Fails(false, Unexpected) && f.failure != Fails(true, Unexpected);
            && (Result(w, q, f).Applied? <==> begun && forward)
            && (Result(w, q, f) == RolledBack <==> begun && !forward && back)
            && (Result(w, q, f).DryRun? <==> q.dryRun && f.read == Works && matches)
            && (Result(w, q, f) == Refused <==> !begun && !(q.dryRun && f.read == Works && matches))
            && (Result(w, q, f) == Escaped
                <==> && begun && !forward
                     && (|| Surprises(f.restore) || Surprises(f.failure)
                         || (f.restore == Works && f.write == Works
                             && (Surprises(f.updateBack)
                                 || (f.updateBack == Works && f.wantsRestartBack && Surprises(f.restartBack))))))
  {
  }

  predicate Surprises(fault: Fault) {
    fault == Fails(false, Unexpected) || fault == Fails(true, Unexpected)
  }

  function Success(w: World, q: Request, restarted: bool): Receipt
    requires q.render(w.config).Some?
  {
    Succeeded(q.bundle, q.digest(w.config), q.digest(q.render(w.config).value), restarted)
  }

  /** What an apply leaves behind, outcome by outcome: the new config or the old one, and a
      runtime and a receipt log that say which. */
  ghost predicate Guarded(w: World, v: World, q: Request, f: Faults) {
    && v.backups == (if q.BacksUp(w.config, f) && f.backup.TakesEffect() then w.backups[q.backup := w.config] else w.backups)
    && v.calls == w.calls + (if Result(w, q, f).Refused? || q.dryRun then [] else Forward(q.bundle, f) + Back(q.digest(w.config), f))
    && w.receipts <= v.receipts
    && match Result(w, q, f)
       case Refused => v.config == w.config && v.calls == w.calls && v.receipts == w.receipts
       case DryRun(_) => v == w
       case Applied(receipt) =>
         && Some(v.config) == q.render(w.config)
         && v.calls == w.calls + [Told(q.bundle)] + (if f.wantsRestart then [Restarted] else [])
         && v.receipts == w.receipts + [receipt]
       case RolledBack =>
         && v.config == w.config
         && (if f.write.Works? then LastTold(v.calls, q.digest(w.config), f.wantsRestartBack) else v.calls == w.calls)
         && (f.failure.Works? ==> EndsWith(v.receipts, Failed(false, q.bundle, q.digest(w.config))))
       case RollbackFailed =>
         && v.config == (if f.OriginalBack() then w.config else q.render(w.config).value)
         && (f.failure.Works? ==> EndsWith(v.receipts, Failed(true, q.bundle, q.digest(w.config))))
       case Escaped => v.config == if f.OriginalBack() then w.config else q.render(w.config).value
  }

  // The calls that reach the runtime on the way forward, and those on the way back.
  function Forward(bundle: string, f: Faults): seq<Call> {
    if f.write.Fails? then []
    else Attempt(bundle, f.update, f.wantsRestart, f.restart)
  }

  function Back(original: string, f: Faults): seq<Call> {
    if f.AllWork() || f.restore.Fails? || f.write.Fails? then []
    else Attempt(original, f.updateBack, f.wantsRestartBack, f.restartBack)
  }

  function Attempt(id: string, update: Fault, wantsRestart: bool, restart: Fault): seq<Call> {
    (if update.TakesEffect() then [Told(id)] else [])
    + (if update.Works? && wantsRestart && restart.TakesEffect() then [Restarted] else [])
  }

  /** The runtime was last told of `id`, and restarted after that if it wants to be. */
  predicate LastTold(calls: seq<Call>, id: string, restarted: bool) {
    if restarted then 2 <= |calls| && calls[|calls| - 2..] == [Told(id), Restarted]
    else 1 <= |calls| && calls[|calls| - 1] == Told(id)
  }

  predicate EndsWith(receipts: seq<Receipt>, r: Receipt) {
    receipts != [] && receipts[|receipts| - 1] == r
  }

  /** The runtime is told of the original only once it is back in the file, and restarted only
      right after it was told of something. */
  lemma CallsInOrder(w: World, v: World, q: Request, f: Faults)
    requires Guarded(w, v, q, f)
    ensures w.calls <= v.calls
    ensures f.restore != Works && q.bundle != q.digest(w.config) ==> Told(q.digest(w.config)) !in v.calls[|w.calls|..]
    ensures forall i :: |w.calls| <= i < |v.calls| && v.calls[i] == Restarted ==> |w.calls| < i && v.calls[i - 1].Told?
  {
  }

  // What the two halves of an apply leave behind is guarded.
  lemma AppliedGuarded(w: World, v: World, q: Request, f: Faults)
    requires q.Admitted(w.config, f) && f.AllWork()
    requires v == World(q.render(w.config).value, w.backups[q.backup := w.config], w.calls + Forward(q.bundle, f),
                        w.receipts + [Success(w, q, f.wantsRestart)])
    ensures Guarded(w, v, q, f)
  {
  }

  lemma RolledBackGuarded(w: World, v: World, q: Request, f: Faults, outcome: Outcome)
    requires q.Admitted(w.config, f) && !f.AllWork() && outcome == Result(w, q, f)
    requires v.config == if f.OriginalBack() then w.config else q.render(w.config).value
    requires v.backups == w.backups[q.backup := w.config]
    requires v.calls == w.calls + Forward(q.bundle, f) + Back(q.digest(w.config), f)
    requires w.receipts <= v.receipts
    requires outcome != Escaped && f.failure.Works?
        ==> EndsWith(v.receipts, Failed(outcome == RollbackFailed, q.bundle, q.digest(w.config)))
    ensures Guarded(w, v, q, f)
  {
    assert w.calls + Forward(q.bundle, f) + Back(q.digest(w.config), f)
        == w.calls + (Forward(q.bundle, f) + Back(q.digest(w.config), f));
  }

  /** The config file, its backups, the calls that reached the runtime, and the receipt log. */
  class Deployment {
    var config: Text
    var backups: map<string, Text>
    var calls: seq<Call>
    var receipts: seq<Receipt>

    constructor (config: Text)
      ensures Now() == World(config, map[], [], [])
    {
      this.config, backups, calls, receipts := config, map[], [], [];
    }

    function Now(): World
      reads this
    {
      World(config, backups, calls, receipts)
    }

    method Backup(name: string, fault: Fault)
      modifies this`backups
      ensures backups == if fault.TakesEffect() then old(backups)[name := config] else old(backups)
    {
      if fault.TakesEffect() {
        backups := backups[name := config];
      }
    }

    method AtomicWrite(content: Text, fault: Fault)
      modifies this`config
      ensures config == if fault.TakesEffect() then content else old(config)
    {
      if fault.TakesEffect() {
        config := content;
      }
    }

    method Restore(name: string, fault: Fault)
      requires name in backups
      modifies this`config
      ensures config == if fault.TakesEffect() then backups[name] else old(config)
    {
      AtomicWrite(backups[name], fault);
    }

    method UpdateRuntime(id: string, fault: Fault)
      modifies this`calls
      ensures calls == if fault.TakesEffect() then old(calls) + [Told(id)] else old(calls)
    {
      if fault.TakesEffect() {
        calls := calls + [Told(id)];
      }
    }

    method RestartService(fault: Fault)
      modifies this`calls
      ensures calls == if fault.TakesEffect() then old(calls) + [Restarted] else old(calls)
    {
      if fault.TakesEffect() {
        calls := calls + [Restarted];
      }
    }

    method Append(receipt: Receipt, fault: Fault)
      modifies this`receipts
      ensures receipts == if fault.TakesEffect() then old(receipts) + [receipt] else old(receipts)
    {
      if fault.TakesEffect() {
        receipts := receipts + [receipt];
      }
    }

    /** Write, tell the runtime, check and record; stops at the first failure. */
    method Proceed(q: Request, rendered: Text, success: Receipt, f: Faults) returns (done: bool, runtimeAttempted: bool)
      modifies this
      ensures backups == old(backups)
      ensures done == f.AllWork() && runtimeAttempted == f.write.Works?
      ensures config == if f.write.TakesEffect() then rendered else old(config)
      ensures calls == old(calls) + Forward(q.bundle, f)
      ensures done ==> receipts == old(receipts) + [success]
      ensures receipts == old(receipts) || receipts == old(receipts) + [success]
    {
      done, runtimeAttempted := false, false;
      AtomicWrite(rendered, f.write);
      if f.write.Fails? { return; }
      runtimeAttempted := true;
      UpdateRuntime(q.bundle, f.update);
      if f.update.Fails? { return; }
      if f.wantsRestart {
        RestartService(f.restart);
        if f.restart.Fails? { return; }
      }
      if f.smoke.Fails? { return; }
      Append(success, f.receipt);
      done := f.receipt.Works?;
    }

    /** Put the original config back, tell the runtime, and record the failure. */
    method RollBack(q: Request, runtimeAttempted: bool, originalDigest: string, f: Faults) returns (outcome: Outcome)
      requires q.backup in backups && runtimeAttempted == f.write.Works?
      modifies this
      ensures backups == old(backups)
      ensures outcome == if f.RollbackEscapes() then Escaped
                         else if f.restore.Works? && f.RuntimeRestored() then RolledBack else RollbackFailed
      ensures config == if f.restore.TakesEffect() then backups[q.backup] else old(config)
      ensures !f.AllWork() ==> calls == old(calls) + Back(originalDigest, f)
      ensures old(receipts) <= receipts
      ensures outcome != Escaped && f.failure.Works?
          ==> receipts == old(receipts) + [Failed(outcome == RollbackFailed, q.bundle, originalDigest)]
    {
      var errors := 0;
      Restore(q.backup, f.restore);
      if f.restore.Fails? {
        if f.restore.Escapes() { return Escaped; }
        errors := errors + 1;
      }
      var restored := f.restore.Works?;
      if restored && runtimeAttempted {
        UpdateRuntime(originalDigest, f.updateBack);
        var fault := f.updateBack;
        if fault.Works? && f.wantsRestartBack {
          RestartService(f.restartBack);
          fault := f.restartBack;
        }
        if fault.Fails? {
          if fault.Escapes() { return Escaped; }
          errors := errors + 1;
        }
      }
      Append(Failed(errors > 0, q.bundle, originalDigest), f.failure);
      if f.failure.Escapes() { return Escaped; }
      outcome := if errors > 0 then RollbackFailed else RolledBack;
    }

    method Apply(q: Request, f: Faults) returns (outcome: Outcome)
      modifies this
      ensures outcome == Result(old(Now()), q, f)
      ensures Guarded(old(Now()), Now(), q, f)
    {
      if q.expected == "" { return Refused; }
      if q.dryRun {
        if f.read.Fails? || q.digest(config) != q.expected || q.render(config).None? { return Refused; }
        return DryRun(Success(Now(), q, false));
      }
      if !q.wired || f.lock.Fails? || f.read.Fails? || q.digest(config) != q.expected { return Refused; }
      var rendered := q.render(config);
      if rendered.None? { return Refused; }
      Backup(q.backup, f.backup);
      if f.backup.Fails? { return Refused; }
      var original := q.digest(config);
      var success := Success(Now(), q, f.wantsRestart);
      var done, runtimeAttempted := Proceed(q, rendered.value, success, f);
      if done {
        AppliedGuarded(old(Now()), Now(), q, f);
        return Applied(success);
      }
      outcome := RollBack(q, runtimeAttempted, original, f);
      RolledBackGuarded(old(Now()), Now(), q, f, outcome);
    }
  }
}
