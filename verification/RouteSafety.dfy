/** What a connect/disconnect cycle, a crash and a crash recovery leave in the registry. */
module RouteSafety {
  import opened Prelude
  import opened Text
  import opened Route

  /** The registry after the writes of `RestoreWrites`. */
  function Restored(reg: Registry, sv: Saved): Registry {
    if !sv.direct then Registry(1, sv.proxy, sv.bypass)
    else if sv.proxy != [] || sv.bypass != [] then Registry(0, sv.proxy, sv.bypass)
    else reg.(enable := 0)
  }

  function Own(hp: string, bypass: string): Registry {
    Registry(1, OwnSpec(hp), bypass)
  }

  lemma RestoreWritesResult(p: Proxy, sv: Saved)
    ensures PutAll(p, RestoreWrites(sv)) == p.(reg := Restored(p.reg, sv))
  {
    PutAllThree(p, Enable(1), Server(sv.proxy), Bypass(sv.bypass));
    PutAllOne(p, Enable(0));
    var some := ApplyWrites(Some((sv.proxy, sv.bypass)));
    PutAllAppend(p, some, [Enable(0)]);
    PutAllOne(PutAll(p, some), Enable(0));
  }

  lemma SetResult(p: Proxy, hp: string, bypass: string)
    requires p.saved.None?
    ensures var sv := Some(Sanitize(Query(p.reg), hp));
            Run(p, Set, hp, bypass) == Proxy(Own(hp, bypass), sv, sv)
  {
    var sv := Sanitize(Query(p.reg), hp);
    var ws := ApplyWrites(Some((OwnSpec(hp), bypass)));
    PutAllAppend(p, ws, [Remember(sv), StoreBackup(sv)]);
    PutAllThree(p, ws[0], ws[1], ws[2]);
    PutAllThree(PutAll(p, ws), Remember(sv), StoreBackup(sv), DropBackup);
  }

  lemma ClearResult(p: Proxy, hp: string, bypass: string)
    ensures Run(p, Clear, hp, bypass) ==
            if p.saved.None? then p else Proxy(Restored(p.reg, p.saved.value), None, None)
  {
    if p.saved.Some? {
      var ws := RestoreWrites(p.saved.value);
      PutAllAppend(p, [Forget] + ws, [DropBackup]);
      PutAllAppend(p, [Forget], ws);
      PutAllOne(p, Forget);
      RestoreWritesResult(Put(p, Forget), p.saved.value);
      PutAllOne(PutAll(p, [Forget] + ws), DropBackup);
    }
  }

  lemma RestoreResult(p: Proxy, hp: string, bypass: string)
    ensures Run(p, Restore, hp, bypass) ==
            if p.backup.Some? then Proxy(Restored(p.reg, p.backup.value), p.saved, None)
            else if Dangling(p.reg, hp) then p.(reg := p.reg.(enable := 0))
            else p
  {
    if p.backup.Some? {
      var ws := RestoreWrites(p.backup.value);
      PutAllAppend(p, ws, [DropBackup]);
      RestoreWritesResult(p, p.backup.value);
      PutAllOne(PutAll(p, ws), DropBackup);
    } else if Dangling(p.reg, hp) {
      PutAllOne(p, Enable(0));
    }
  }

  lemma EnsureResult(p: Proxy, hp: string, bypass: string)
    ensures Run(p, Ensure, hp, bypass) ==
            if p.reg.enable != 1 || p.reg.server != OwnSpec(hp)
            then p.(reg := Own(hp, bypass)) else p
  {
    PutAllThree(p, Enable(1), Server(OwnSpec(hp)), Bypass(bypass));
  }

  lemma PrimeResult(p: Proxy, hp: string, bypass: string)
    ensures Run(p, Prime, hp, bypass) == if p.backup.Some? then p.(saved := p.backup) else p
  {
    if p.backup.Some? {
      PutAllOne(p, Remember(p.backup.value));
    }
  }

  /** The proxy is on, and http and https traffic, and no other, is sent to this endpoint. */
  predicate SendsTo(reg: Registry, hp: string, bypass: string) {
    reg.enable == 1 && Targets(reg.server) == [ForScheme("http", hp), ForScheme("https", hp)] && reg.bypass == bypass
  }

  /** That is what a set and a re-assertion leave when no registry write fails. A re-assertion that finds the proxy on
      and its string as ours writes nothing, and leaves the bypass list alone. */
  lemma TrafficIsSentHere(p: Proxy, hp: string, bypass: string, budget: nat, backupOk: bool)
    requires Plain(hp) && budget >= 3
    ensures p.saved.None? ==> SendsTo(SetOutcome(p, hp, bypass, budget, backupOk).reg, hp, bypass)
    ensures var q := EnsureOutcome(p, hp, bypass, budget);
            && SendsTo(q.reg, hp, q.reg.bypass)
            && (q.reg.bypass == bypass || q == p)
  {
    OwnSpecTargets(hp);
    EnsureResult(p, hp, bypass);
    if p.saved.None? {
      var sv := Sanitize(Query(p.reg), hp);
      var ws := ApplyWrites(Some((OwnSpec(hp), bypass)));
      PutSomeAppend(p, ws, [Remember(sv), StoreBackup(sv)], if backupOk then 5 else 4);
      PutAllThree(p, ws[0], ws[1], ws[2]);
      PutAllThree(PutAll(p, ws), Remember(sv), StoreBackup(sv), DropBackup);
      assert [Remember(sv), StoreBackup(sv)][..1] == [Remember(sv)];
    }
    hide Targets, Plain;
  }

  /** A set holds a snapshot afterwards exactly when it reports success. */
  lemma SetKeepsSnapshot(p: Proxy, hp: string, bypass: string, budget: nat, backupOk: bool)
    ensures SetOutcome(p, hp, bypass, budget, backupOk).saved.Some? <==> SetSucceeds(p, budget)
    ensures p.saved.Some? ==> SetOutcome(p, hp, bypass, budget, backupOk) == p
  {
    if p.saved.None? {
      var ws := ApplyWrites(Some((OwnSpec(hp), bypass)));
      var sv := Sanitize(Query(p.reg), hp);
      var cut := if budget < 3 then budget else if backupOk then 5 else 4;
      PutSomeAppend(p, ws, [Remember(sv), StoreBackup(sv)], cut);
      RegistryWritesOnly(p, ws, cut);
      PutAllThree(PutAll(p, ws), Remember(sv), StoreBackup(sv), DropBackup);
      assert [Remember(sv), StoreBackup(sv)][..1] == [Remember(sv)];
    }
  }

  /** A clear forgets the snapshot in every case, even when the registry could not be restored. */
  lemma ClearDropsSnapshot(p: Proxy, budget: nat)
    ensures ClearOutcome(p, budget).saved.None?
  {
    if p.saved.Some? {
      var q, ws := Put(p, Forget), RestoreWrites(p.saved.value);
      var cut := if budget < |ws| then budget else 1 + |ws|;
      PutAllOne(p, Forget);
      assert [Forget] + ws + [DropBackup] == [Forget] + (ws + [DropBackup]);
      PutSomeAppend(p, [Forget], ws + [DropBackup], 1 + cut);
      PutSomeAppend(q, ws, [DropBackup], cut);
      RegistryWritesOnly(q, ws, cut);
      PutAllOne(PutAll(q, ws), DropBackup);
    }
  }

  /** A successful clear of a held snapshot removes its copy on disk as well. */
  lemma ClearDropsBackup(p: Proxy, budget: nat)
    requires p.saved.Some? && ClearSucceeds(p, budget)
    ensures ClearOutcome(p, budget) == Proxy(Restored(p.reg, p.saved.value), None, None)
  {
    ClearResult(p, "", "");
  }

  lemma BootWritesKeepSnapshot(p: Proxy, hp: string, bypass: string, budget: nat)
    ensures RestoreOutcome(p, hp, budget).saved == p.saved
    ensures EnsureOutcome(p, hp, bypass, budget).saved == p.saved
    ensures p.backup.None? ==> RestoreOutcome(p, hp, budget).backup.None?
    ensures EnsureOutcome(p, hp, bypass, budget).backup == p.backup
    ensures Run(p, Prime, hp, bypass).saved == if p.backup.Some? then p.backup else p.saved
  {
    PrimeResult(p, hp, bypass);
    RegistryWritesOnly(p, Writes(p, Ensure, hp, bypass), budget);
    RegistryWritesOnly(p, if p.backup.Some? then RestoreWrites(p.backup.value)
                          else Writes(p, Restore, hp, ""), budget);
  }

  // ---------- One cycle ----------

  /** Connect, then disconnect. */
  function Cycle(p: Proxy, hp: string, bypass: string): Proxy {
    Run(Run(p, Set, hp, bypass), Clear, hp, bypass)
  }

  function AfterCycle(reg: Registry, hp: string, bypass: string): Registry {
    Restored(Own(hp, bypass), Sanitize(Query(reg), hp))
  }

  lemma CycleResult(p: Proxy, hp: string, bypass: string)
    requires p.saved.None?
    ensures Cycle(p, hp, bypass) == Proxy(AfterCycle(p.reg, hp, bypass), None, None)
  {
    SetResult(p, hp, bypass);
    ClearResult(Run(p, Set, hp, bypass), hp, bypass);
  }

  /** Exactly when a cycle gives the user back what was there. The enable flag survives unless
      the registry already pointed at our own inbound; the two strings survive unless the proxy
      was off with both strings empty, or was our own orphan with other strings. */
  lemma CycleRestoresExactly(p: Proxy, hp: string, bypass: string)
    requires p.saved.None?
    ensures var r := Cycle(p, hp, bypass).reg;
            && ((r.enable == 1 <==> p.reg.enable == 1) <==> !Dangling(p.reg, hp))
            && ((r.server, r.bypass) == (p.reg.server, p.reg.bypass) <==>
                if Dangling(p.reg, hp) then (p.reg.server, p.reg.bypass) == (OwnSpec(hp), bypass)
                else p.reg.enable == 1 || p.reg.server != [] || p.reg.bypass != [])
  {
    CycleResult(p, hp, bypass);
    assert OwnSpec(hp)[0] == 'h';
  }

  /** A second cycle changes nothing more. */
  lemma CycleIsIdempotent(p: Proxy, hp: string, bypass: string)
    requires p.saved.None?
    ensures Cycle(Cycle(p, hp, bypass), hp, bypass) == Cycle(p, hp, bypass)
  {
    CycleResult(p, hp, bypass);
    CycleResult(Cycle(p, hp, bypass), hp, bypass);
    assert OwnSpec(hp)[0] == 'h';
  }

  function RunAll(p: Proxy, ops: seq<Op>, hp: string, bypass: string): Proxy
    decreases ops
  {
    if ops == [] then p else RunAll(Run(p, ops[0], hp, bypass), ops[1..], hp, bypass)
  }

  /** While connected, no sequence of further set, ensure and prime calls disturbs anything:
      the snapshot taken first is the one that a later clear restores. */
  lemma {:induction false} SnapshotIsNeverOverwritten(p: Proxy, ops: seq<Op>, hp: string, bypass: string)
    requires p.saved.None?
    requires forall i | 0 <= i < |ops| :: ops[i] == Set || ops[i] == Ensure || ops[i] == Prime
    ensures var q := Run(p, Set, hp, bypass);
            RunAll(q, ops, hp, bypass) == q && Run(q, Clear, hp, bypass) == Cycle(p, hp, bypass)
    decreases ops
  {
    var q := Run(p, Set, hp, bypass);
    SetResult(p, hp, bypass);
    if ops != [] {
      EnsureResult(q, hp, bypass);
      PrimeResult(q, hp, bypass);
      assert Run(q, ops[0], hp, bypass) == q;
      SnapshotIsNeverOverwritten(p, ops[1..], hp, bypass);
    }
  }

  // ---------- Crashes ----------

  /** A snapshot that would switch our own endpoint on. */
  predicate Poisoned(sv: Option<Saved>, hp: string) {
    sv.Some? && !sv.value.direct && References(sv.value.proxy, hp)
  }

  predicate Clean(p: Proxy, hp: string) {
    !Poisoned(p.saved, hp) && !Poisoned(p.backup, hp)
  }

  /** An operation cut after some of its writes, with or without a crash; a crash recovery whose
      registry write failed, which drops the backup all the same; or someone else's registry edit. */
  datatype Event = Did(op: Op, cut: nat, crash: bool) | FailedRestore(cut: nat) | Edited(reg: Registry)

  function Happen(p: Proxy, e: Event, hp: string, bypass: string): Proxy {
    match e
    case Did(op, cut, crash) =>
      var q := PutSome(p, Writes(p, op, hp, bypass), cut);
      if crash then Crash(q) else q
    case FailedRestore(cut) =>
      if p.backup.None? then p
      else Put(PutSome(p, RestoreWrites(p.backup.value), cut), DropBackup)
    case Edited(reg) => p.(reg := reg)
  }

  function HappenAll(p: Proxy, es: seq<Event>, hp: string, bypass: string): Proxy
    decreases es
  {
    if es == [] then p else HappenAll(Happen(p, es[0], hp, bypass), es[1..], hp, bypass)
  }

  predicate CleanWrite(w: Write, hp: string) {
    match w
    case Remember(sv) => !Poisoned(Some(sv), hp)
    case StoreBackup(sv) => !Poisoned(Some(sv), hp)
    case _ => true
  }

  lemma {:induction false} CleanWritesKeepClean(p: Proxy, ws: seq<Write>, hp: string)
    requires Clean(p, hp) && forall i | 0 <= i < |ws| :: CleanWrite(ws[i], hp)
    ensures Clean(PutAll(p, ws), hp)
    decreases ws
  {
    if ws != [] {
      assert CleanWrite(ws[0], hp);
      CleanWritesKeepClean(Put(p, ws[0]), ws[1..], hp);
    }
  }

  lemma WritesAreClean(p: Proxy, op: Op, hp: string, bypass: string)
    requires Clean(p, hp)
    ensures forall i | 0 <= i < |Writes(p, op, hp, bypass)| :: CleanWrite(Writes(p, op, hp, bypass)[i], hp)
  {
  }

  lemma HappenKeepsClean(p: Proxy, e: Event, hp: string, bypass: string)
    requires Clean(p, hp)
    ensures Clean(Happen(p, e, hp, bypass), hp)
  {
    var ws := if e.Did? then Writes(p, e.op, hp, bypass)
              else if p.backup.Some? then RestoreWrites(p.backup.value) else [];
    if e.Did? {
      WritesAreClean(p, e.op, hp, bypass);
    }
    CleanWritesKeepClean(p, ws, hp);
    if !e.Edited? {
      CleanWritesKeepClean(p, if e.cut < |ws| then ws[..e.cut] else ws, hp);
    }
  }

  lemma ClearIgnoresEndpoint(p: Proxy, hp: string, bypass: string)
    ensures Writes(p, Clear, "", "") == Writes(p, Clear, hp, bypass)
  {
  }

  lemma PrefixKeepsClean(p: Proxy, ws: seq<Write>, n: nat, hp: string)
    requires Clean(p, hp) && forall i | 0 <= i < |ws| :: CleanWrite(ws[i], hp)
    ensures Clean(PutSome(p, ws, n), hp)
  {
    CleanWritesKeepClean(p, if n < |ws| then ws[..n] else ws, hp);
  }

  /** No outcome of any operation stores our own endpoint as an enabled proxy. */
  lemma OutcomesKeepClean(p: Proxy, hp: string, bypass: string, budget: nat, backupOk: bool)
    requires Clean(p, hp)
    ensures Clean(SetOutcome(p, hp, bypass, budget, backupOk), hp)
    ensures Clean(ClearOutcome(p, budget), hp)
    ensures Clean(RestoreOutcome(p, hp, budget), hp)
    ensures Clean(EnsureOutcome(p, hp, bypass, budget), hp)
    ensures Clean(Run(p, Prime, hp, bypass), hp)
  {
    hide Writes, PutSome;
    WritesAreClean(p, Set, hp, bypass);
    PrefixKeepsClean(p, Writes(p, Set, hp, bypass),
                     if budget < 3 then budget else if backupOk then 5 else 4, hp);
    WritesAreClean(p, Clear, hp, bypass);
    assert Writes(p, Clear, "", "") == Writes(p, Clear, hp, bypass) by { ClearIgnoresEndpoint(p, hp, bypass); }
    if p.saved.Some? {
      var n := |RestoreWrites(p.saved.value)|;
      PrefixKeepsClean(p, Writes(p, Clear, "", ""), if budget < n then 1 + budget else 2 + n, hp);
    }
    WritesAreClean(p, Restore, hp, "");
    PrefixKeepsClean(p, Writes(p, Restore, hp, ""), budget, hp);
    if p.backup.Some? {
      PrefixKeepsClean(p, RestoreWrites(p.backup.value), budget, hp);
    }
    WritesAreClean(p, Ensure, hp, bypass);
    PrefixKeepsClean(p, Writes(p, Ensure, hp, bypass), budget, hp);
    PrimeResult(p, hp, bypass);
  }

  /** Whatever is interrupted wherever, neither the memory nor the backup file ever holds our own
      endpoint as an enabled proxy. */
  lemma {:induction false} SnapshotsStayClean(p: Proxy, es: seq<Event>, hp: string, bypass: string)
    requires Clean(p, hp)
    ensures Clean(HappenAll(p, es, hp, bypass), hp)
    decreases es
  {
    if es != [] {
      HappenKeepsClean(p, es[0], hp, bypass);
      SnapshotsStayClean(Happen(p, es[0], hp, bypass), es[1..], hp, bypass);
    }
  }

  /** After any such history, one completed crash recovery leaves no dead proxy; and a recovery that
      is itself interrupted after `cut` writes ends, when run again, in the same registry. */
  lemma RecoveryIsSafeAndRepeatable(start: Proxy, es: seq<Event>, cut: nat, hp: string, bypass: string)
    requires Clean(start, hp)
    ensures var p := HappenAll(start, es, hp, bypass);
            var once := Run(p, Restore, hp, bypass);
            && !Dangling(once.reg, hp)
            && Run(Happen(p, Did(Restore, cut, true), hp, bypass), Restore, hp, bypass).reg == once.reg
  {
    SnapshotsStayClean(start, es, hp, bypass);
    var p := HappenAll(start, es, hp, bypass);
    RestoreResult(p, hp, bypass);
    var ws := Writes(p, Restore, hp, bypass);
    var q := Happen(p, Did(Restore, cut, true), hp, bypass);
    RestoreResult(q, hp, bypass);
    if p.backup.Some? {
      if cut <= |ws| - 1 {
        CutKeepsBackup(p, RestoreWrites(p.backup.value), cut);
        PutSomeAppend(p, RestoreWrites(p.backup.value), [DropBackup], cut);
      }
    } else if cut == 0 {
      assert ws != [] ==> ws[..0] == [];
    }
  }

  lemma CutKeepsBackup(p: Proxy, ws: seq<Write>, cut: nat)
    requires p.backup.Some? && ws == RestoreWrites(p.backup.value)
    ensures PutSome(p, ws, cut).backup == p.backup
    ensures p.backup.value == DIRECT ==>
              (PutSome(p, ws, cut).reg.server, PutSome(p, ws, cut).reg.bypass) == (p.reg.server, p.reg.bypass)
  {
    RegistryWritesOnly(p, ws, cut);
    if p.backup.value == DIRECT {
      PutAllOne(p, Enable(0));
      assert cut == 0 ==> ws[..cut] == [];
    }
  }

  lemma {:induction false} RegistryWritesOnly(p: Proxy, ws: seq<Write>, cut: nat)
    requires forall i | 0 <= i < |ws| :: ws[i].Enable? || ws[i].Server? || ws[i].Bypass?
    ensures PutSome(p, ws, cut).(reg := p.reg) == p
    decreases ws
  {
    if ws != [] && cut > 0 {
      RegistryWritesOnly(Put(p, ws[0]), ws[1..], cut - 1);
      if cut < |ws| {
        assert ws[..cut][1..] == ws[1..][..cut - 1];
      }
    } else {
      assert ws[..0] == [];
    }
  }

  /** Restoring these settings, when only the first `budget` registry writes succeed, will leave our endpoint
      enabled. Without any write nothing improves; a user's proxy is still missing its address after the first
      write; and a disabled baseline that carries our own address is enabled until the last of four writes. */
  predicate CutLeavesDeadProxy(reg: Registry, sv: Saved, hp: string, budget: nat) {
    if budget == 0 then Dangling(reg, hp)
    else if sv.direct && sv.proxy == [] && sv.bypass == [] then false
    else if budget == 1 then References(reg.server, hp)
    else sv.direct && budget <= 3 && References(sv.proxy, hp)
  }

  /** So will a crash recovery, with a backup or without. */
  predicate LeavesDeadProxy(p: Proxy, hp: string, budget: nat) {
    if p.backup.Some? then CutLeavesDeadProxy(p.reg, p.backup.value, hp, budget) else budget == 0 && Dangling(p.reg, hp)
  }

  /** So will a clear, with a snapshot or without. */
  predicate ClearLeavesDeadProxy(p: Proxy, hp: string, budget: nat) {
    if p.saved.Some? then CutLeavesDeadProxy(p.reg, p.saved.value, hp, budget) else Dangling(p.reg, hp)
  }

  lemma RegistryAfter(p: Proxy, sv: Saved, budget: nat)
    ensures var q := PutSome(p, RestoreWrites(sv), budget);
            if budget == 0 then q == p
            else if sv.direct && sv.proxy == [] && sv.bypass == [] then q.reg == p.reg.(enable := 0)
            else if budget == 1 then q.reg == p.reg.(enable := 1)
            else q.reg.server == sv.proxy && (q.reg.enable == 1 <==> !sv.direct || budget <= 3)
  {
    var ws := RestoreWrites(sv);
    var some := ApplyWrites(Some((sv.proxy, sv.bypass)));
    PutAllThree(p, Enable(1), Server(sv.proxy), Bypass(sv.bypass));
    PutAllOne(p, Enable(0));
    PutAllAppend(p, some, [Enable(0)]);
    PutAllOne(PutAll(p, some), Enable(0));
    assert ws[..0] == [];
    if sv.direct && sv.proxy == [] && sv.bypass == [] {
      assert ws == [Enable(0)];
    } else {
      assert ws[..1] == [Enable(1)];
      assert ws[..2] == [Enable(1), Server(sv.proxy)];
      assert ws[..3] == some;
    }
  }

  /** Exactly when a crash recovery leaves a dead proxy, whichever of its registry writes fails: the backup is
      dropped all the same. */
  lemma RecoveryLeavesDeadProxy(p: Proxy, hp: string, budget: nat)
    requires Clean(p, hp)
    ensures Dangling(RestoreOutcome(p, hp, budget).reg, hp) <==> LeavesDeadProxy(p, hp, budget)
    ensures RestoreOutcome(p, hp, budget).backup.None?
  {
    if p.backup.Some? {
      RegistryAfter(p, p.backup.value, budget);
      hide PutSome, RestoreWrites, References;
    } else {
      RegistryWritesOnly(p, Writes(p, Restore, hp, ""), budget);
      PutAllOne(p, Enable(0));
      assert budget == 0 && Dangling(p.reg, hp) ==> ApplyWrites(None)[..0] == [];
      hide References;
    }
  }

  /** Exactly when a clear leaves a dead proxy. The backup is kept if a write failed. */
  lemma ClearLeavesDeadProxyExactly(p: Proxy, hp: string, budget: nat)
    requires Clean(p, hp)
    ensures Dangling(ClearOutcome(p, budget).reg, hp) <==> ClearLeavesDeadProxy(p, hp, budget)
    ensures p.saved.Some? ==> ClearOutcome(p, budget).backup == if ClearSucceeds(p, budget) then None else p.backup
  {
    if p.saved.Some? {
      var sv, q, ws := p.saved.value, Put(p, Forget), RestoreWrites(p.saved.value);
      var cut := if budget < |ws| then budget else 1 + |ws|;
      PutAllOne(p, Forget);
      assert [Forget] + ws + [DropBackup] == [Forget] + (ws + [DropBackup]);
      PutSomeAppend(p, [Forget], ws + [DropBackup], 1 + cut);
      PutSomeAppend(q, ws, [DropBackup], cut);
      RegistryWritesOnly(q, ws, cut);
      PutAllOne(PutAll(q, ws), DropBackup);
      RegistryAfter(q, sv, budget);
      hide References;
    }
  }

  /** A set that stops at a failing write has remembered nothing, neither in memory nor on disk, and leaves our
      endpoint enabled as soon as its address is written, or earlier if it was there before. */
  predicate CutSetLeavesDeadProxy(reg: Registry, hp: string, written: nat) {
    if written == 0 then Dangling(reg, hp) else if written == 1 then References(reg.server, hp) else true
  }

  lemma CutSetLeavesDeadProxyExactly(p: Proxy, hp: string, bypass: string, budget: nat, backupOk: bool)
    requires Plain(hp) && !SetSucceeds(p, budget)
    ensures var q := SetOutcome(p, hp, bypass, budget, backupOk);
            && (Dangling(q.reg, hp) <==> CutSetLeavesDeadProxy(p.reg, hp, budget))
            && q == p.(reg := q.reg) && q.saved.None?
  {
    var sv := Sanitize(Query(p.reg), hp);
    var ws := ApplyWrites(Some((OwnSpec(hp), bypass)));
    PutSomeAppend(p, ws, [Remember(sv), StoreBackup(sv)], budget);
    PutAllThree(p, ws[0], ws[1], ws[2]);
    assert ws[..0] == [] && ws[..1] == [ws[0]] && ws[..2] == [ws[0], ws[1]];
    OwnSpecIsReferenced(hp);
    hide References;
  }

  /** One more recovery repairs it if a single registry write then succeeds, and not otherwise. */
  lemma FailedRecoveryNeedsASecondStart(p: Proxy, hp: string, budget: nat, again: nat)
    requires Clean(p, hp)
    ensures var q := Crash(RestoreOutcome(p, hp, budget));
            Dangling(RestoreOutcome(q, hp, again).reg, hp) <==> LeavesDeadProxy(p, hp, budget) && again == 0
  {
    hide RestoreOutcome, Dangling, References;
    RecoveryLeavesDeadProxy(p, hp, budget);
    var q := Crash(RestoreOutcome(p, hp, budget));
    RecoveryLeavesDeadProxy(q, hp, again);
  }

  /** Three ways to get there from a connection that was up: nothing can be written; a user's proxy is cut
      after one write; and a disabled baseline that named us is switched on without being switched off. */
  lemma DeadProxyInstances(hp: string, bypass: string, user: Saved)
    requires Plain(hp) && !Poisoned(Some(user), hp)
    ensures var p := Proxy(Own(hp, bypass), None, Some(user));
            && LeavesDeadProxy(p, hp, 0)
            && (LeavesDeadProxy(p, hp, 1) <==> user != DIRECT)
            && (LeavesDeadProxy(p, hp, 3) <==> References(user.proxy, hp))
  {
    OwnSpecIsReferenced(hp);
    EmptyNamesNobody(hp);
    hide References;
  }

  lemma EmptyNamesNobody(hp: string)
    requires hp != []
    ensures !References("", hp)
  {
    assert Split("", ';') == [""];
    assert Trim("") == "";
    assert "http=" + hp != "" && "https=" + hp != "" && "socks=" + hp != "";
  }

  /** Crash while connected, reconnect automatically, disconnect: the user gets the registry of an
      uninterrupted cycle, whatever happened to the live values while the service was down, unless
      only the enable flag is restored; then the values must still be ours. */
  lemma CrashAndReconnectRestores(p: Proxy, found: Registry, hp: string, bypass: string)
    requires p.saved.None?
    ensures var down := Crash(Run(p, Set, hp, bypass)).(reg := found);
            var live := RunAll(down, [Prime, Set, Ensure], hp, bypass);
            var end := Run(live, Clear, hp, bypass);
            end.reg == Cycle(p, hp, bypass).reg <==>
              found.server != OwnSpec(hp) || found.bypass == bypass || found.enable != 1
              || Sanitize(Query(p.reg), hp).proxy != [] || Sanitize(Query(p.reg), hp).bypass != []
              || !Sanitize(Query(p.reg), hp).direct
  {
    SetResult(p, hp, bypass);
    CycleResult(p, hp, bypass);
    var down := Crash(Run(p, Set, hp, bypass)).(reg := found);
    var primed := Run(down, Prime, hp, bypass);
    PrimeResult(down, hp, bypass);
    assert Run(primed, Set, hp, bypass) == primed;
    EnsureResult(primed, hp, bypass);
    var live := Run(primed, Ensure, hp, bypass);
    assert RunAll(down, [Prime, Set, Ensure], hp, bypass) == live by {
      assert [Prime, Set, Ensure][1..] == [Set, Ensure] && [Set, Ensure][1..] == [Ensure];
      assert RunAll(primed, [Set, Ensure], hp, bypass) == RunAll(primed, [Ensure], hp, bypass);
      assert [Ensure][1..] == [] && RunAll(live, [], hp, bypass) == live;
      assert RunAll(primed, [Ensure], hp, bypass) == live;
    }
    ClearResult(live, hp, bypass);
  }
}
