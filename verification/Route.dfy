/** System-proxy control: the three registry values, the in-memory snapshot of the user's
    settings and its copy on disk. Every operation is a list of single writes, so that a crash
    or a failing write is a prefix of that list. */
module Route {
  import opened Prelude
  import opened Text

  /** ProxyEnable, ProxyServer and ProxyOverride; a missing value reads as 0 or "". */
  datatype Registry = Registry(enable: nat, server: string, bypass: string)

  datatype Saved = Saved(proxy: string, bypass: string, direct: bool)

  /** The registry, the in-memory snapshot and the backup file. */
  datatype Proxy = Proxy(reg: Registry, saved: Option<Saved>, backup: Option<Saved>)

  datatype Write = Enable(flag: nat) | Server(server: string) | Bypass(bypass: string)
                 | Remember(saved: Saved) | Forget | StoreBackup(saved: Saved) | DropBackup

  const DIRECT := Saved("", "", true)

  // ---------- Endpoint recognition ----------

  predicate Names(part: string, hp: string) {
    part == hp || part == "http=" + hp || part == "https=" + hp || part == "socks=" + hp
  }

  /** Does a ProxyServer string name our own inbound? */
  predicate References(spec: string, hp: string) {
    var parts := Split(spec, ';');
    exists i | 0 <= i < |parts| :: Names(Trim(parts[i]), hp)
  }

  function OwnSpec(hp: string): string {
    "http=" + hp + ";https=" + hp
  }

  function Endpoint(port: nat): string {
    "127.0.0.1:" + Decimal(port)
  }

  /** Text that can stand for an endpoint: one part, nothing for `trim` to remove. */
  predicate Plain(hp: string) {
    hp != [] && ';' !in hp && !IsSpace(hp[0]) && !IsSpace(hp[|hp| - 1])
  }

  /** What the service writes is recognised as its own after a restart. */
  lemma OwnSpecIsReferenced(hp: string)
    requires Plain(hp)
    ensures References(OwnSpec(hp), hp)
  {
    var a, b := "http=" + hp, "https=" + hp;
    assert OwnSpec(hp) == a + [';'] + b;
    SplitAppend(a, ';', b);
    SplitWithout(a, ';');
    SplitWithout(b, ';');
    TrimNoSpace(a);
    assert Split(OwnSpec(hp), ';')[0] == a;
    assert Names(Trim(Split(OwnSpec(hp), ';')[0]), hp);
  }

  // ---------- What a ProxyServer string says ----------

  /** One part of it: an address, for one scheme or for all. */
  datatype Target = ForAll(address: string) | ForScheme(scheme: string, address: string)

  function TargetOf(part: string): Target {
    match SplitOnce(Trim(part), '=')
    case None => ForAll(Trim(part))
    case Some((scheme, address)) => ForScheme(scheme, address)
  }

  function Targets(spec: string): seq<Target> {
    var parts := Split(spec, ';');
    seq(|parts|, i requires 0 <= i < |parts| => TargetOf(parts[i]))
  }

  /** What the service writes sends http and https to its own endpoint, and names nothing else. */
  lemma OwnSpecTargets(hp: string)
    requires Plain(hp)
    ensures Targets(OwnSpec(hp)) == [ForScheme("http", hp), ForScheme("https", hp)]
  {
    var a, b := "http=" + hp, "https=" + hp;
    assert "http=" == "http" + ['='] && "https=" == "https" + ['='];
    assert OwnSpec(hp) == a + [';'] + b;
    SplitAppend(a, ';', b);
    SplitWithout(a, ';');
    SplitWithout(b, ';');
    TrimNoSpace(a);
    TrimNoSpace(b);
    SplitOnceMeans(a, '=', "http", hp);
    SplitOnceMeans(b, '=', "https", hp);
    assert a == "http" + ['='] + hp && b == "https" + ['='] + hp;
    assert Split(OwnSpec(hp), ';') == [a, b];
  }

  predicate Ours(t: Target, hp: string) {
    t.address == hp && (t.ForScheme? ==> t.scheme == "http" || t.scheme == "https" || t.scheme == "socks")
  }

  /** A string references our endpoint exactly when it sends http, https, socks or everything there. */
  lemma ReferencesMeans(spec: string, hp: string)
    requires '=' !in hp
    ensures References(spec, hp) <==> exists i | 0 <= i < |Targets(spec)| :: Ours(Targets(spec)[i], hp)
  {
    var parts := Split(spec, ';');
    forall i | 0 <= i < |parts| ensures Names(Trim(parts[i]), hp) <==> Ours(Targets(spec)[i], hp) {
      NamesMeans(Trim(parts[i]), hp);
    }
    if References(spec, hp) {
      var i :| 0 <= i < |parts| && Names(Trim(parts[i]), hp);
      assert Ours(Targets(spec)[i], hp);
    }
    if i :| 0 <= i < |Targets(spec)| && Ours(Targets(spec)[i], hp) {
      assert Names(Trim(parts[i]), hp);
    }
  }

  lemma NamesMeans(part: string, hp: string)
    requires '=' !in hp
    ensures Names(part, hp) <==>
            match SplitOnce(part, '=')
            case None => part == hp
            case Some((scheme, address)) =>
              address == hp && (scheme == "http" || scheme == "https" || scheme == "socks")
  {
    assert "http=" + hp == "http" + ['='] + hp && "https=" + hp == "https" + ['='] + hp;
    assert "socks=" + hp == "socks" + ['='] + hp;
    SplitOnceMeans(part, '=', "http", hp);
    SplitOnceMeans(part, '=', "https", hp);
    SplitOnceMeans(part, '=', "socks", hp);
    match SplitOnce(part, '=')
    case None =>
    case Some((a, b)) => SplitOnceMeans(part, '=', a, b);
  }

  /** Our endpoint is the loopback address and the port in decimal. */
  lemma EndpointMeans(port: nat)
    ensures SplitOnce(Endpoint(port), ':') == Some(("127.0.0.1", Decimal(port))) && '=' !in Endpoint(port)
    ensures DigitsValue(Decimal(port)) == Some(port)
  {
    DecimalRoundTrip(port);
    var host, d := "127.0.0.1", Decimal(port);
    assert ':' !in host && '=' !in host && '=' !in d;
    hide Decimal, DigitsValue, SplitOnce;
    assert Endpoint(port) == host + [':'] + d;
    SplitOnceMeans(Endpoint(port), ':', host, d);
  }

  lemma EndpointIsPlain(port: nat)
    ensures Plain(Endpoint(port))
  {
    var e, d := Endpoint(port), Decimal(port);
    assert e[|e| - 1] == d[|d| - 1];
    forall i | 0 <= i < |e| ensures e[i] != ';' {
      assert i >= 10 ==> e[i] == d[i - 10];
    }
  }

  /** A port never matches another one that merely starts with the same digits. */
  lemma EndpointsDoNotCollide(port: nat, other: nat)
    ensures References(Endpoint(other), Endpoint(port)) <==> port == other
  {
    EndpointIsPlain(other);
    SplitWithout(Endpoint(other), ';');
    TrimNoSpace(Endpoint(other));
    assert Split(Endpoint(other), ';')[0] == Endpoint(other);
    DecimalRoundTrip(port);
    DecimalRoundTrip(other);
    assert Endpoint(port)[10..] == Decimal(port) && Endpoint(other)[10..] == Decimal(other);
    assert Endpoint(other)[0] == '1' && ("http=" + Endpoint(port))[0] == 'h';
    assert ("https=" + Endpoint(port))[0] == 'h' && ("socks=" + Endpoint(port))[0] == 's';
  }

  // ---------- Operations as lists of writes ----------

  function Query(reg: Registry): Saved {
    Saved(reg.server, reg.bypass, reg.enable != 1)
  }

  /** The baseline worth remembering: our own orphaned endpoint counts as "direct". */
  function Sanitize(previous: Saved, hp: string): Saved {
    if !previous.direct && References(previous.proxy, hp) then DIRECT else previous
  }

  function Put(p: Proxy, w: Write): Proxy {
    match w
    case Enable(flag) => p.(reg := p.reg.(enable := flag))
    case Server(s) => p.(reg := p.reg.(server := s))
    case Bypass(s) => p.(reg := p.reg.(bypass := s))
    case Remember(sv) => p.(saved := Some(sv))
    case Forget => p.(saved := None)
    case StoreBackup(sv) => p.(backup := Some(sv))
    case DropBackup => p.(backup := None)
  }

  function PutAll(p: Proxy, ws: seq<Write>): Proxy
    decreases ws
  {
    if ws == [] then p else PutAll(Put(p, ws[0]), ws[1..])
  }

  /** The first `n` writes only. */
  function PutSome(p: Proxy, ws: seq<Write>, n: nat): Proxy {
    if n < |ws| then PutAll(p, ws[..n]) else PutAll(p, ws)
  }

  function ApplyWrites(spec: Option<(string, string)>): seq<Write> {
    match spec
    case Some((proxy, bypass)) => [Enable(1), Server(proxy), Bypass(bypass)]
    case None => [Enable(0)]
  }

  function RestoreWrites(sv: Saved): seq<Write> {
    if !sv.direct then ApplyWrites(Some((sv.proxy, sv.bypass)))
    else if sv.proxy != [] || sv.bypass != [] then
      ApplyWrites(Some((sv.proxy, sv.bypass))) + ApplyWrites(None)
    else ApplyWrites(None)
  }

  datatype Op = Set | Clear | Prime | Restore | Ensure

  function Writes(p: Proxy, op: Op, hp: string, bypass: string): seq<Write> {
    match op
    case Set =>
      if p.saved.Some? then []
      else
        var sv := Sanitize(Query(p.reg), hp);
        ApplyWrites(Some((OwnSpec(hp), bypass))) + [Remember(sv), StoreBackup(sv)]
    case Clear =>
      if p.saved.None? then [] else [Forget] + RestoreWrites(p.saved.value) + [DropBackup]
    case Prime =>
      if p.backup.None? then [] else [Remember(p.backup.value)]
    case Restore =>
      if p.backup.Some? then RestoreWrites(p.backup.value) + [DropBackup]
      else if Dangling(p.reg, hp) then ApplyWrites(None)
      else []
    case Ensure =>
      if p.reg.enable != 1 || p.reg.server != OwnSpec(hp)
      then ApplyWrites(Some((OwnSpec(hp), bypass))) else []
  }

  /** The effective registry sends the machine to our inbound. */
  predicate Dangling(reg: Registry, hp: string) {
    reg.enable == 1 && References(reg.server, hp)
  }

  function Run(p: Proxy, op: Op, hp: string, bypass: string): Proxy {
    PutAll(p, Writes(p, op, hp, bypass))
  }

  /** A crash loses the memory and nothing else. */
  function Crash(p: Proxy): Proxy {
    p.(saved := None)
  }

  // ---------- Outcomes when only `budget` registry writes succeed ----------

  /** A failed registry write leaves the values written so far and remembers nothing; a failed
      backup write is only logged. */
  function SetOutcome(p: Proxy, hp: string, bypass: string, budget: nat, backupOk: bool): Proxy {
    PutSome(p, Writes(p, Set, hp, bypass), if budget < 3 then budget else if backupOk then 5 else 4)
  }

  predicate SetSucceeds(p: Proxy, budget: nat) {
    p.saved.Some? || budget >= 3
  }

  /** The snapshot is taken out of memory first; the backup goes only after full success. */
  function ClearOutcome(p: Proxy, budget: nat): Proxy {
    if p.saved.None? then p
    else
      var n := |RestoreWrites(p.saved.value)|;
      PutSome(p, Writes(p, Clear, "", ""), if budget < n then 1 + budget else 2 + n)
  }

  predicate ClearSucceeds(p: Proxy, budget: nat) {
    p.saved.None? || budget >= |RestoreWrites(p.saved.value)|
  }

  /** Unlike a clear, a crash recovery drops the backup even when a registry write failed. */
  function RestoreOutcome(p: Proxy, hp: string, budget: nat): Proxy {
    if p.backup.Some? then Put(PutSome(p, RestoreWrites(p.backup.value), budget), DropBackup)
    else PutSome(p, Writes(p, Restore, hp, ""), budget)
  }

  function EnsureOutcome(p: Proxy, hp: string, bypass: string, budget: nat): Proxy {
    PutSome(p, Writes(p, Ensure, hp, bypass), budget)
  }

  // ---------- The manager ----------

  class RouteManager {
    var reg: Registry
    var saved: Option<Saved>
    var backup: Option<Saved>

    function State(): Proxy
      reads this
    {
      Proxy(reg, saved, backup)
    }

    constructor (reg: Registry, backup: Option<Saved>)
      ensures State() == Proxy(reg, None, backup)
    {
      this.reg, this.saved, this.backup := reg, None, backup;
    }

    /** Writes registry values until one of them fails: `budget` of them succeed. */
    method Apply(spec: Option<(string, string)>, budget: nat) returns (ok: bool, left: nat)
      modifies this`reg
      ensures State() == PutSome(old(State()), ApplyWrites(spec), budget)
      ensures ok <==> budget >= |ApplyWrites(spec)|
      ensures ok ==> left == budget - |ApplyWrites(spec)|
    {
      left := budget;
      ghost var before := State();
      if left == 0 {
        assert ApplyWrites(spec)[..0] == [];
        return false, 0;
      }
      match spec {
        case Some((proxy, bypass)) =>
          ghost var ws := ApplyWrites(spec);
          PutAllThree(before, ws[0], ws[1], ws[2]);
          assert ws[..1] == [ws[0]] && ws[..2] == [ws[0], ws[1]] && ws[..3] == ws;
          reg := reg.(enable := 1);
          if left == 1 { return false, 0; }
          reg := reg.(server := proxy);
          if left == 2 { return false, 0; }
          reg := reg.(bypass := bypass);
          return true, left - 3;
        case None =>
          PutAllOne(before, Enable(0));
          assert ApplyWrites(spec)[..1] == [Enable(0)];
          reg := reg.(enable := 0);
          return true, left - 1;
      }
    }

    method RestoreFrom(sv: Saved, budget: nat) returns (ok: bool)
      modifies this`reg
      ensures State() == PutSome(old(State()), RestoreWrites(sv), budget)
      ensures ok <==> budget >= |RestoreWrites(sv)|
    {
      var left := budget;
      if sv.direct {
        if sv.proxy != [] || sv.bypass != [] {
          PutSomeAppend(State(), ApplyWrites(Some((sv.proxy, sv.bypass))), ApplyWrites(None), budget);
          ok, left := Apply(Some((sv.proxy, sv.bypass)), left);
          if !ok { return; }
        }
        ok, left := Apply(None, left);
      } else {
        ok, left := Apply(Some((sv.proxy, sv.bypass)), left);
      }
    }

    method SetSystemProxy(hp: string, bypass: string, budget: nat, backupOk: bool) returns (ok: bool)
      modifies this
      ensures ok <==> SetSucceeds(old(State()), budget)
      ensures State() == SetOutcome(old(State()), hp, bypass, budget, backupOk)
    {
      if saved.Some? { return true; }
      ghost var before := State();
      var previous := Query(reg);
      if !previous.direct && References(previous.proxy, hp) {
        previous := DIRECT;
      }
      ghost var ws := ApplyWrites(Some((OwnSpec(hp), bypass)));
      ghost var tail := [Remember(previous), StoreBackup(previous)];
      assert Writes(before, Set, hp, bypass) == ws + tail;
      PutSomeAppend(before, ws, tail, budget);
      PutSomeAppend(before, ws, tail, 4);
      PutSomeAppend(before, ws, tail, 5);
      var left;
      ok, left := Apply(Some((OwnSpec(hp), bypass)), budget);
      if !ok { return; }
      PutAllThree(State(), Remember(previous), StoreBackup(previous), DropBackup);
      assert tail[..1] == [Remember(previous)] && tail[..2] == tail;
      saved := Some(previous);
      if backupOk {
        backup := Some(previous);
      }
    }

    method ClearSystemProxy(budget: nat)
      modifies this
      ensures State() == ClearOutcome(old(State()), budget)
    {
      if saved.None? { return; }
      ghost var before := State();
      var sv := saved.value;
      ghost var ws := RestoreWrites(sv);
      PutAllOne(before, Forget);
      saved := None;
      ghost var mid := State();
      PutSomeAppend(before, [Forget], ws + [DropBackup], 1 + budget);
      PutSomeAppend(before, [Forget], ws + [DropBackup], 2 + |ws|);
      PutSomeAppend(mid, ws, [DropBackup], budget);
      PutSomeAppend(mid, ws, [DropBackup], 1 + |ws|);
      assert [Forget] + (ws + [DropBackup]) == [Forget] + ws + [DropBackup];
      var ok := RestoreFrom(sv, budget);
      PutAllOne(State(), DropBackup);
      if ok {
        backup := None;
      }
    }

    method PrimeFromBackup() returns (found: bool)
      modifies this
      ensures found <==> backup.Some?
      ensures State() == Run(old(State()), Prime, "", "")
    {
      found := backup.Some?;
      if found {
        PutAllOne(State(), Remember(backup.value));
        saved := backup;
      }
    }

    method RestoreAfterCrash(hp: string, budget: nat) returns (acted: bool)
      modifies this
      ensures acted <==> old(backup).Some? || Dangling(old(reg), hp)
      ensures State() == RestoreOutcome(old(State()), hp, budget)
    {
      if backup.Some? {
        var ok := RestoreFrom(backup.value, budget);
        backup := None;
        return true;
      }
      var current := Query(reg);
      if !current.direct && References(current.proxy, hp) {
        var ok, left := Apply(None, budget);
        return true;
      }
      return false;
    }

    method EnsureProxyApplied(hp: string, bypass: string, budget: nat)
      modifies this`reg
      ensures State() == EnsureOutcome(old(State()), hp, bypass, budget)
    {
      if reg.enable != 1 || reg.server != OwnSpec(hp) {
        var ok, left := Apply(Some((OwnSpec(hp), bypass)), budget);
      }
    }
  }

  /** A cut of two lists of writes falls either into the first or into the second. */
  lemma PutSomeAppend(p: Proxy, a: seq<Write>, b: seq<Write>, n: nat)
    ensures n <= |a| ==> PutSome(p, a + b, n) == PutSome(p, a, n)
    ensures n >= |a| ==> PutSome(p, a + b, n) == PutSome(PutAll(p, a), b, n - |a|)
  {
    if n <= |a| {
      assert (a + b)[..n] == a[..n];
      assert a[..|a|] == a && (b == [] ==> a + b == a);
    }
    if n >= |a| {
      var m := if n - |a| < |b| then n - |a| else |b|;
      assert (a + b)[..|a| + m] == a + b[..m];
      PutAllAppend(p, a, b[..m]);
      assert b[..|b|] == b && (a + b)[..|a + b|] == a + b;
    }
  }

  lemma PutAllOne(p: Proxy, w: Write)
    ensures PutAll(p, [w]) == Put(p, w)
  {
    assert [w][1..] == [] && PutAll(Put(p, w), []) == Put(p, w);
  }

  lemma PutAllThree(p: Proxy, a: Write, b: Write, c: Write)
    ensures PutAll(p, [a]) == Put(p, a)
    ensures PutAll(p, [a, b]) == Put(Put(p, a), b)
    ensures PutAll(p, [a, b, c]) == Put(Put(Put(p, a), b), c)
  {
    PutAllOne(p, a);
    assert [a, b][1..] == [b] && [a, b, c][1..] == [b, c] && [b, c][1..] == [c];
    PutAllOne(Put(p, a), b);
    PutAllOne(Put(Put(p, a), b), c);
    assert PutAll(Put(p, a), [b, c]) == PutAll(Put(Put(p, a), b), [c]);
  }

  lemma {:induction false} PutAllAppend(p: Proxy, a: seq<Write>, b: seq<Write>)
    ensures PutAll(p, a + b) == PutAll(PutAll(p, a), b)
    decreases a
  {
    if a == [] {
      assert a + b == b;
    } else {
      assert (a + b)[1..] == a[1..] + b;
      PutAllAppend(Put(p, a[0]), a[1..], b);
    }
  }
}
