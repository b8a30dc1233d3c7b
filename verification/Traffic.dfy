/** Traffic accounting: byte counters fed by a poller, and flushed as samples into the database. */
module Traffic {
  import opened Prelude

  const TWO_64: nat := 0x1_0000_0000_0000_0000

  /** Bytes up and down. */
  datatype Count = Count(up: nat, down: nat) {
    function Plus(other: Count): Count {
      Count(up + other.up, down + other.down)
    }

    /** `saturating_sub`, direction by direction. */
    function Minus(other: Count): Count {
      Count(if up >= other.up then up - other.up else 0, if down >= other.down then down - other.down else 0)
    }

    predicate AtMost(other: Count) {
      up <= other.up && down <= other.down
    }

    /** `fetch_add` on 64 bits wraps. */
    function Wrapped(): Count {
      Count(up % TWO_64, down % TWO_64)
    }
  }

  const ZERO := Count(0, 0)

  datatype Sample = Sample(node: string, bytes: Count)

  datatype Row = Row(id: string, total: Count)

  function Sum(samples: seq<Sample>): Count {
    if samples == [] then ZERO else Sum(samples[..|samples| - 1]).Plus(samples[|samples| - 1].bytes)
  }

  lemma SumPush(samples: seq<Sample>, s: Sample)
    ensures Sum(samples + [s]) == Sum(samples).Plus(s.bytes)
  {
    assert (samples + [s])[..|samples|] == samples;
  }

  /** The session table once this session, if there is one, has ended with these totals: its row has them, and no other
      row changes. */
  ghost function ClosedRows(rows: seq<Row>, session: Option<(string, string)>, total: Count): (r: seq<Row>)
    ensures |r| == |rows|
    ensures forall i | 0 <= i < |rows| ::
              r[i] == if session.Some? && rows[i].id == session.value.0 then Row(rows[i].id, total) else rows[i]
  {
    seq(|rows|, i requires 0 <= i < |rows| =>
      if session.Some? && rows[i].id == session.value.0 then Row(rows[i].id, total) else rows[i])
  }

  class StatsManager {
    var count: Count
    var session: Option<(string, string)>
    var last: Option<Count>
    /** The two tables of the database. */
    var samples: seq<Sample>
    var rows: seq<Row>

    /** Where the session's samples start, all bytes recorded in it, and those lost to failed inserts. */
    ghost var from: nat
    ghost var recorded: Count
    ghost var lost: Count

    /** The samples of the running session. */
    ghost function SessionSamples(): seq<Sample>
      requires from <= |samples|
      reads this
    {
      samples[from..]
    }

    /** Unless more than 64 bits' worth of bytes went by, what has been inserted, and lost, is what
        had been counted at the last flush. */
    ghost predicate Valid()
      reads this
    {
      && from <= |samples| && count == recorded.Wrapped()
      && (session.Some? && recorded == count ==>
            && last.Some? && last.value.AtMost(count)
            && Sum(SessionSamples()).Plus(lost) == last.value)
      && (session.Some? ==> last.Some?)
    }

    constructor ()
      ensures Valid() && session == None && samples == [] && rows == [] && count == ZERO
    {
      count, session, last, samples, rows := ZERO, None, None, [], [];
      from, recorded, lost := 0, ZERO, ZERO;
    }

    method StartSession(id: string, node: string, updateOk: bool, beginOk: bool)
      requires Valid()
      modifies this
      ensures Valid() && session == Some((id, node)) && count == ZERO && recorded == ZERO
      ensures samples == old(samples) && SessionSamples() == [] && lost == ZERO
      ensures var closed := ClosedRows(old(rows), if updateOk then old(session) else None, old(count));
              rows == if beginOk then closed + [Row(id, ZERO)] else closed
    {
      hide Count.Wrapped, ClosedRows, Sum;
      NothingSums();
      EndSession(updateOk);
      NothingWraps();
      count := ZERO;
      last := Some(ZERO);
      if beginOk {
        rows := rows + [Row(id, ZERO)];
      }
      session := Some((id, node));
      from, recorded, lost := |samples|, ZERO, ZERO;
      assert SessionSamples() == [];
    }

    /** Writes the counters into the session's row. What was counted since the last flush is not
        turned into a sample. */
    method EndSession(updateOk: bool)
      requires Valid()
      modifies this
      ensures Valid() && session == None && count == old(count) && samples == old(samples)
      ensures last == old(last) && recorded == old(recorded)
      ensures rows == ClosedRows(old(rows), if updateOk then old(session) else None, old(count))
      ensures old(session.Some? && recorded == count && lost == ZERO) ==>
                (old(Sum(SessionSamples())) == count <==> last == Some(count))
    {
      hide Count.Wrapped, Sum;
      if session.None? {
        return;
      }
      var id := session.value.0;
      session := None;
      if updateOk {
        rows := seq(|rows|, i requires 0 <= i < |rows| reads this =>
          if rows[i].id == id then Row(rows[i].id, count) else rows[i]);
      }
    }

    method RecordUp(bytes: nat)
      requires Valid()
      modifies this
      ensures Valid() && recorded == old(recorded).Plus(Count(bytes, 0)) && Unrecorded()
      ensures count == Count((old(count).up + bytes) % 0x1_0000_0000_0000_0000, old(count).down)
    {
      WrapOfSum(recorded, Count(bytes, 0));
      count := Count((count.up + bytes) % TWO_64, count.down);
      recorded := recorded.Plus(Count(bytes, 0));
    }

    method RecordDown(bytes: nat)
      requires Valid()
      modifies this
      ensures Valid() && recorded == old(recorded).Plus(Count(0, bytes)) && Unrecorded()
      ensures count == Count(old(count).up, (old(count).down + bytes) % 0x1_0000_0000_0000_0000)
    {
      WrapOfSum(recorded, Count(0, bytes));
      count := Count(count.up, (count.down + bytes) % TWO_64);
      recorded := recorded.Plus(Count(0, bytes));
    }

    /** Recording touches the counters only. */
    twostate predicate Unrecorded()
      reads this
    {
      && session == old(session) && last == old(last) && samples == old(samples) && rows == old(rows)
      && from == old(from) && lost == old(lost)
    }

    /** After a flush nothing counted is outstanding: samples and losses add up to the counters. */
    method FlushOnce(insertOk: bool)
      requires Valid()
      modifies this
      ensures Valid() && count == old(count) && session == old(session) && rows == old(rows) && recorded == old(recorded)
      ensures last == Some(count) && from == old(from)
      ensures session.None? ==> samples == old(samples)
      ensures session.Some? ==>
                var delta := if old(last).Some? then count.Minus(old(last).value) else ZERO;
                if delta == ZERO then samples == old(samples) && lost == old(lost)
                else if insertOk then samples == old(samples) + [Sample(session.value.1, delta)] && lost == old(lost)
                else samples == old(samples) && lost == old(lost).Plus(delta)
      ensures session.Some? && recorded == count && lost == ZERO ==> Sum(SessionSamples()) == count
    {
      hide Count.Wrapped, Sum;
      var delta := if last.Some? then count.Minus(last.value) else ZERO;
      last := Some(count);
      if session.Some? && (delta.up > 0 || delta.down > 0) {
        if insertOk {
          SumPush(SessionSamples(), Sample(session.value.1, delta));
          assert (samples + [Sample(session.value.1, delta)])[from..]
              == samples[from..] + [Sample(session.value.1, delta)];
          samples := samples + [Sample(session.value.1, delta)];
        } else {
          lost := lost.Plus(delta);
        }
      }
    }
  }

  lemma NothingSums()
    ensures Sum([]) == ZERO
  {
  }

  lemma NothingWraps()
    ensures ZERO.Wrapped() == ZERO
  {
  }

  lemma WrapOfSum(a: Count, b: Count)
    ensures a.Wrapped().Plus(b).Wrapped() == a.Plus(b).Wrapped()
  {
    ModOfSum(a.up, b.up);
    ModOfSum(a.down, b.down);
  }

  lemma ModOfSum(a: nat, b: nat)
    ensures (a % TWO_64 + b) % TWO_64 == (a + b) % TWO_64
  {
  }

  // ---------- The poller ----------

  /** A saturating difference is the least that has to be added, so nothing for a counter that went back. */
  lemma MinusIsLeast(a: Count, b: Count, c: Count)
    ensures a.AtMost(b.Plus(a.Minus(b)))
    ensures a.AtMost(b.Plus(c)) ==> a.Minus(b).AtMost(c)
  {
  }

  /** One reading of the core's counters: what is recorded, and what the next one is compared with. */
  function Delta(prev: Option<Count>, reading: Option<Count>): Count {
    if prev.Some? && reading.Some? then reading.value.Minus(prev.value) else ZERO
  }

  /** Everything recorded over a run of readings; a failed one, or an idle tick, is `None` and resets. */
  function Recorded(prev: Option<Count>, readings: seq<Option<Count>>): Count
    decreases |readings|
  {
    if readings == [] then ZERO else Delta(prev, readings[0]).Plus(Recorded(readings[0], readings[1..]))
  }

  /** What other tasks do to the manager between two ticks of the poller. */
  datatype Change =
    | Starts(id: string, node: string, updateOk: bool, beginOk: bool)
    | Ends(updateOk: bool)
    | Flushes(insertOk: bool)

  /** A tick: what happened since the last one, and what the core answers if it is asked. */
  datatype Tick = Tick(changes: seq<Change>, reading: Option<Count>)

  /** The poller's memory, and what has been recorded in the session. */
  datatype Poller = Poller(active: bool, prev: Option<Count>, recorded: Count)

  function WithChange(p: Poller, change: Change): Poller {
    match change
    case Starts(_, _, _, _) => p.(active := true, recorded := ZERO)
    case Ends(_) => p.(active := false)
    case Flushes(_) => p
  }

  function Changed(p: Poller, changes: seq<Change>): Poller
    decreases |changes|
  {
    if changes == [] then p else Changed(WithChange(p, changes[0]), changes[1..])
  }

  function Ticked(p: Poller, t: Tick): Poller {
    var q := Changed(p, t.changes);
    if !q.active then q.(prev := None)
    else q.(recorded := q.recorded.Plus(Delta(q.prev, t.reading)), prev := t.reading)
  }

  function Polled(p: Poller, ticks: seq<Tick>): Poller
    decreases |ticks|
  {
    if ticks == [] then p else Polled(Ticked(p, ticks[0]), ticks[1..])
  }

  method PerformOne(stats: StatsManager, change: Change, ghost prev: Option<Count>)
    requires stats.Valid()
    modifies stats
    ensures stats.Valid()
    ensures Poller(stats.session.Some?, prev, stats.recorded)
         == WithChange(Poller(old(stats.session).Some?, prev, old(stats.recorded)), change)
  {
    hide StatsManager.Valid, Sum, Count.Minus;
    match change {
      case Starts(id, node, updateOk, beginOk) => stats.StartSession(id, node, updateOk, beginOk);
      case Ends(updateOk) => stats.EndSession(updateOk);
      case Flushes(insertOk) => stats.FlushOnce(insertOk);
    }
  }

  method Perform(stats: StatsManager, changes: seq<Change>, ghost prev: Option<Count>)
    requires stats.Valid()
    modifies stats
    ensures stats.Valid()
    ensures Poller(stats.session.Some?, prev, stats.recorded)
         == Changed(Poller(old(stats.session).Some?, prev, old(stats.recorded)), changes)
    ensures changes == [] ==>
              stats.session == old(stats.session) && stats.samples == old(stats.samples) && stats.rows == old(stats.rows)
  {
    hide StatsManager.Valid, WithChange;
    for i := 0 to |changes|
      invariant stats.Valid()
      invariant Changed(Poller(stats.session.Some?, prev, stats.recorded), changes[i..])
             == Changed(Poller(old(stats.session).Some?, prev, old(stats.recorded)), changes)
      invariant i == 0 ==>
                  stats.session == old(stats.session) && stats.samples == old(stats.samples) && stats.rows == old(stats.rows)
    {
      assert changes[i..][1..] == changes[i + 1..];
      PerformOne(stats, changes[i], prev);
    }
  }

  /** The loop of the poller, with the other tasks at work between its ticks. */
  method Poll(stats: StatsManager, ticks: seq<Tick>)
    requires stats.Valid()
    modifies stats
    ensures stats.Valid()
    ensures var p := Polled(Poller(old(stats.session).Some?, None, old(stats.recorded)), ticks);
            stats.recorded == p.recorded && (stats.session.Some? <==> p.active)
    ensures (forall i | 0 <= i < |ticks| :: ticks[i].changes == []) ==>
              stats.session == old(stats.session) && stats.samples == old(stats.samples) && stats.rows == old(stats.rows)
  {
    hide Changed, StatsManager.Valid;
    var prev: Option<Count> := None;
    for i := 0 to |ticks|
      invariant stats.Valid()
      invariant Polled(Poller(stats.session.Some?, prev, stats.recorded), ticks[i..])
             == Polled(Poller(old(stats.session).Some?, None, old(stats.recorded)), ticks)
      invariant (forall j | 0 <= j < i :: ticks[j].changes == []) ==>
                  stats.session == old(stats.session) && stats.samples == old(stats.samples) && stats.rows == old(stats.rows)
    {
      assert ticks[i..][1..] == ticks[i + 1..];
      Perform(stats, ticks[i].changes, prev);
      if stats.session.None? {
        prev := None;
      } else {
        match ticks[i].reading {
          case Some(now) =>
            if prev.Some? {
              stats.RecordUp(now.Minus(prev.value).up);
              stats.RecordDown(now.Minus(prev.value).down);
            }
            prev := Some(now);
          case None =>
            prev := None;
        }
      }
    }
  }

  function Quiet(readings: seq<Option<Count>>): (ticks: seq<Tick>)
    ensures |ticks| == |readings|
  {
    seq(|readings|, i requires 0 <= i < |readings| => Tick([], readings[i]))
  }

  lemma {:induction false} QuietTicksRecord(p: Poller, readings: seq<Option<Count>>)
    requires p.active
    ensures Polled(p, Quiet(readings)).recorded == p.recorded.Plus(Recorded(p.prev, readings))
    decreases |readings|
  {
    if readings != [] {
      assert Quiet(readings)[1..] == Quiet(readings[1..]);
      QuietTicksRecord(Ticked(p, Quiet(readings)[0]), readings[1..]);
    }
  }

  /** The last change of the session is its start. */
  predicate Begins(changes: seq<Change>) {
    changes != [] &&
    if changes[|changes| - 1].Flushes? then Begins(changes[..|changes| - 1]) else changes[|changes| - 1].Starts?
  }

  lemma {:induction false} ChangedAppend(p: Poller, a: seq<Change>, b: seq<Change>)
    ensures Changed(p, a + b) == Changed(Changed(p, a), b)
    decreases |a|
  {
    if a == [] {
      assert a + b == b;
    } else {
      assert (a + b)[1..] == a[1..] + b;
      ChangedAppend(WithChange(p, a[0]), a[1..], b);
    }
  }

  lemma {:induction false} ChangesKeepPrev(p: Poller, changes: seq<Change>)
    ensures Changed(p, changes).prev == p.prev
    decreases |changes|
  {
    if changes != [] {
      ChangesKeepPrev(WithChange(p, changes[0]), changes[1..]);
    }
  }

  lemma {:induction false} BeginsAfresh(p: Poller, changes: seq<Change>)
    requires Begins(changes)
    ensures Changed(p, changes) == Poller(true, p.prev, ZERO)
    decreases |changes|
  {
    var n := |changes| - 1;
    var last := changes[n];
    ChangedAppend(p, changes[..n], [last]);
    assert changes[..n] + [last] == changes && [last][1..] == [];
    assert Changed(Changed(p, changes[..n]), [last]) == WithChange(Changed(p, changes[..n]), last);
    ChangesKeepPrev(p, changes[..n]);
    if last.Flushes? {
      BeginsAfresh(p, changes[..n]);
    }
  }

  /** Readings that never go back. */
  ghost predicate Monotone(rs: seq<Count>) {
    forall i | 0 < i < |rs| :: rs[i - 1].AtMost(rs[i])
  }

  function AsReadings(rs: seq<Count>): (r: seq<Option<Count>>)
    ensures |r| == |rs| && forall i | 0 <= i < |rs| :: r[i] == Some(rs[i])
  {
    seq(|rs|, i requires 0 <= i < |rs| => Some(rs[i]))
  }

  /** From a first reading on, at least the difference to the last is recorded, and exactly that
      when no counter went back in between. */
  lemma {:induction false} RecordedTelescopes(first: Count, rs: seq<Count>)
    ensures Covers(first, Recorded(Some(first), AsReadings(rs)), if rs == [] then first else rs[|rs| - 1])
    ensures first.Plus(Recorded(Some(first), AsReadings(rs))) == (if rs == [] then first else rs[|rs| - 1])
            <==> Monotone([first] + rs)
    decreases |rs|
  {
    hide Count.Plus, Covers, Delta;
    if rs == [] {
      NothingRecorded(first);
    } else {
      var rest := Recorded(Some(rs[0]), AsReadings(rs[1..]));
      RecordedTelescopes(rs[0], rs[1..]);
      assert AsReadings(rs)[1..] == AsReadings(rs[1..]);
      assert Recorded(Some(first), AsReadings(rs)) == Delta(Some(first), Some(rs[0])).Plus(rest);
      hide Recorded, Monotone, AsReadings;
      MonotoneFromFirst(first, rs);
      OneMoreReading(first, rs[0], rest, rs[|rs| - 1]);
    }
  }

  /** What was recorded is at least the way from one reading to the other. */
  ghost predicate Covers(from: Count, recorded: Count, to: Count) {
    to.up <= from.up + recorded.up && to.down <= from.down + recorded.down
  }

  lemma NothingRecorded(first: Count)
    ensures Covers(first, ZERO, first) && first.Plus(ZERO) == first
  {
  }

  lemma OneMoreReading(first: Count, second: Count, rest: Count, end: Count)
    requires Covers(second, rest, end)
    ensures var total := Delta(Some(first), Some(second)).Plus(rest);
            Covers(first, total, end)
            && (first.Plus(total) == end <==> first.AtMost(second) && second.Plus(rest) == end)
  {
  }

  lemma MonotoneFromFirst(first: Count, rs: seq<Count>)
    requires rs != []
    ensures Monotone([first] + rs) <==> first.AtMost(rs[0]) && Monotone([rs[0]] + rs[1..])
  {
    assert [rs[0]] + rs[1..] == rs;
    var all := [first] + rs;
    if Monotone(all) {
      assert all[0].AtMost(all[1]);
      forall i | 0 < i < |rs| ensures rs[i - 1].AtMost(rs[i]) {
        assert all[i].AtMost(all[i + 1]);
      }
    }
    if first.AtMost(rs[0]) && Monotone(rs) {
      forall i | 0 < i < |all| ensures all[i - 1].AtMost(all[i]) {
        if i > 1 {
          assert rs[i - 2].AtMost(rs[i - 1]);
        }
      }
    }
  }

  /** Between two resets of the poller, what it records is the last reading less the first, if and only
      if the core's counters never went back. */
  lemma PollTelescopes(rs: seq<Count>)
    requires rs != []
    ensures rs[0].Plus(Recorded(None, AsReadings(rs))) == rs[|rs| - 1] <==> Monotone(rs)
  {
    hide Recorded, Monotone, Covers, AsReadings, Count.Plus;
    var readings := AsReadings(rs);
    FirstReadingRecordsNothing(readings);
    RecordedTelescopes(rs[0], rs[1..]);
    assert readings[1..] == AsReadings(rs[1..]) && [rs[0]] + rs[1..] == rs;
  }

  lemma NothingToCompare(r: Option<Count>, rest: Count)
    ensures Delta(None, r) == ZERO && ZERO.Plus(rest) == rest
  {
  }

  lemma FirstReadingRecordsNothing(readings: seq<Option<Count>>)
    requires readings != []
    ensures Recorded(None, readings) == Recorded(readings[0], readings[1..])
  {
    hide Count.Plus, Delta;
    NothingToCompare(readings[0], Recorded(readings[0], readings[1..]));
  }

  lemma Inherited(first: Count, delta: Count, rest: Count, end: Count)
    requires Covers(first, rest, end)
    ensures first.Plus(delta.Plus(rest)) == end <==> delta == ZERO && first.Plus(rest) == end
  {
  }

  /** A session that began since the last tick, and is then read without failures, records the way from its
      first to its last reading if and only if no counter went back and the poller had forgotten the sessions
      before, or now finds no more than it remembered of them. Nothing tells the poller of a session that ended
      and one that began between two ticks: the first then leaves its last reading to the second. */
  lemma NewSessionRecords(p: Poller, changes: seq<Change>, rs: seq<Count>)
    requires Begins(changes) && rs != []
    ensures var readings := AsReadings(rs);
            var r := Polled(p, [Tick(changes, readings[0])] + Quiet(readings[1..])).recorded;
            && r == Delta(p.prev, readings[0]).Plus(Recorded(readings[0], readings[1..]))
            && (rs[0].Plus(r) == rs[|rs| - 1] <==> Monotone(rs) && Delta(p.prev, readings[0]) == ZERO)
  {
    hide Recorded, Monotone, Quiet, Changed, Begins, Count.Plus, Delta, Covers;
    var readings := AsReadings(rs);
    var first := Tick(changes, readings[0]);
    var ticks := [first] + Quiet(readings[1..]);
    assert ticks[1..] == Quiet(readings[1..]);
    assert Polled(p, ticks) == Polled(Ticked(p, first), ticks[1..]);
    BeginsAfresh(p, changes);
    NothingToCompare(None, Delta(p.prev, readings[0]));
    QuietTicksRecord(Ticked(p, first), readings[1..]);
    RecordedTelescopes(rs[0], rs[1..]);
    assert readings[1..] == AsReadings(rs[1..]) && [rs[0]] + rs[1..] == rs;
    Inherited(rs[0], Delta(p.prev, readings[0]), Recorded(readings[0], readings[1..]), rs[|rs| - 1]);
  }
}
