/**
 * The per-process table: every tick a fresh map from pid to record is built
 * from the current connection list, each record's deltas taken against the
 * previous tick's map.
 */
module ProcessTable {
  import opened Wrappers

  /** Connection states as the introspection library reports them. */
  datatype ConnStatus =
    | Established | SynSent | SynRecv | FinWait1 | FinWait2 | TimeWait
    | Close | CloseWait | LastAck | Listen | Closing | NoStatus

  /** A successful read of a process: its name and cumulative I/O byte counters. */
  datatype Reading = Reading(name: string, writeBytes: nat, readBytes: nat)

  /**
   * One entry of the connection list. `pid` is absent when the owner is
   * unknown; `reading` is what looking up and reading that process gave on
   * this tick, absent when the process had vanished or access was denied.
   */
  datatype Connection = Connection(status: ConnStatus, pid: Option<nat>, reading: Option<Reading>)

  /** A row of the table: cumulative counters and the deltas since the previous tick. */
  datatype ProcRecord = ProcRecord(name: string, sent: nat, recv: nat, sentDiff: int, recvDiff: int)

  type ProcTable = map<nat, ProcRecord>

  /** Only established connections with a non-zero owning pid are looked at. */
  predicate Considered(c: Connection) {
    c.status == Established && c.pid.Some? && c.pid.value != 0
  }

  /** `c` is a connection of `pid` that is looked at and whose read succeeded. */
  predicate GoodRead(c: Connection, pid: nat) {
    Considered(c) && c.pid.value == pid && c.reading.Some?
  }

  /** The record made for `pid` from reading `r`, against the previous tick's table. */
  function NewRecord(prev: ProcTable, pid: nat, r: Reading): (rec: ProcRecord)
    ensures Describes(prev, pid, r, rec)
  {
    if pid in prev then
      ProcRecord(r.name, r.writeBytes, r.readBytes, r.writeBytes - prev[pid].sent, r.readBytes - prev[pid].recv)
    else
      ProcRecord(r.name, r.writeBytes, r.readBytes, 0, 0)
  }

  /** The table built from the connections `cs`, visited in order. */
  function Rebuild(prev: ProcTable, cs: seq<Connection>): (table: ProcTable)
    ensures 0 !in table
    ensures |table| <= |cs|
    decreases |cs|
  {
    if |cs| == 0 then map[]
    else
      var table := Rebuild(prev, cs[..|cs| - 1]);
      var c := cs[|cs| - 1];
      if Considered(c) && c.reading.Some? then table[c.pid.value := NewRecord(prev, c.pid.value, c.reading.value)]
      else table
  }

  /** `rec` is the record the source makes for `pid` from reading `r`. */
  predicate Describes(prev: ProcTable, pid: nat, r: Reading, rec: ProcRecord) {
    && rec.name == r.name
    && rec.sent == r.writeBytes
    && rec.recv == r.readBytes
    && (pid in prev ==> rec.sentDiff == r.writeBytes - prev[pid].sent && rec.recvDiff == r.readBytes - prev[pid].recv)
    && (pid !in prev ==> rec.sentDiff == 0 && rec.recvDiff == 0)
  }

  /** `cs[i]` is the last successful read of `pid` in `cs`. */
  ghost predicate LastGoodRead(cs: seq<Connection>, pid: nat, i: int) {
    0 <= i < |cs| && GoodRead(cs[i], pid) && forall k :: i < k < |cs| ==> !GoodRead(cs[k], pid)
  }

  /** The chosen connection's read, when `c` adds or overwrites an entry for `pid`. */
  lemma RebuildLastStep(prev: ProcTable, cs: seq<Connection>, pid: nat)
    requires |cs| > 0
    ensures var init, c := cs[..|cs| - 1], cs[|cs| - 1];
            if GoodRead(c, pid) then
              pid in Rebuild(prev, cs) && Rebuild(prev, cs)[pid] == NewRecord(prev, pid, c.reading.value)
            else
              (pid in Rebuild(prev, cs) <==> pid in Rebuild(prev, init)) &&
              (pid in Rebuild(prev, init) ==> Rebuild(prev, cs)[pid] == Rebuild(prev, init)[pid])
  {
  }

  /** A pid is in the rebuilt table exactly when one of its connections was looked at and read successfully. */
  lemma {:induction false} RebuildKeys(prev: ProcTable, cs: seq<Connection>, pid: nat)
    ensures pid in Rebuild(prev, cs) <==> exists i :: 0 <= i < |cs| && GoodRead(cs[i], pid)
    decreases |cs|
  {
    if |cs| > 0 {
      var init := cs[..|cs| - 1];
      RebuildKeys(prev, init, pid);
      RebuildLastStep(prev, cs, pid);
      if !GoodRead(cs[|cs| - 1], pid) {
        if exists i :: 0 <= i < |cs| && GoodRead(cs[i], pid) {
          var i :| 0 <= i < |cs| && GoodRead(cs[i], pid);
          assert init[i] == cs[i];
        }
        if exists i :: 0 <= i < |init| && GoodRead(init[i], pid) {
          var i :| 0 <= i < |init| && GoodRead(init[i], pid);
          assert cs[i] == init[i];
        }
      }
    }
  }

  /**
   * A pid's record comes from its last successful read, and its deltas are
   * taken against the previous table only, never against an earlier
   * connection of the same tick.
   */
  lemma {:induction false} RebuildEntry(prev: ProcTable, cs: seq<Connection>, pid: nat)
    requires pid in Rebuild(prev, cs)
    ensures exists i :: LastGoodRead(cs, pid, i) && Describes(prev, pid, cs[i].reading.value, Rebuild(prev, cs)[pid])
    decreases |cs|
  {
    var init, c := cs[..|cs| - 1], cs[|cs| - 1];
    RebuildLastStep(prev, cs, pid);
    if GoodRead(c, pid) {
      assert LastGoodRead(cs, pid, |cs| - 1);
      assert Describes(prev, pid, cs[|cs| - 1].reading.value, Rebuild(prev, cs)[pid]);
    } else {
      RebuildEntry(prev, init, pid);
      var i :| LastGoodRead(init, pid, i) && Describes(prev, pid, init[i].reading.value, Rebuild(prev, init)[pid]);
      assert cs[i] == init[i];
      assert LastGoodRead(cs, pid, i);
    }
  }

  /** A pid with no entry in the previous table is reported with zero deltas. */
  lemma {:induction false} ColdStart(prev: ProcTable, cs: seq<Connection>, pid: nat)
    requires pid in Rebuild(prev, cs) && pid !in prev
    ensures Rebuild(prev, cs)[pid].sentDiff == 0 && Rebuild(prev, cs)[pid].recvDiff == 0
  {
    RebuildEntry(prev, cs, pid);
  }

  /** A pid seen on both ticks reports new cumulative counters minus the previous ones. */
  lemma {:induction false} DeltaAgainstPrevious(prev: ProcTable, cs: seq<Connection>, pid: nat)
    requires pid in Rebuild(prev, cs) && pid in prev
    ensures Rebuild(prev, cs)[pid].sentDiff == Rebuild(prev, cs)[pid].sent - prev[pid].sent
    ensures Rebuild(prev, cs)[pid].recvDiff == Rebuild(prev, cs)[pid].recv - prev[pid].recv
  {
    RebuildEntry(prev, cs, pid);
  }

  /** A pid with no established, successfully read connection this tick is dropped, whatever `prev` held. */
  lemma {:induction false} Dropped(prev: ProcTable, cs: seq<Connection>, pid: nat)
    requires forall i :: 0 <= i < |cs| ==> !GoodRead(cs[i], pid)
    ensures pid !in Rebuild(prev, cs)
  {
    RebuildKeys(prev, cs, pid);
  }
}
