/**
 * The monitor's state and its periodic and button-driven operations. Library
 * reads (counters, connection lists, process listings) arrive as parameters;
 * widget, chart and timer work is not modelled.
 */
module InternetUsage {
  import opened Wrappers
  import opened RateHistory
  import opened ProcessTable
  import opened NetworkToggle
  import opened Termination

  class InternetUsageApp {
    /** The previous tick's table, keyed by pid. */
    var procData: ProcTable
    /** Set while networking has been switched off by this app. */
    var disconnectFlag: bool
    /** Text of the network button. */
    var buttonLabel: string
    /** Chart series of per-tick byte deltas, oldest first. */
    var sentHistory: seq<int>
    var recvHistory: seq<int>
    /** The counter snapshot taken on the previous tick. */
    var prevNetIo: NetCounters

    /** Every counter reading taken so far, the initial one first. */
    ghost var sentReadings: seq<int>
    ghost var recvReadings: seq<int>
    /** Number of network-button presses so far. */
    ghost var presses: nat

    /** The chart series are the windows over every reading taken so far. */
    ghost predicate ChartValid()
      reads this`sentHistory, this`recvHistory, this`prevNetIo, this`sentReadings, this`recvReadings
    {
      ChartInvariant(sentHistory, recvHistory, prevNetIo, sentReadings, recvReadings)
    }

    /** The flag reflects the number of presses and the label matches the flag. */
    ghost predicate ToggleValid()
      reads this`disconnectFlag, this`buttonLabel, this`presses
    {
      && disconnectFlag == AfterPresses(false, presses)
      && buttonLabel == LabelFor(disconnectFlag)
    }

    ghost predicate Valid()
      reads this
    {
      ChartValid() && ToggleValid()
    }

    /** The state `__init__` sets up before its first chart and table ticks. */
    constructor (initial: NetCounters)
      ensures Valid()
      ensures procData == map[] && !disconnectFlag && buttonLabel == "Disconnect"
      ensures sentHistory == [] && recvHistory == [] && prevNetIo == initial
      ensures presses == 0
    {
      procData := map[];
      disconnectFlag := false;
      buttonLabel := "Disconnect";
      sentHistory := [];
      recvHistory := [];
      prevNetIo := initial;
      sentReadings := [initial.bytesSent];
      recvReadings := [initial.bytesRecv];
      presses := 0;
    }

    /**
     * One chart tick with the counters read now: record the raw deltas (not
     * clamped, so a counter reset gives a negative sample), keep the snapshot,
     * and slide both series by one sample.
     */
    method UpdateChart(current: NetCounters)
      requires Valid()
      modifies this`prevNetIo, this`sentHistory, this`recvHistory, this`sentReadings, this`recvReadings
      ensures Valid()
      ensures prevNetIo == current
      ensures sentHistory == Push(old(sentHistory), current.bytesSent - old(prevNetIo).bytesSent)
      ensures recvHistory == Push(old(recvHistory), current.bytesRecv - old(prevNetIo).bytesRecv)
      ensures sentReadings == old(sentReadings) + [current.bytesSent]
      ensures recvReadings == old(recvReadings) + [current.bytesRecv]
      ensures |sentHistory| == |recvHistory| <= WINDOW_SIZE
    {
      var sent := current.bytesSent - prevNetIo.bytesSent;
      var recv := current.bytesRecv - prevNetIo.bytesRecv;
      ChartTick(sentHistory, recvHistory, prevNetIo, sentReadings, recvReadings, current, sent, recv);
      ghost var newSent, newRecv := Push(sentHistory, sent), Push(recvHistory, recv);
      prevNetIo := current;
      sentReadings := sentReadings + [current.bytesSent];
      recvReadings := recvReadings + [current.bytesRecv];
      sentHistory := sentHistory + [sent];
      recvHistory := recvHistory + [recv];
      if |sentHistory| > WINDOW_SIZE {
        sentHistory := sentHistory[1..];
        recvHistory := recvHistory[1..];
      }
      assert sentHistory == newSent && recvHistory == newRecv;
      ChartInvariantBounds(sentHistory, recvHistory, prevNetIo, sentReadings, recvReadings);
    }

    /**
     * The table tick with this tick's connection list: build a new table in a
     * loop, reading deltas from the previous table, then replace it wholesale.
     */
    method UpdateProcData(connections: seq<Connection>)
      requires Valid()
      modifies this`procData
      ensures Valid()
      ensures procData == Rebuild(old(procData), connections)
    {
      var newProcData: ProcTable := map[];
      var i := 0;
      while i < |connections|
        invariant 0 <= i <= |connections|
        invariant newProcData == Rebuild(procData, connections[..i])
      {
        var conn := connections[i];
        assert connections[..i + 1][..i] == connections[..i];
        if conn.status == Established && conn.pid.Some? && conn.pid.value != 0 {
          var pid := conn.pid.value;
          match conn.reading {
            case None =>
              // the process vanished or access was denied: skip this connection
            case Some(r) =>
              var sentDiff, recvDiff;
              if pid in procData {
                sentDiff := r.writeBytes - procData[pid].sent;
                recvDiff := r.readBytes - procData[pid].recv;
              } else {
                sentDiff, recvDiff := 0, 0;
              }
              newProcData := newProcData[pid := ProcRecord(r.name, r.writeBytes, r.readBytes, sentDiff, recvDiff)];
          }
        }
        i := i + 1;
      }
      assert connections[..i] == connections;
      procData := newProcData;
    }

    /**
     * A press of the network button: issue the command that flips networking,
     * relabel the button and flip the flag, whatever the command achieved.
     * Returns the command issued.
     */
    method ToggleNetwork() returns (command: string)
      requires Valid()
      modifies this`disconnectFlag, this`buttonLabel, this`presses
      ensures Valid()
      ensures disconnectFlag == !old(disconnectFlag)
      ensures buttonLabel == LabelFor(disconnectFlag)
      ensures command == CommandFor(old(disconnectFlag))
      ensures presses == old(presses) + 1
    {
      if disconnectFlag {
        command := "nmcli networking on";
        buttonLabel := "Disconnect";
      } else {
        command := "nmcli networking off";
        buttonLabel := "Reconnect";
      }
      disconnectFlag := !disconnectFlag;
      presses := presses + 1;
    }

    /**
     * The terminate action: with a row selected, walk the process listing and
     * collect every pid whose name equals the row's name; with none, do nothing.
     * Returns the pids a terminate signal is sent to, in listing order.
     */
    method TerminateSelectedProcess(selectedName: Option<string>, processes: seq<ProcessInfo>)
      returns (targets: seq<nat>)
      ensures selectedName.None? ==> targets == []
      ensures selectedName.Some? ==> targets == MatchingPids(processes, selectedName.value)
      ensures forall pid :: pid in targets <==>
                selectedName.Some? &&
                exists i :: 0 <= i < |processes| && processes[i].pid == pid && processes[i].name == selectedName
    {
      targets := [];
      if selectedName.Some? {
        var name := selectedName.value;
        var i := 0;
        while i < |processes|
          invariant 0 <= i <= |processes|
          invariant targets == MatchingPids(processes[..i], name)
        {
          assert processes[..i + 1][..i] == processes[..i];
          if processes[i].name == Some(name) {
            targets := targets + [processes[i].pid];
          }
          i := i + 1;
        }
        assert processes[..i] == processes;
        forall pid | true
          ensures pid in targets <==> exists i :: 0 <= i < |processes| && processes[i].pid == pid && processes[i].name == Some(name)
        {
          MatchingPidsExact(processes, name, pid);
        }
      }
    }
  }
}
