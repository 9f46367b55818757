/**
 * Choosing which processes the terminate action signals: every listed process
 * whose name equals the selected row's name, not only the selected pid.
 */
module Termination {
  import opened Wrappers

  /**
   * One entry of the process listing: its pid and its name, absent when the
   * name could not be read.
   */
  datatype ProcessInfo = ProcessInfo(pid: nat, name: Option<string>)

  /** The pids of the processes in `ps` named `name`, in listing order. */
  function MatchingPids(ps: seq<ProcessInfo>, name: string): (targets: seq<nat>)
    ensures |targets| <= |ps|
    decreases |ps|
  {
    if |ps| == 0 then []
    else
      var rest := MatchingPids(ps[..|ps| - 1], name);
      if ps[|ps| - 1].name == Some(name) then rest + [ps[|ps| - 1].pid] else rest
  }

  /** A pid is targeted exactly when some listed process with that pid carries the name. */
  lemma {:induction false} MatchingPidsExact(ps: seq<ProcessInfo>, name: string, pid: nat)
    ensures pid in MatchingPids(ps, name) <==> exists i :: 0 <= i < |ps| && ps[i].pid == pid && ps[i].name == Some(name)
    decreases |ps|
  {
    if |ps| > 0 {
      var init := ps[..|ps| - 1];
      MatchingPidsExact(init, name, pid);
      if exists i :: 0 <= i < |ps| && ps[i].pid == pid && ps[i].name == Some(name) {
        var i :| 0 <= i < |ps| && ps[i].pid == pid && ps[i].name == Some(name);
        if i < |ps| - 1 {
          assert init[i] == ps[i];
        }
      }
      if exists i :: 0 <= i < |init| && init[i].pid == pid && init[i].name == Some(name) {
        var i :| 0 <= i < |init| && init[i].pid == pid && init[i].name == Some(name);
        assert ps[i] == init[i];
      }
    }
  }

  /** Targets keep the listing's order: a listing split in two gives the two target lists joined. */
  lemma {:induction false} MatchingPidsAppend(a: seq<ProcessInfo>, b: seq<ProcessInfo>, name: string)
    ensures MatchingPids(a + b, name) == MatchingPids(a, name) + MatchingPids(b, name)
    decreases |b|
  {
    if |b| == 0 {
      assert a + b == a;
    } else {
      var initB := b[..|b| - 1];
      MatchingPidsAppend(a, initB, name);
      assert (a + b)[..|a + b| - 1] == a + initB;
    }
  }

  /**
   * The over-broad match: two different listed processes that share the
   * selected name are both targeted.
   */
  lemma SharedNameBothTargeted(ps: seq<ProcessInfo>, name: string, i: int, j: int)
    requires 0 <= i < |ps| && 0 <= j < |ps| && i != j
    requires ps[i].name == Some(name) && ps[j].name == Some(name)
    ensures ps[i].pid in MatchingPids(ps, name) && ps[j].pid in MatchingPids(ps, name)
  {
    MatchingPidsExact(ps, name, ps[i].pid);
    MatchingPidsExact(ps, name, ps[j].pid);
  }
}
