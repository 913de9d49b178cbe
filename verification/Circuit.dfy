// engine/circuit.go: the breaker is open while there are hosts and none is Ready.
module Circuits {
  import opened Models
  import opened Storage
  import opened Elections

  predicate ShouldOpen(hosts: seq<Host>) {
    |hosts| > 0 && !AnyReady(hosts)
  }

  function CircuitEffects(wasOpen: bool, open: bool): seq<Effect> {
    if wasOpen == open then [] else if open then [CircuitOpened] else [CircuitClosed]
  }

  // The breaker and the election agree, whatever leader is stored.
  lemma OpenIsNoLeader(hosts: seq<Host>, currentLeaderId: nat, tie: TieBreak)
    ensures ShouldOpen(hosts) <==> |hosts| > 0 && ElectionOf(hosts, currentLeaderId, tie).leader.None?
  {
    hide AnyReady, SortSlice, ReadyHosts;
  }

  class CircuitBreaker {
    var isOpen: bool

    constructor ()
      ensures !isOpen
    {
      isOpen := false;
    }

    method Check(db: Store, hosts: seq<Host>) returns (open: bool, changed: bool)
      modifies this, db
      ensures open == isOpen == ShouldOpen(hosts)
      ensures changed == (old(isOpen) != isOpen)
      ensures Logged(db, CircuitEffects(old(isOpen), isOpen))
    {
      var prev := isOpen;
      if |hosts| == 0 {
        isOpen := false;
        changed := prev != isOpen;
        if changed {
          db.Emit(CircuitClosed);
        }
        return isOpen, changed;
      }
      var allDown := true;
      var i := 0;
      while i < |hosts| && allDown
        invariant 0 <= i <= |hosts|
        invariant allDown <==> !AnyReady(hosts[..i])
        invariant allDown || AnyReady(hosts)
        invariant db.Contents() == old(db.Contents()) && db.effects == old(db.effects) && isOpen == prev
      {
        assert hosts[..i + 1] == hosts[..i] + [hosts[i]];
        if hosts[i].state == Ready {
          allDown := false;
          assert hosts[i] in hosts[..i + 1];
        }
        i := i + 1;
      }
      assert allDown ==> hosts[..i] == hosts;
      isOpen := allDown;
      changed := prev != isOpen;
      if changed {
        if isOpen {
          db.Emit(CircuitOpened);
        } else {
          db.Emit(CircuitClosed);
        }
      }
      return isOpen, changed;
    }
  }
}
