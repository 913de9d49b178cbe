// engine/election.go: the Ready host with the lowest priority leads.
module Elections {
  import opened Models
  import opened Storage

  // Ready rows in table order.
  function ReadyHosts(hosts: seq<Host>): (r: seq<Host>)
    ensures forall h :: h in r <==> h in hosts && h.state == Ready
  {
    if |hosts| == 0 then []
    else
      var rest := ReadyHosts(hosts[..|hosts| - 1]);
      assert hosts == hosts[..|hosts| - 1] + [hosts[|hosts| - 1]];
      if hosts[|hosts| - 1].state == Ready then rest + [hosts[|hosts| - 1]] else rest
  }

  predicate AnyReady(hosts: seq<Host>) {
    exists h :: h in hosts && h.state == Ready
  }

  // sort.Slice is not stable, so how it orders equal priorities is an input:
  // a rank of host ids.
  type TieBreak = nat -> int

  predicate Before(g: Host, h: Host, tie: TieBreak) {
    g.priority < h.priority || (g.priority == h.priority && tie(g.id) <= tie(h.id))
  }

  ghost predicate Ordered(hosts: seq<Host>, tie: TieBreak) {
    forall i, j :: 0 <= i < j < |hosts| ==> Before(hosts[i], hosts[j], tie)
  }

  function Insert(h: Host, hosts: seq<Host>, tie: TieBreak): seq<Host> {
    if |hosts| == 0 || Before(h, hosts[0], tie) then [h] + hosts
    else [hosts[0]] + Insert(h, hosts[1..], tie)
  }

  // Stands for sort.Slice by ascending priority.
  function SortSlice(hosts: seq<Host>, tie: TieBreak): seq<Host> {
    if |hosts| == 0 then [] else Insert(hosts[0], SortSlice(hosts[1..], tie), tie)
  }

  lemma PrependOrdered(h: Host, hosts: seq<Host>, tie: TieBreak)
    requires Ordered(hosts, tie)
    requires forall g :: g in hosts ==> Before(h, g, tie)
    ensures Ordered([h] + hosts, tie)
  {
    var r := [h] + hosts;
    forall i, j | 0 <= i < j < |r| ensures Before(r[i], r[j], tie) {
      assert r[j] == hosts[j - 1];
      if i > 0 {
        assert r[i] == hosts[i - 1];
      }
    }
  }

  lemma {:induction false} InsertSorts(h: Host, hosts: seq<Host>, tie: TieBreak)
    requires Ordered(hosts, tie)
    ensures Ordered(Insert(h, hosts, tie), tie)
    ensures multiset(Insert(h, hosts, tie)) == multiset(hosts) + multiset{h}
    ensures forall g :: g in Insert(h, hosts, tie) <==> g == h || g in hosts
  {
    if |hosts| > 0 && !Before(h, hosts[0], tie) {
      assert hosts == [hosts[0]] + hosts[1..];
      var rest := hosts[1..];
      OrderedTail(hosts, tie);
      InsertSorts(h, rest, tie);
      BeforeOther(h, hosts[0], tie);
      hide Before, Ordered;
      PrependOrdered(hosts[0], Insert(h, rest, tie), tie);
    } else {
      PrependOrdered(h, hosts, tie);
    }
  }

  lemma OrderedTail(hosts: seq<Host>, tie: TieBreak)
    requires Ordered(hosts, tie) && |hosts| > 0
    ensures Ordered(hosts[1..], tie) && forall g :: g in hosts[1..] ==> Before(hosts[0], g, tie)
  {
    hide Before;
    var rest := hosts[1..];
    forall i, j | 0 <= i < j < |rest| ensures Before(rest[i], rest[j], tie) {
      assert rest[i] == hosts[i + 1] && rest[j] == hosts[j + 1];
    }
  }

  lemma BeforeOther(g: Host, h: Host, tie: TieBreak)
    ensures Before(g, h, tie) || Before(h, g, tie)
  {
  }

  lemma {:induction false} SortSliceSorts(hosts: seq<Host>, tie: TieBreak)
    ensures Ordered(SortSlice(hosts, tie), tie)
    ensures multiset(SortSlice(hosts, tie)) == multiset(hosts)
    ensures forall g :: g in SortSlice(hosts, tie) <==> g in hosts
  {
    if |hosts| > 0 {
      assert hosts == [hosts[0]] + hosts[1..];
      SortSliceSorts(hosts[1..], tie);
      InsertSorts(hosts[0], SortSlice(hosts[1..], tie), tie);
    }
  }

  datatype ElectionResult = ElectionResult(leader: Option<Host>, changed: bool, prevLeader: Option<Host>)

  ghost predicate IsBestReady(h: Host, hosts: seq<Host>) {
    && h in hosts && h.state == Ready
    && forall g :: g in hosts && g.state == Ready ==> h.priority <= g.priority
  }

  function ElectionOf(hosts: seq<Host>, currentLeaderId: nat, tie: TieBreak): (r: ElectionResult)
    ensures r.leader.None? <==> !AnyReady(hosts)
    ensures r.leader.Some? ==> IsBestReady(r.leader.value, hosts)
    ensures r.changed <==> r.leader.Some? && r.leader.value.id != currentLeaderId
    ensures r.leader.Some? ==> r.prevLeader == FindHost(hosts, currentLeaderId)
  {
    var ready := ReadyHosts(hosts);
    if |ready| == 0 then
      ElectionResult(None, false, None)
    else
      SortedHead(ready, tie);
      var leader := SortSlice(ready, tie)[0];
      assert ready[0] in hosts;
      ElectionResult(Some(leader), currentLeaderId != leader.id, FindHost(hosts, currentLeaderId))
  }

  lemma SortedHead(hosts: seq<Host>, tie: TieBreak)
    requires |hosts| > 0
    ensures |SortSlice(hosts, tie)| > 0 && SortSlice(hosts, tie)[0] in hosts
    ensures forall g :: g in hosts ==> g == SortSlice(hosts, tie)[0] || Before(SortSlice(hosts, tie)[0], g, tie)
  {
    SortSliceSorts(hosts, tie);
    assert hosts[0] in SortSlice(hosts, tie);
  }

  // An order of equals in which the host with this id comes first.
  function Favouring(id: nat): TieBreak {
    (i: nat) => if i == id then 0 else 1
  }

  // No choice among equal priorities is ruled out: every Ready host of least
  // priority wins under some order of equals.
  lemma AnyBestReadyCanWin(hosts: seq<Host>, currentLeaderId: nat, h: Host)
    requires DistinctIds(hosts) && IsBestReady(h, hosts)
    ensures ElectionOf(hosts, currentLeaderId, Favouring(h.id)).leader == Some(h)
  {
    var tie := Favouring(h.id);
    var ready := ReadyHosts(hosts);
    assert h in ready;
    SortedHead(ready, tie);
    var r := SortSlice(ready, tie)[0];
    assert r == h || Before(r, h, tie);
    assert r.id == h.id;
    assert r in hosts && h in hosts;
  }

  // Elect logs every change of leader it decides on.
  function ElectionEffects(r: ElectionResult): seq<Effect> {
    if r.leader.Some? && r.changed then
      [LeaderElected(if r.prevLeader.Some? then r.prevLeader.value.id else 0, r.leader.value.id)]
    else []
  }

  method Elect(db: Store, hosts: seq<Host>, currentLeaderId: nat, tie: TieBreak) returns (r: ElectionResult)
    modifies db
    ensures r == ElectionOf(hosts, currentLeaderId, tie)
    ensures Logged(db, ElectionEffects(r))
  {
    var ready: seq<Host> := [];
    for i := 0 to |hosts|
      invariant ready == ReadyHosts(hosts[..i])
      invariant db.Contents() == old(db.Contents()) && db.effects == old(db.effects)
    {
      assert hosts[..i + 1][..i] == hosts[..i];
      if hosts[i].state == Ready {
        ready := ready + [hosts[i]];
      }
    }
    assert hosts[..|hosts|] == hosts;
    hide SortSlice, Before;
    if |ready| == 0 {
      return ElectionResult(None, false, None);
    }
    SortedHead(ready, tie);
    ready := SortSlice(ready, tie);
    var prevLeader := FindPrevious(hosts, currentLeaderId);
    r := ElectionResult(Some(ready[0]), currentLeaderId != ready[0].id, prevLeader);
    if r.changed {
      db.Emit(LeaderElected(if prevLeader.Some? then prevLeader.value.id else 0, ready[0].id));
    }
  }

  lemma FindStep(hosts: seq<Host>, i: nat, id: nat)
    requires i < |hosts|
    ensures FindHost(hosts[i..], id) == if hosts[i].id == id then Some(hosts[i]) else FindHost(hosts[i + 1..], id)
  {
    assert hosts[i..][1..] == hosts[i + 1..];
  }

  lemma FindNowhere(hosts: seq<Host>, id: nat)
    ensures hosts[0..] == hosts && FindHost(hosts[|hosts|..], id) == None
  {
  }

  method FindPrevious(hosts: seq<Host>, currentLeaderId: nat) returns (prevLeader: Option<Host>)
    ensures prevLeader == FindHost(hosts, currentLeaderId)
  {
    hide FindHost;
    prevLeader := None;
    var i := 0;
    FindNowhere(hosts, currentLeaderId);
    while i < |hosts| && prevLeader.None?
      invariant 0 <= i <= |hosts|
      invariant FindHost(hosts, currentLeaderId) ==
        if prevLeader.Some? then prevLeader else FindHost(hosts[i..], currentLeaderId)
    {
      FindStep(hosts, i, currentLeaderId);
      if hosts[i].id == currentLeaderId {
        prevLeader := Some(hosts[i]);
      }
      i := i + 1;
    }
  }
}
