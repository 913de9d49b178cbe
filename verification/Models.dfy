// The rows and settings the program keeps in its database, and the trace of
// effects through which the polling cycle changes them.
module Models {

  datatype Option<+T> = None | Some(value: T)

  datatype HostState = Ready | Full | Dead

  datatype Host = Host(
    id: nat,
    ip: string,
    priority: int,
    pool: string,
    trafficThreshold: int,
    preCommand: string,
    disconnectCommand: string,
    state: HostState,
    isLeader: bool)

  // config.DdnsPoolRule
  datatype Rule = Rule(
    pool: string,
    cfEmail: string,
    cfApiKey: string,
    cfZoneName: string,
    cfApiToken: string,
    cfZoneId: string,
    recordName: string,
    enabled: bool)

  // The cf_* settings used when no pool rule applies.
  datatype GlobalDns = GlobalDns(
    record: string,
    email: string,
    apiKey: string,
    zoneName: string,
    apiToken: string,
    zoneId: string)

  datatype Db = Db(
    hosts: seq<Host>,
    nextId: nat,
    pools: set<string>,
    leader: nat,
    rules: seq<Rule>,
    global: GlobalDns)

  // Who asked for a state transition.
  datatype Cause = HealthCheck | HealthGuard | ConnectFailed

  datatype Notice = CircuitOpenNotice | CircuitCloseNotice | LeaderChangedNotice | DdnsMatchNotice | DdnsMismatchNotice

  // Everything a cycle does to the world, in order. Some effects are database
  // writes; the others are audit events, commands and calls to other systems.
  datatype Effect =
    | StateChanged(host: nat, from: HostState, to: HostState, cause: Cause)
    | CircuitOpened
    | CircuitClosed
    | LeaderElected(prev: nat, next: nat)
    | Disconnected(host: nat)
    | CommandsBlanked(host: nat)
    | Connected(host: nat, exitCode: int)
    | DnsUpdated(record: string, ip: string, ok: bool)
    | RemoteSynced(host: nat, record: string)
    | DnsVerified(record: string, ip: string)
    | FlagsCleared(except: nat)
    | FlagSet(host: nat)
    | LeaderStored(host: nat)
    | Notified(notice: Notice)

  ghost predicate DistinctIds(hosts: seq<Host>) {
    forall i, j :: 0 <= i < j < |hosts| ==> hosts[i].id != hosts[j].id
  }

  // Ids come from an auto-increment column: positive, distinct, never reused.
  ghost predicate ValidIds(db: Db) {
    && DistinctIds(db.hosts)
    && 1 <= db.nextId
    && forall h :: h in db.hosts ==> 1 <= h.id < db.nextId
  }

  function FindHost(hosts: seq<Host>, id: nat): (r: Option<Host>)
    ensures r.Some? ==> r.value in hosts && r.value.id == id
    ensures r.None? ==> forall h :: h in hosts ==> h.id != id
  {
    if |hosts| == 0 then None
    else if hosts[0].id == id then Some(hosts[0])
    else FindHost(hosts[1..], id)
  }

  lemma FindHostIsRow(hosts: seq<Host>, i: nat)
    requires DistinctIds(hosts) && i < |hosts|
    ensures FindHost(hosts, hosts[i].id) == Some(hosts[i])
  {
    var r := FindHost(hosts, hosts[i].id);
    assert hosts[i] in hosts;
    var j :| 0 <= j < |hosts| && hosts[j] == r.value;
  }

  // What one effect does to one row.
  function RowAfter(e: Effect, h: Host): Host {
    match e
    case StateChanged(id, _, to, _) => if h.id == id then h.(state := to) else h
    case CommandsBlanked(id) => if h.id == id then h.(preCommand := "", disconnectCommand := "") else h
    case FlagsCleared(id) => if h.id != id then h.(isLeader := false) else h
    case FlagSet(id) => if h.id == id then h.(isLeader := true) else h
    case _ => h
  }

  // Effects that are not database writes.
  predicate IsSilent(e: Effect) {
    !e.StateChanged? && !e.CommandsBlanked? && !e.FlagsCleared? && !e.FlagSet? && !e.LeaderStored?
  }

  function RowAfterAll(t: seq<Effect>, h: Host): (r: Host)
    ensures r.id == h.id && r.priority == h.priority && r.pool == h.pool && r.ip == h.ip
    ensures r.trafficThreshold == h.trafficThreshold
  {
    if |t| == 0 then h else RowAfter(t[|t| - 1], RowAfterAll(t[..|t| - 1], h))
  }

  function LeaderAfterAll(t: seq<Effect>, leader: nat): nat {
    if |t| == 0 then leader
    else if t[|t| - 1].LeaderStored? then t[|t| - 1].host
    else LeaderAfterAll(t[..|t| - 1], leader)
  }

  function RowsAfterAll(t: seq<Effect>, hosts: seq<Host>): (r: seq<Host>)
    ensures |r| == |hosts|
    ensures forall i :: 0 <= i < |r| ==> r[i] == RowAfterAll(t, hosts[i])
    ensures DistinctIds(hosts) ==> DistinctIds(r)
  {
    seq(|hosts|, i requires 0 <= i < |hosts| => RowAfterAll(t, hosts[i]))
  }

  // The database after every effect of a trace has been written to it.
  function Replay(t: seq<Effect>, db: Db): (r: Db)
    ensures ValidIds(db) ==> ValidIds(r)
  {
    var hosts := RowsAfterAll(t, db.hosts);
    assert forall h :: h in hosts ==> exists i :: 0 <= i < |db.hosts| && h.id == db.hosts[i].id;
    db.(hosts := hosts, leader := LeaderAfterAll(t, db.leader))
  }

  lemma {:induction false} RowAfterConcat(t: seq<Effect>, u: seq<Effect>, h: Host)
    ensures RowAfterAll(t + u, h) == RowAfterAll(u, RowAfterAll(t, h))
    decreases |u|
  {
    if |u| == 0 {
      assert t + u == t;
    } else {
      var v := u[..|u| - 1];
      assert (t + u)[..|t + u| - 1] == t + v;
      RowAfterConcat(t, v, h);
    }
  }

  lemma {:induction false} LeaderAfterConcat(t: seq<Effect>, u: seq<Effect>, leader: nat)
    ensures LeaderAfterAll(t + u, leader) == LeaderAfterAll(u, LeaderAfterAll(t, leader))
    decreases |u|
  {
    if |u| == 0 {
      assert t + u == t;
    } else {
      var v := u[..|u| - 1];
      assert (t + u)[..|t + u| - 1] == t + v;
      LeaderAfterConcat(t, v, leader);
    }
  }

  // Replaying two traces one after the other is replaying their concatenation.
  lemma ReplayConcat(t: seq<Effect>, u: seq<Effect>, db: Db)
    ensures Replay(t + u, db) == Replay(u, Replay(t, db))
  {
    LeaderAfterConcat(t, u, db.leader);
    forall i | 0 <= i < |db.hosts|
      ensures RowAfterAll(t + u, db.hosts[i]) == RowAfterAll(u, RowAfterAll(t, db.hosts[i]))
    {
      RowAfterConcat(t, u, db.hosts[i]);
    }
    assert Replay(t + u, db).hosts == Replay(u, Replay(t, db)).hosts;
  }

  lemma RowAfterOne(e: Effect, h: Host)
    ensures RowAfterAll([e], h) == RowAfter(e, h)
  {
    var t := [e];
    assert t[..|t| - 1] == [];
    assert RowAfterAll([], h) == h;
  }

  lemma ReplayNothing(db: Db)
    ensures Replay([], db) == db
  {
    assert Replay([], db).hosts == db.hosts;
  }

  lemma {:induction false} SilentRow(t: seq<Effect>, h: Host)
    requires forall e :: e in t ==> IsSilent(e)
    ensures RowAfterAll(t, h) == h
  {
    if |t| > 0 {
      assert forall e :: e in t[..|t| - 1] ==> e in t;
      assert t[|t| - 1] in t;
      SilentRow(t[..|t| - 1], h);
    }
  }

  lemma {:induction false} SilentLeader(t: seq<Effect>, leader: nat)
    requires forall e :: e in t ==> IsSilent(e)
    ensures LeaderAfterAll(t, leader) == leader
  {
    if |t| > 0 {
      assert forall e :: e in t[..|t| - 1] ==> e in t;
      assert t[|t| - 1] in t;
      SilentLeader(t[..|t| - 1], leader);
    }
  }

  lemma SilentReplay(t: seq<Effect>, db: Db)
    requires forall e :: e in t ==> IsSilent(e)
    ensures Replay(t, db) == db
  {
    SilentLeader(t, db.leader);
    forall i | 0 <= i < |db.hosts| ensures RowAfterAll(t, db.hosts[i]) == db.hosts[i] {
      SilentRow(t, db.hosts[i]);
    }
    assert Replay(t, db).hosts == db.hosts;
  }
}
