// api/hosts.go, api/pools.go and database/dbcore/pool_seed.go: what keeps hosts,
// pools and priorities together.
module Handlers {
  import opened Text
  import opened Models
  import opened Storage

  const DEFAULT_POOL := "default"
  const MAX_INT64: int := 0x7FFF_FFFF_FFFF_FFFF
  const MIN_INT64: int := -0x8000_0000_0000_0000

  // A host as it is submitted, to create it or (zero values meaning "keep") to
  // update it; whether net.ParseIP accepts the address is given.
  datatype HostRequest = HostRequest(
    ip: string,
    ipValid: bool,
    priority: int,
    pool: string,
    trafficThreshold: int,
    preCommand: string,
    disconnectCommand: string)

  datatype Status = Success | BadRequest | NotFound | Conflict

  datatype Reply = Reply(db: Db, status: Status)

  predicate PoolExists(db: Db, pool: string) {
    TrimSpace(pool) != "" && TrimSpace(pool) in db.pools
  }

  function PriorityCeiling(hosts: seq<Host>, pool: string): Option<int> {
    if |hosts| == 0 then None
    else
      var h := hosts[|hosts| - 1];
      var rest := PriorityCeiling(hosts[..|hosts| - 1], pool);
      if h.pool == pool && (rest.None? || rest.value < h.priority) then Some(h.priority) else rest
  }

  // One more, in 64-bit arithmetic.
  function Next64(n: int): int {
    if n >= MAX_INT64 then MIN_INT64 else n + 1
  }

  // One more than the pool's greatest priority.
  function NextPriority(hosts: seq<Host>, pool: string): int {
    var ceiling := PriorityCeiling(hosts, TrimSpace(pool));
    Next64(if ceiling.Some? then ceiling.value else 0)
  }

  // The unique index on (pool, priority), seen by a row with this id.
  predicate SlotTaken(hosts: seq<Host>, pool: string, priority: int, id: nat) {
    exists h :: h in hosts && h.id != id && h.pool == pool && h.priority == priority
  }

  function PoolFor(req: HostRequest): string {
    if req.pool == "" then DEFAULT_POOL else req.pool
  }

  function CreateHost(db: Db, req: HostRequest): Reply {
    var pool := PoolFor(req);
    if !req.ipValid || !PoolExists(db, pool) then Reply(db, BadRequest)
    else
      var priority := if req.priority <= 0 then NextPriority(db.hosts, pool) else req.priority;
      if SlotTaken(db.hosts, pool, priority, db.nextId) then Reply(db, Conflict)
      else
        var h := Host(db.nextId, req.ip, priority, pool, req.trafficThreshold, req.preCommand, req.disconnectCommand,
                      Ready, false);
        Reply(db.(hosts := db.hosts + [h], nextId := db.nextId + 1), Success)
  }

  function Edited(h: Host, req: HostRequest): Host {
    h.(ip := if req.ip == "" then h.ip else req.ip,
       priority := if req.priority == 0 then h.priority else req.priority,
       pool := if req.pool == "" then h.pool else req.pool,
       trafficThreshold := if req.trafficThreshold == 0 then h.trafficThreshold else req.trafficThreshold,
       preCommand := if req.preCommand == "" then h.preCommand else req.preCommand,
       disconnectCommand := if req.disconnectCommand == "" then h.disconnectCommand else req.disconnectCommand)
  }

  function WithRow(hosts: seq<Host>, row: Host): (r: seq<Host>)
    ensures |r| == |hosts|
    ensures forall i :: 0 <= i < |r| ==> r[i] == if hosts[i].id == row.id then row else hosts[i]
  {
    seq(|hosts|, i requires 0 <= i < |hosts| => if hosts[i].id == row.id then row else hosts[i])
  }

  function UpdateHost(db: Db, id: nat, req: HostRequest): Reply {
    var row := FindHost(db.hosts, id);
    if row.None? then Reply(db, NotFound)
    else if req.ip != "" && !req.ipValid then Reply(db, BadRequest)
    else if TrimSpace(req.pool) != "" && !PoolExists(db, req.pool) then Reply(db, BadRequest)
    else
      var h := Edited(row.value, req);
      if SlotTaken(db.hosts, h.pool, h.priority, id) then Reply(db, Conflict)
      else Reply(db.(hosts := WithRow(db.hosts, h)), Success)
  }

  function Without(hosts: seq<Host>, id: nat): seq<Host> {
    if |hosts| == 0 then []
    else
      var rest := Without(hosts[..|hosts| - 1], id);
      if hosts[|hosts| - 1].id == id then rest else rest + [hosts[|hosts| - 1]]
  }

  // Only the row goes; the stored leader stays what it was.
  function DeleteHost(db: Db, id: nat): Reply {
    Reply(db.(hosts := Without(db.hosts, id)), Success)
  }

  predicate NameChar(c: char) {
    'a' <= c <= 'z' || 'A' <= c <= 'Z' || '0' <= c <= '9' || c == '_' || c == '-'
  }

  predicate ValidPoolName(name: string) {
    1 <= |name| <= 100 && forall i :: 0 <= i < |name| ==> NameChar(name[i])
  }

  function CreatePool(db: Db, name: string): Reply {
    var pool := TrimSpace(name);
    if !ValidPoolName(pool) then Reply(db, BadRequest)
    else if pool in db.pools then Reply(db, Conflict)
    else Reply(db.(pools := db.pools + {pool}), Success)
  }

  function DeletePool(db: Db, name: string): Reply {
    var pool := TrimSpace(name);
    if pool == "" || pool == DEFAULT_POOL then Reply(db, BadRequest)
    else if exists h :: h in db.hosts && h.pool == pool then Reply(db, BadRequest)
    else Reply(db.(pools := db.pools - {pool}), Success)
  }

  // At startup the default pool and every pool a host names are registered.
  function HostPools(hosts: seq<Host>): set<string> {
    set h | h in hosts && TrimSpace(h.pool) != "" :: TrimSpace(h.pool)
  }

  function Startup(db: Db): Db {
    db.(pools := db.pools + {DEFAULT_POOL} + HostPools(db.hosts))
  }

  // SetHostState: the operator overrides the state machine.
  function ForceState(db: Db, id: nat, state: HostState): Db {
    db.(hosts := seq(|db.hosts|, i requires 0 <= i < |db.hosts| =>
      if db.hosts[i].id == id then db.hosts[i].(state := state) else db.hosts[i]))
  }

  // What the handlers keep

  ghost predicate UniquePriorities(hosts: seq<Host>) {
    forall i, j :: 0 <= i < j < |hosts| ==> hosts[i].pool != hosts[j].pool || hosts[i].priority != hosts[j].priority
  }

  ghost predicate PoolNames(pools: set<string>) {
    DEFAULT_POOL in pools && forall p :: p in pools ==> p != "" && Trimmed(p)
  }

  ghost predicate Registered(hosts: seq<Host>, pools: set<string>) {
    forall h :: h in hosts ==> h.pool in pools
  }

  // Every host's pool is registered, the default pool is, and no two hosts share
  // a pool and a priority.
  ghost predicate Integrity(db: Db) {
    PoolNames(db.pools) && Registered(db.hosts, db.pools) && UniquePriorities(db.hosts)
  }

  // Creating a host keeps integrity exactly when the submitted pool name is
  // trimmed; the unique index is kept in any case.
  lemma CreateHostKeeps(db: Db, req: HostRequest)
    requires Integrity(db) && ValidIds(db)
    ensures
      var reply := CreateHost(db, req);
      && ValidIds(reply.db) && UniquePriorities(reply.db.hosts)
      && (reply.status != Success ==> reply.db == db)
      && (reply.status == Success ==> (Integrity(reply.db) <==> Trimmed(req.pool)))
  {
    hide NextPriority, Trimmed;
    var reply := CreateHost(db, req);
    var pool := PoolFor(req);
    TrimSpaceTrims(pool);
    EmptyTrimmed();
    if reply.status == Success {
      var h := reply.db.hosts[|db.hosts|];
      assert forall g :: g in reply.db.hosts <==> g in db.hosts || g == h;
      assert reply.db.hosts == db.hosts + [h];
      UniqueAfterAppend(db.hosts, h);
      assert h.pool in db.pools <==> pool == TrimSpace(pool);
    }
  }

  lemma UniqueAfterAppend(hosts: seq<Host>, h: Host)
    requires DistinctIds(hosts) && UniquePriorities(hosts)
    requires (forall g :: g in hosts ==> g.id != h.id) && !SlotTaken(hosts, h.pool, h.priority, h.id)
    ensures DistinctIds(hosts + [h]) && UniquePriorities(hosts + [h])
  {
    assert forall i :: 0 <= i < |hosts| ==> hosts[i] in hosts;
  }

  lemma EmptyTrimmed()
    ensures Trimmed("") && Trimmed(DEFAULT_POOL) && DEFAULT_POOL != ""
  {
  }

  // The same for an update: it can only unregister a host by moving it to a
  // pool name that is not trimmed.
  lemma UpdateHostKeeps(db: Db, id: nat, req: HostRequest)
    requires Integrity(db) && ValidIds(db)
    ensures
      var reply := UpdateHost(db, id, req);
      && ValidIds(reply.db) && UniquePriorities(reply.db.hosts)
      && (reply.status != Success ==> reply.db == db)
      && (reply.status == Success ==> (Integrity(reply.db) <==> Trimmed(req.pool)))
  {
    hide *;
    var reply := UpdateHost(db, id, req);
    UpdateHostIs(db, id, req);
    IntegrityParts(db);
    if reply.status == Success {
      var row := FindHost(db.hosts, id).value;
      var h := Edited(row, req);
      var k := RowAt(db, row);
      EditedTwice(row, req);
      OnlyRowChanges(db.hosts, h, k);
      UniqueAfterEdit(db.hosts, h, k);
      SameIds(db, k, h);
      RegisteredAfterEdit(db, k, req);
      IntegrityIf(db, db.(hosts := db.hosts[k := h]));
    }
  }

  lemma IntegrityParts(db: Db)
    requires Integrity(db)
    ensures PoolNames(db.pools) && Registered(db.hosts, db.pools) && UniquePriorities(db.hosts)
  {
    hide PoolNames, Registered, UniquePriorities;
  }

  lemma IntegrityIf(db: Db, after: Db)
    requires PoolNames(db.pools) && after.pools == db.pools && UniquePriorities(after.hosts)
    ensures Integrity(after) <==> Registered(after.hosts, db.pools)
  {
    hide PoolNames, Registered, UniquePriorities;
  }

  lemma SameIds(db: Db, k: nat, h: Host)
    requires ValidIds(db) && k < |db.hosts| && db.hosts[k].id == h.id
    ensures ValidIds(db.(hosts := db.hosts[k := h]))
  {
    assert db.hosts[k] in db.hosts;
  }

  // An edited row names a registered pool exactly when the request's is trimmed.
  lemma RegisteredAfterEdit(db: Db, k: nat, req: HostRequest)
    requires PoolNames(db.pools) && Registered(db.hosts, db.pools) && k < |db.hosts|
    requires TrimSpace(req.pool) == "" || PoolExists(db, req.pool)
    ensures Registered(db.hosts[k := Edited(db.hosts[k], req)], db.pools) <==> Trimmed(req.pool)
  {
    hide TrimSpace, Trimmed;
    TrimSpaceTrims(req.pool);
    EmptyTrimmed();
    var h := Edited(db.hosts[k], req);
    var hosts := db.hosts[k := h];
    assert db.hosts[k] in db.hosts && hosts[k] == h && h in hosts;
    assert forall g :: g in hosts ==> g == h || g in db.hosts;
  }

  lemma OnlyRowChanges(hosts: seq<Host>, h: Host, k: nat)
    requires DistinctIds(hosts) && k < |hosts| && hosts[k].id == h.id
    ensures WithRow(hosts, h) == hosts[k := h]
    ensures DistinctIds(WithRow(hosts, h))
  {
  }

  lemma UniqueAfterEdit(hosts: seq<Host>, h: Host, k: nat)
    requires DistinctIds(hosts) && UniquePriorities(hosts) && k < |hosts| && hosts[k].id == h.id
    requires !SlotTaken(hosts, h.pool, h.priority, h.id)
    ensures UniquePriorities(hosts[k := h])
  {
    assert forall i :: 0 <= i < |hosts| ==> hosts[i] in hosts;
  }

  lemma {:induction false} WithoutRows(hosts: seq<Host>, id: nat)
    ensures forall h :: h in Without(hosts, id) <==> h in hosts && h.id != id
  {
    if |hosts| > 0 {
      var n := |hosts| - 1;
      WithoutRows(hosts[..n], id);
      assert hosts == hosts[..n] + [hosts[n]];
    }
  }

  // Two rows that are apart in the first table are apart in the second.
  ghost predicate KeepsApart(before: seq<Host>, after: seq<Host>) {
    && (DistinctIds(before) ==> DistinctIds(after))
    && (UniquePriorities(before) ==> UniquePriorities(after))
  }

  lemma {:induction false} WithoutKeepsApart(hosts: seq<Host>, id: nat)
    ensures KeepsApart(hosts, Without(hosts, id))
  {
    hide DistinctIds, UniquePriorities;
    if |hosts| > 0 {
      var n := |hosts| - 1;
      WithoutKeepsApart(hosts[..n], id);
      WithoutRows(hosts[..n], id);
      AppendKeepsApart(hosts[..n], Without(hosts[..n], id), hosts[n]);
      assert hosts == hosts[..n] + [hosts[n]];
    }
  }

  lemma AppendKeepsApart(before: seq<Host>, after: seq<Host>, h: Host)
    requires KeepsApart(before, after) && forall g :: g in after ==> g in before
    ensures KeepsApart(before + [h], after) && KeepsApart(before + [h], after + [h])
  {
    var all := before + [h];
    assert forall i :: 0 <= i < |before| ==> all[i] == before[i];
    forall i | 0 <= i < |after|
      ensures DistinctIds(all) ==> after[i].id != h.id
      ensures UniquePriorities(all) ==> after[i].pool != h.pool || after[i].priority != h.priority
    {
      assert after[i] in before;
      var j :| 0 <= j < |before| && before[j] == after[i];
      assert all[j] == after[i] && all[|before|] == h;
    }
  }

  lemma WithoutFacts(hosts: seq<Host>, id: nat)
    ensures forall h :: h in Without(hosts, id) <==> h in hosts && h.id != id
    ensures DistinctIds(hosts) ==> DistinctIds(Without(hosts, id))
    ensures UniquePriorities(hosts) ==> UniquePriorities(Without(hosts, id))
  {
    hide Without, DistinctIds, UniquePriorities;
    WithoutRows(hosts, id);
    WithoutKeepsApart(hosts, id);
  }

  // The pool handlers and deletion keep integrity whatever they are given.
  lemma PoolHandlersKeep(db: Db, id: nat, name: string, state: HostState)
    requires Integrity(db) && ValidIds(db)
    ensures Integrity(DeleteHost(db, id).db) && ValidIds(DeleteHost(db, id).db)
    ensures Integrity(CreatePool(db, name).db) && ValidIds(CreatePool(db, name).db)
    ensures Integrity(DeletePool(db, name).db) && ValidIds(DeletePool(db, name).db)
    ensures Integrity(ForceState(db, id, state)) && ValidIds(ForceState(db, id, state))
  {
    hide Trimmed, ValidPoolName, TrimSpace;
    TrimSpaceTrims(name);
    EmptyTrimmed();
    NamesNotEmpty(TrimSpace(name));
    WithoutFacts(db.hosts, id);
    ForcedRows(db, id, state);
  }

  // The names that may be given: 1 to 100 letters, digits, underscores and hyphens.
  lemma ValidNamesAre(name: string)
    ensures ValidPoolName(name) <==>
      && 1 <= |name| <= 100
      && forall c :: c in name ==>
           c in "abcdefghijklmnopqrstuvwxyz" || c in "ABCDEFGHIJKLMNOPQRSTUVWXYZ" || c in "0123456789" || c in "_-"
    ensures name == "my_pool-2" ==> ValidPoolName(name)
  {
    hide ValidPoolName;
    forall c ensures NameChar(c) <==>
      c in "abcdefghijklmnopqrstuvwxyz" || c in "ABCDEFGHIJKLMNOPQRSTUVWXYZ" || c in "0123456789" || c in "_-"
    {
      IsLower(c);
      IsUpper(c);
      IsDigit(c);
    }
    hide NameChar;
    ValidByChar(name);
  }

  lemma ValidByChar(name: string)
    ensures ValidPoolName(name) <==> 1 <= |name| <= 100 && forall c :: c in name ==> NameChar(c)
    ensures name == "my_pool-2" ==> ValidPoolName(name)
  {
    if 1 <= |name| <= 100 && forall c :: c in name ==> NameChar(c) {
      forall i | 0 <= i < |name| ensures NameChar(name[i]) {
        assert name[i] in name;
      }
    }
  }

  lemma IsLower(c: char)
    ensures c in "abcdefghijklmnopqrstuvwxyz" <==> 'a' <= c <= 'z'
  {
    if 'a' <= c <= 'z' {
      assert "abcdefghijklmnopqrstuvwxyz"[c as int - 97] == c;
    }
  }

  lemma IsUpper(c: char)
    ensures c in "ABCDEFGHIJKLMNOPQRSTUVWXYZ" <==> 'A' <= c <= 'Z'
  {
    if 'A' <= c <= 'Z' {
      assert "ABCDEFGHIJKLMNOPQRSTUVWXYZ"[c as int - 65] == c;
    }
  }

  lemma IsDigit(c: char)
    ensures c in "0123456789" <==> '0' <= c <= '9'
  {
    if '0' <= c <= '9' {
      assert "0123456789"[c as int - 48] == c;
    }
  }

  lemma NamesNotEmpty(name: string)
    ensures ValidPoolName(name) ==> name != ""
  {
  }

  lemma ForcedRows(db: Db, id: nat, state: HostState)
    requires Registered(db.hosts, db.pools) && ValidIds(db) && UniquePriorities(db.hosts)
    ensures Registered(ForceState(db, id, state).hosts, db.pools)
    ensures UniquePriorities(ForceState(db, id, state).hosts) && ValidIds(ForceState(db, id, state))
  {
    var hosts := ForceState(db, id, state).hosts;
    forall h | h in hosts ensures h.pool in db.pools && 1 <= h.id < db.nextId {
      var i :| 0 <= i < |hosts| && hosts[i] == h;
      assert db.hosts[i] in db.hosts;
    }
  }

  // Startup registers whatever pools the hosts name, provided they are trimmed
  // and not blank; that is exactly what it needs.
  lemma StartupEstablishes(db: Db)
    requires UniquePriorities(db.hosts) && forall p :: p in db.pools ==> p != "" && Trimmed(p)
    ensures Integrity(Startup(db)) <==> forall h :: h in db.hosts ==> h.pool != "" && Trimmed(h.pool)
  {
    hide Trimmed, TrimSpace;
    EmptyTrimmed();
    forall h | h in db.hosts ensures TrimSpace(h.pool) == h.pool <==> Trimmed(h.pool) {
      TrimSpaceTrims(h.pool);
    }
    forall p | p in HostPools(db.hosts) ensures p != "" && Trimmed(p) {
      var h :| h in db.hosts && TrimSpace(h.pool) != "" && TrimSpace(h.pool) == p;
      TrimSpaceTrims(h.pool);
    }
  }

  // Starting up again changes nothing.
  lemma StartupKeeps(db: Db)
    requires Integrity(db)
    ensures Startup(db) == db
  {
    hide Trimmed, TrimSpace;
    forall p | p in HostPools(db.hosts) ensures p in db.pools {
      var h :| h in db.hosts && TrimSpace(h.pool) != "" && TrimSpace(h.pool) == p;
      TrimSpaceTrims(h.pool);
      assert h.pool in db.pools;
    }
    assert Startup(db).pools == db.pools;
  }

  lemma {:induction false} CeilingFacts(hosts: seq<Host>, pool: string)
    ensures forall h :: h in hosts && h.pool == pool ==>
      PriorityCeiling(hosts, pool).Some? && h.priority <= PriorityCeiling(hosts, pool).value
    ensures PriorityCeiling(hosts, pool).Some? ==>
      exists h :: h in hosts && h.pool == pool && h.priority == PriorityCeiling(hosts, pool).value
  {
    if |hosts| > 0 {
      var n := |hosts| - 1;
      CeilingFacts(hosts[..n], pool);
      assert hosts == hosts[..n] + [hosts[n]];
      assert hosts[n] in hosts;
    }
  }

  ghost predicate Int64Priorities(hosts: seq<Host>) {
    forall h :: h in hosts ==> MIN_INT64 <= h.priority <= MAX_INT64
  }

  // The greatest priority in a pool, 0 if the pool has no host.
  ghost predicate IsTop(hosts: seq<Host>, pool: string, top: int) {
    if exists h :: h in hosts && h.pool == pool then
      (exists h :: h in hosts && h.pool == pool && h.priority == top) &&
      (forall h :: h in hosts && h.pool == pool ==> h.priority <= top)
    else top == 0
  }

  // When an automatic priority collides. With a trimmed pool name: exactly when
  // the pool holds both the greatest and the least 64-bit priority, so that the
  // increment wraps around. With an untrimmed one: exactly when a host carries
  // that name with the priority next to the greatest of the trimmed pool, since
  // the greatest is looked up under the trimmed name.
  lemma AutoPriorityFree(hosts: seq<Host>, pool: string, id: nat)
    requires Int64Priorities(hosts) && forall h :: h in hosts ==> h.id != id
    ensures SlotTaken(hosts, pool, NextPriority(hosts, pool), id) <==>
      if Trimmed(pool) then
        (exists h :: h in hosts && h.pool == pool && h.priority == MAX_INT64) &&
        (exists h :: h in hosts && h.pool == pool && h.priority == MIN_INT64)
      else
        exists h, top :: h in hosts && h.pool == pool && IsTop(hosts, TrimSpace(pool), top) && h.priority == Next64(top)
    ensures MIN_INT64 <= NextPriority(hosts, pool) <= MAX_INT64
  {
    hide TrimSpace, Trimmed, IsTop;
    TrimSpaceTrims(pool);
    CeilingFacts(hosts, TrimSpace(pool));
    NextIsTop(hosts, pool);
    if Trimmed(pool) {
      CeilingFacts(hosts, pool);
    }
  }

  lemma NextIsTop(hosts: seq<Host>, pool: string)
    requires Int64Priorities(hosts)
    ensures MIN_INT64 <= NextPriority(hosts, pool) <= MAX_INT64
    ensures exists top :: IsTop(hosts, TrimSpace(pool), top) && NextPriority(hosts, pool) == Next64(top)
    ensures forall top :: IsTop(hosts, TrimSpace(pool), top) ==> NextPriority(hosts, pool) == Next64(top)
  {
    hide TrimSpace;
    CeilingFacts(hosts, TrimSpace(pool));
    var ceiling := PriorityCeiling(hosts, TrimSpace(pool));
    assert IsTop(hosts, TrimSpace(pool), if ceiling.Some? then ceiling.value else 0);
  }

  lemma NextFollows(hosts: seq<Host>, pool: string)
    ensures IsNextPriority(NextPriority(hosts, pool), hosts, TrimSpace(pool))
  {
    hide TrimSpace;
    var trimmed := TrimSpace(pool);
    CeilingFacts(hosts, trimmed);
    var ceiling := PriorityCeiling(hosts, trimmed);
    assert IsTop(hosts, trimmed, if ceiling.Some? then ceiling.value else 0);
  }

  // What a created row owes to its request.
  predicate IsCreated(h: Host, req: HostRequest, id: nat) {
    && h.id == id && h.state == Ready && !h.isLeader && h.ip == req.ip
    && h.pool == PoolFor(req)
    && (req.priority > 0 ==> h.priority == req.priority)
    && h.trafficThreshold == req.trafficThreshold
    && h.preCommand == req.preCommand && h.disconnectCommand == req.disconnectCommand
  }

  // One above the greatest priority of the trimmed pool, or wrapped around.
  ghost predicate IsNextPriority(priority: int, hosts: seq<Host>, trimmed: string) {
    exists top :: IsTop(hosts, trimmed, top) && priority == Next64(top)
  }

  // A field that was not submitted keeps its value, any other takes the new one.
  predicate Takes<T(==)>(now: T, was: T, submitted: T, zero: T) {
    (submitted == zero ==> now == was) && (submitted != zero ==> now == submitted)
  }

  predicate IsUpdated(was: Host, now: Host, req: HostRequest) {
    && now.id == was.id && now.state == was.state && now.isLeader == was.isLeader
    && Takes(now.ip, was.ip, req.ip, "") && Takes(now.pool, was.pool, req.pool, "")
    && Takes(now.priority, was.priority, req.priority, 0)
    && Takes(now.trafficThreshold, was.trafficThreshold, req.trafficThreshold, 0)
    && Takes(now.preCommand, was.preCommand, req.preCommand, "")
    && Takes(now.disconnectCommand, was.disconnectCommand, req.disconnectCommand, "")
  }

  lemma UpdatedRow(hosts: seq<Host>, h: Host, req: HostRequest)
    requires h in hosts
    ensures Edited(h, req).id == h.id && IsUpdated(h, Edited(h, req), req)
    ensures DistinctIds(hosts) && UniquePriorities(hosts) ==>
      SlotTaken(hosts, Edited(h, req).pool, Edited(h, req).priority, h.id) ||
      UniquePriorities(WithRow(hosts, Edited(h, req)))
  {
    var taken := SlotTaken(hosts, Edited(h, req).pool, Edited(h, req).priority, h.id);
    if DistinctIds(hosts) && UniquePriorities(hosts) && !taken {
      var k :| 0 <= k < |hosts| && hosts[k] == h;
      OnlyRowChanges(hosts, Edited(h, req), k);
      UniqueAfterEdit(hosts, Edited(h, req), k);
    }
  }

  // Rows with another id are as they were; one with this id has taken the update.
  ghost predicate OneRowUpdated(before: seq<Host>, after: seq<Host>, id: nat, req: HostRequest) {
    && |after| == |before|
    && forall i :: 0 <= i < |before| ==>
         if before[i].id != id then after[i] == before[i]
         else exists h :: h in before && h.id == id && IsUpdated(h, after[i], req)
  }

  // What an update comes to, row by row.
  lemma UpdateHostMeans(db: Db, id: nat, req: HostRequest)
    ensures
      var reply := UpdateHost(db, id, req);
      reply.status == Success ==>
        && reply.db == db.(hosts := reply.db.hosts) && OneRowUpdated(db.hosts, reply.db.hosts, id, req)
        && (DistinctIds(db.hosts) && UniquePriorities(db.hosts) ==> UniquePriorities(reply.db.hosts))
  {
    hide TrimSpace, PoolExists, Edited, IsUpdated, UniquePriorities, DistinctIds, SlotTaken;
    if UpdateHost(db, id, req).status == Success {
      UpdatedRow(db.hosts, FindHost(db.hosts, id).value, req);
    }
  }

  // How requests are refused, by what they hold and what the tables hold: for a
  // bad address or an unknown pool, for a missing row, for a slot in use.
  lemma HostRefusals(db: Db, id: nat, req: HostRequest)
    requires ValidIds(db)
    ensures
      var status, pool := CreateHost(db, req).status, if req.pool == "" then "default" else req.pool;
      var bad := !req.ipValid || TrimSpace(pool) == "" || TrimSpace(pool) !in db.pools;
      var used := exists h :: h in db.hosts && h.pool == pool && h.priority == req.priority;
      && (status == BadRequest <==> bad)
      && (req.priority > 0 ==> (status == Conflict <==> !bad && used))
      && status != NotFound
    ensures
      var status, row := UpdateHost(db, id, req).status, FindHost(db.hosts, id);
      var badPool := TrimSpace(req.pool) != "" && TrimSpace(req.pool) !in db.pools;
      var bad := (req.ip != "" && !req.ipValid) || badPool;
      && (status == NotFound <==> forall h :: h in db.hosts ==> h.id != id)
      && (row.Some? ==>
           var pool := if req.pool == "" then row.value.pool else req.pool;
           var priority := if req.priority == 0 then row.value.priority else req.priority;
           var used := exists h :: h in db.hosts && h.id != id && h.pool == pool && h.priority == priority;
           && (status == BadRequest <==> bad)
           && (status == Conflict <==> !bad && used))
  {
    hide TrimSpace, NextPriority;
  }

  lemma PoolRefusals(db: Db, name: string)
    ensures
      var status := CreatePool(db, name).status;
      && (status == BadRequest <==> !ValidPoolName(TrimSpace(name)))
      && (status == Conflict <==> ValidPoolName(TrimSpace(name)) && TrimSpace(name) in db.pools)
      && status != NotFound
    ensures
      var status, used := DeletePool(db, name).status, exists h :: h in db.hosts && h.pool == TrimSpace(name);
      && (status == BadRequest <==> TrimSpace(name) == "" || TrimSpace(name) == "default" || used)
      && (status == BadRequest || status == Success)
  {
    hide TrimSpace, ValidPoolName;
  }

  // What undoes what

  lemma {:induction false} WithoutNone(hosts: seq<Host>, id: nat)
    requires forall h :: h in hosts ==> h.id != id
    ensures Without(hosts, id) == hosts
  {
    if |hosts| > 0 {
      assert hosts == hosts[..|hosts| - 1] + [hosts[|hosts| - 1]];
      WithoutNone(hosts[..|hosts| - 1], id);
    }
  }

  // Deleting a host just created leaves nothing of it but the id it used up.
  lemma CreateThenDelete(db: Db, req: HostRequest)
    requires ValidIds(db)
    ensures CreateHost(db, req).status == Success ==>
      DeleteHost(CreateHost(db, req).db, db.nextId).db == db.(nextId := db.nextId + 1)
  {
    hide NextPriority, PoolExists, SlotTaken;
    if CreateHost(db, req).status == Success {
      var hosts := CreateHost(db, req).db.hosts;
      assert hosts[..|hosts| - 1] == db.hosts;
      WithoutNone(db.hosts, db.nextId);
    }
  }

  // Sending the same update twice is sending it once.
  lemma UpdateTwice(db: Db, id: nat, req: HostRequest)
    requires ValidIds(db)
    ensures
      var once := UpdateHost(db, id, req);
      once.status == Success ==> UpdateHost(once.db, id, req) == once
  {
    hide PoolExists, TrimSpace;
    var once := UpdateHost(db, id, req);
    if once.status == Success {
      var row := FindHost(db.hosts, id).value;
      var k :| 0 <= k < |db.hosts| && db.hosts[k] == row;
      var h := Edited(row, req);
      OnlyRowChanges(db.hosts, h, k);
      FindHostIsRow(once.db.hosts, k);
      SlotStaysFree(db.hosts, h, h.pool, h.priority);
      EditedTwice(row, req);
      hide Edited;
      assert WithRow(once.db.hosts, h) == once.db.hosts;
      SamePools(db, once.db, req.pool);
    }
  }

  lemma EditedTwice(h: Host, req: HostRequest)
    ensures Edited(Edited(h, req), req) == Edited(h, req) && Edited(h, req).id == h.id
  {
  }

  lemma SlotStaysFree(hosts: seq<Host>, h: Host, pool: string, priority: int)
    ensures SlotTaken(WithRow(hosts, h), pool, priority, h.id) <==> SlotTaken(hosts, pool, priority, h.id)
  {
    var rows := WithRow(hosts, h);
    if SlotTaken(hosts, pool, priority, h.id) {
      var g :| g in hosts && g.id != h.id && g.pool == pool && g.priority == priority;
      var i :| 0 <= i < |hosts| && hosts[i] == g;
      assert rows[i] == g;
    }
    if SlotTaken(rows, pool, priority, h.id) {
      var g :| g in rows && g.id != h.id && g.pool == pool && g.priority == priority;
      var i :| 0 <= i < |rows| && rows[i] == g;
      assert hosts[i] == g;
    }
  }

  lemma SamePools(db: Db, after: Db, pool: string)
    requires after.pools == db.pools
    ensures PoolExists(after, pool) <==> PoolExists(db, pool)
  {
  }

  // The request that asks for a row as it is.
  function Restoring(h: Host): HostRequest {
    HostRequest(h.ip, true, h.priority, h.pool, h.trafficThreshold, h.preCommand, h.disconnectCommand)
  }

  // No field that the row holds as a zero value was given another.
  predicate FillsNothing(h: Host, req: HostRequest) {
    && (h.ip == "" ==> req.ip == "")
    && (h.priority == 0 ==> req.priority == 0)
    && (h.trafficThreshold == 0 ==> req.trafficThreshold == 0)
    && (h.preCommand == "" ==> req.preCommand == "")
    && (h.disconnectCommand == "" ==> req.disconnectCommand == "")
  }

  // An update can be undone by another exactly when it filled no empty field:
  // since a zero value means "keep", a threshold or command once set stays set.
  lemma UpdateUndone(db: Db, id: nat, req: HostRequest)
    requires Integrity(db) && ValidIds(db)
    ensures UpdateHost(db, id, req).status == Success ==>
      var row := FindHost(db.hosts, id).value;
      UpdateHost(UpdateHost(db, id, req).db, id, Restoring(row)) == Reply(db, Success) <==> FillsNothing(row, req)
  {
    hide *;
    var once := UpdateHost(db, id, req);
    if once.status == Success {
      UpdateHostIs(db, id, req);
      var row := FindHost(db.hosts, id).value;
      var h, back := Edited(row, req), Edited(Edited(row, req), Restoring(row));
      var k := RowAt(db, row);
      TablePools(db, once.db, row);
      RestoredRow(row, req);
      OnlyRowChanges(db.hosts, h, k);
      FindHostIsRow(once.db.hosts, k);
      OnlyRowChanges(once.db.hosts, back, k);
      SlotStaysFree(db.hosts, h, row.pool, row.priority);
      OwnSlotFree(db.hosts, k);
      UpdateHostIs(once.db, id, Restoring(row));
      var again := UpdateHost(once.db, id, Restoring(row));
      if back == row {
        assert db.hosts[k := h][k := back] == db.hosts;
      } else {
        assert again.status == Success ==> again.db.hosts[k] == back;
      }
    }
  }

  lemma RowAt(db: Db, h: Host) returns (k: nat)
    requires ValidIds(db) && h in db.hosts
    ensures k < |db.hosts| && db.hosts[k] == h && DistinctIds(db.hosts)
  {
    k :| 0 <= k < |db.hosts| && db.hosts[k] == h;
  }

  // An update of a row that exists, by an accepted address and pool.
  lemma UpdateHostIs(db: Db, id: nat, req: HostRequest)
    ensures
      var row, reply := FindHost(db.hosts, id), UpdateHost(db, id, req);
      && (reply.status != Success ==> reply.db == db)
      && (reply.status == Success ==>
           && row.Some? && reply.db == db.(hosts := WithRow(db.hosts, Edited(row.value, req)))
           && !SlotTaken(db.hosts, Edited(row.value, req).pool, Edited(row.value, req).priority, id)
           && (TrimSpace(req.pool) == "" || PoolExists(db, req.pool)))
      && (row.Some? && req.ipValid && PoolExists(db, req.pool) &&
          !SlotTaken(db.hosts, Edited(row.value, req).pool, Edited(row.value, req).priority, id)
          ==> reply.status == Success)
  {
    hide TrimSpace, PoolExists, SlotTaken, Edited;
  }

  lemma RestoredRow(h: Host, req: HostRequest)
    requires h.pool != ""
    ensures Restoring(h).ipValid && Restoring(h).pool == h.pool && Edited(h, req).id == h.id
    ensures Edited(Edited(h, req), Restoring(h)).id == h.id
    ensures Edited(Edited(h, req), Restoring(h)) == h <==> FillsNothing(h, req)
  {
  }

  lemma TablePools(db: Db, after: Db, h: Host)
    requires Integrity(db) && h in db.hosts && after.pools == db.pools
    ensures UniquePriorities(db.hosts) && h.pool != "" && PoolExists(after, h.pool)
  {
    TrimSpaceTrims(h.pool);
  }

  lemma OwnSlotFree(hosts: seq<Host>, k: nat)
    requires UniquePriorities(hosts) && DistinctIds(hosts) && k < |hosts|
    ensures !SlotTaken(hosts, hosts[k].pool, hosts[k].priority, hosts[k].id)
  {
  }

  // Creating a pool and deleting it again changes nothing; deleting one and
  // creating it again changes nothing exactly if it was there under a valid name.
  lemma PoolRoundTrips(db: Db, name: string)
    requires Integrity(db)
    ensures CreatePool(db, name).status == Success ==> DeletePool(CreatePool(db, name).db, name) == Reply(db, Success)
    ensures DeletePool(db, name).status == Success ==>
      (CreatePool(DeletePool(db, name).db, name) == Reply(db, Success) <==>
        TrimSpace(name) in db.pools && ValidPoolName(TrimSpace(name)))
  {
    hide TrimSpace, Trimmed, ValidPoolName;
    var pool := TrimSpace(name);
    NamesNotEmpty(pool);
    if CreatePool(db, name).status == Success {
      assert db.pools + {pool} - {pool} == db.pools;
    }
    if DeletePool(db, name).status == Success {
      assert pool in db.pools ==> db.pools - {pool} + {pool} == db.pools;
    }
  }

  // Inputs that fail

  function OnlyDefault(hosts: seq<Host>): Db {
    Db(hosts, |hosts| + 1, {DEFAULT_POOL}, 0, [], GlobalDns("", "", "", "", "", ""))
  }

  function Row(id: nat, pool: string, priority: int): Host {
    Host(id, "192.0.2.1", priority, pool, 0, "", "", Ready, false)
  }

  function Request(pool: string, priority: int): HostRequest {
    HostRequest("192.0.2.1", true, priority, pool, 0, "", "")
  }

  lemma PaddedName()
    ensures TrimSpace(" default") == DEFAULT_POOL && !Trimmed(" default") && " default" != DEFAULT_POOL
  {
    assert TrimLeft(" default") == "default" by {
      assert " default"[1..] == "default";
    }
    TrimSpaceTrims("default");
  }

  lemma BlankName()
    ensures TrimSpace("   ") == "" && !Trimmed("   ")
  {
    assert "   "[1..] == "  " && "  "[1..] == " " && " "[1..] == "";
    assert TrimLeft(" ") == "" && TrimLeft("  ") == "" && TrimLeft("   ") == "";
  }

  // A name with a space in front is found trimmed and stored as it is.
  lemma CreateHostBreaks()
    ensures
      var reply := CreateHost(OnlyDefault([]), Request(" default", 1));
      Integrity(OnlyDefault([])) && reply.status == Success && !Integrity(reply.db)
  {
    PaddedName();
    EmptyTrimmed();
    hide TrimSpace, Trimmed;
    var reply := CreateHost(OnlyDefault([]), Request(" default", 1));
    assert reply.db.hosts[0].pool == " default";
  }

  // So can an update store such a name, or a blank one, which is not looked up at all.
  lemma UpdateHostBreaks()
    ensures
      var db := OnlyDefault([Row(1, DEFAULT_POOL, 1)]);
      var padded, blank := UpdateHost(db, 1, Request(" default", 1)), UpdateHost(db, 1, Request("   ", 1));
      && Integrity(db)
      && padded.status == Success && !Integrity(padded.db)
      && blank.status == Success && !Integrity(blank.db) && blank.db.hosts[0].pool == "   "
  {
    PaddedName();
    BlankName();
    EmptyTrimmed();
    hide TrimSpace, Trimmed;
    var db := OnlyDefault([Row(1, DEFAULT_POOL, 1)]);
    assert db.hosts[0] == Row(1, DEFAULT_POOL, 1);
    FindHostIsRow(db.hosts, 0);
    var padded, blank := UpdateHost(db, 1, Request(" default", 1)), UpdateHost(db, 1, Request("   ", 1));
    assert padded.db.hosts[0] in padded.db.hosts && blank.db.hosts[0] in blank.db.hosts;
  }

  // A host whose pool name is padded stays unregistered at startup.
  lemma StartupMisses()
    ensures
      var db := OnlyDefault([Row(1, " default", 1)]);
      UniquePriorities(db.hosts) && !Integrity(Startup(db))
  {
    PaddedName();
    EmptyTrimmed();
    hide TrimSpace, Trimmed;
    var db := OnlyDefault([Row(1, " default", 1)]);
    assert db.hosts[0] in db.hosts;
    StartupEstablishes(db);
  }

  // Two hosts created under a padded name with automatic priorities: both are
  // given priority 1, and the second is refused.
  lemma PaddedPriorityCollides()
    ensures
      var first := CreateHost(OnlyDefault([]), Request(" default", 0));
      && first.status == Success && first.db.hosts[0].priority == 1
      && CreateHost(first.db, Request(" default", 0)).status == Conflict
  {
    PaddedName();
    hide TrimSpace;
    var req := Request(" default", 0);
    var first := CreateHost(OnlyDefault([]), req);
    assert first.db.hosts == [Row(1, " default", 1)];
    CeilingFacts(first.db.hosts, DEFAULT_POOL);
    assert first.db.hosts[0] in first.db.hosts;
  }

  // And two more hosts after one with the greatest priority: the first wraps
  // around to the least, the second is refused.
  lemma WrappedPriorityCollides()
    ensures
      var db := OnlyDefault([Row(1, DEFAULT_POOL, MAX_INT64)]);
      var first := CreateHost(db, Request(DEFAULT_POOL, 0));
      && first.status == Success && first.db.hosts[1].priority == MIN_INT64
      && CreateHost(first.db, Request(DEFAULT_POOL, 0)).status == Conflict
  {
    TrimSpaceTrims(DEFAULT_POOL);
    EmptyTrimmed();
    var top, least := Row(1, DEFAULT_POOL, MAX_INT64), Row(2, DEFAULT_POOL, MIN_INT64);
    NextWraps([top], top);
    NextWraps([top, least], top);
    hide TrimSpace, NextPriority;
    var first := CreateHost(OnlyDefault([top]), Request(DEFAULT_POOL, 0));
    assert first.db.hosts == [top, least];
    assert first.db.hosts[1] in first.db.hosts;
  }

  lemma NextWraps(hosts: seq<Host>, top: Host)
    requires top in hosts && top.pool == DEFAULT_POOL && top.priority == MAX_INT64 && Int64Priorities(hosts)
    ensures NextPriority(hosts, DEFAULT_POOL) == MIN_INT64
  {
    TrimSpaceTrims(DEFAULT_POOL);
    EmptyTrimmed();
    hide TrimSpace, PriorityCeiling;
    CeilingFacts(hosts, DEFAULT_POOL);
  }

  // The handlers as the program runs them

  // `nextId` is the auto-increment column; the unique index rejects a row whose
  // slot is taken.
  class HostApi {
    const db: Store

    constructor (db: Store)
      ensures this.db == db
    {
      this.db := db;
    }

    method Create(req: HostRequest) returns (status: Status)
      modifies db
      ensures status == BadRequest <==>
        !req.ipValid || !PoolExists(old(db.Contents()), PoolFor(req))
      ensures status != Success ==> db.Contents() == old(db.Contents())
      ensures status == Success ==>
        && db.Contents() == old(db.Contents()).(hosts := db.hosts, nextId := old(db.nextId) + 1)
        && |db.hosts| == |old(db.hosts)| + 1 && db.hosts[..|old(db.hosts)|] == old(db.hosts)
        && IsCreated(db.hosts[|old(db.hosts)|], req, old(db.nextId))
        && (req.priority <= 0 ==>
             IsNextPriority(db.hosts[|old(db.hosts)|].priority, old(db.hosts), TrimSpace(PoolFor(req))))
      ensures Reply(db.Contents(), status) == CreateHost(old(db.Contents()), req)
      ensures db.effects == old(db.effects)
    {
      hide TrimSpace, NextPriority, IsTop;
      if !req.ipValid {
        return BadRequest;
      }
      var pool, priority := req.pool, req.priority;
      if pool == "" {
        pool := DEFAULT_POOL;
      }
      if !PoolExists(db.Contents(), pool) {
        return BadRequest;
      }
      if priority <= 0 {
        priority := NextPriority(db.hosts, pool);
      }
      if SlotTaken(db.hosts, pool, priority, db.nextId) {
        return Conflict;
      }
      var host := Host(db.nextId, req.ip, priority, pool, req.trafficThreshold, req.preCommand, req.disconnectCommand,
                       Ready, false);
      NextFollows(db.hosts, pool);
      db.hosts := db.hosts + [host];
      db.nextId := db.nextId + 1;
      return Success;
    }

    method Update(id: nat, req: HostRequest) returns (status: Status)
      modifies db
      ensures status == NotFound <==> forall h :: h in old(db.hosts) ==> h.id != id
      ensures status != Success ==> db.Contents() == old(db.Contents())
      ensures status == Success ==>
        && db.Contents() == old(db.Contents()).(hosts := db.hosts)
        && OneRowUpdated(old(db.hosts), db.hosts, id, req)
      ensures status == Success && DistinctIds(old(db.hosts)) && UniquePriorities(old(db.hosts)) ==>
        UniquePriorities(db.hosts)
      ensures Reply(db.Contents(), status) == UpdateHost(old(db.Contents()), id, req)
      ensures db.effects == old(db.effects)
    {
      hide TrimSpace, PoolExists, Edited, OneRowUpdated, UniquePriorities, DistinctIds, SlotTaken;
      UpdateHostMeans(db.Contents(), id, req);
      var host := FindHost(db.hosts, id);
      if host.None? {
        return NotFound;
      }
      if req.ip != "" && !req.ipValid {
        return BadRequest;
      }
      if TrimSpace(req.pool) != "" && !PoolExists(db.Contents(), req.pool) {
        return BadRequest;
      }
      var row := Edited(host.value, req);
      if SlotTaken(db.hosts, row.pool, row.priority, id) {
        return Conflict;
      }
      db.hosts := WithRow(db.hosts, row);
      return Success;
    }

    method Delete(id: nat)
      modifies db
      ensures forall h :: h in db.hosts <==> h in old(db.hosts) && h.id != id
      ensures db.Contents() == old(db.Contents()).(hosts := db.hosts)
      ensures DistinctIds(old(db.hosts)) ==> DistinctIds(db.hosts)
      ensures db.Contents() == DeleteHost(old(db.Contents()), id).db && db.effects == old(db.effects)
    {
      WithoutFacts(db.hosts, id);
      db.hosts := Without(db.hosts, id);
    }
  }

  class PoolApi {
    const db: Store

    constructor (db: Store)
      ensures this.db == db
    {
      this.db := db;
    }

    method Create(name: string) returns (status: Status)
      modifies db
      ensures status == Success <==> ValidPoolName(TrimSpace(name)) && TrimSpace(name) !in old(db.pools)
      ensures status == Conflict ==> TrimSpace(name) in old(db.pools)
      ensures forall p :: p in db.pools <==> p in old(db.pools) || (status == Success && p == TrimSpace(name))
      ensures db.Contents() == old(db.Contents()).(pools := db.pools)
      ensures Reply(db.Contents(), status) == CreatePool(old(db.Contents()), name)
      ensures db.effects == old(db.effects)
    {
      var pool := TrimSpace(name);
      if !ValidPoolName(pool) {
        return BadRequest;
      }
      if pool in db.pools {
        return Conflict;
      }
      db.pools := db.pools + {pool};
      return Success;
    }

    method Delete(name: string) returns (status: Status)
      modifies db
      ensures TrimSpace(name) == DEFAULT_POOL ==> status != Success
      ensures (exists h :: h in old(db.hosts) && h.pool == TrimSpace(name)) ==> status != Success
      ensures forall p :: p in db.pools <==> p in old(db.pools) && !(status == Success && p == TrimSpace(name))
      ensures db.Contents() == old(db.Contents()).(pools := db.pools)
      ensures Reply(db.Contents(), status) == DeletePool(old(db.Contents()), name)
      ensures db.effects == old(db.effects)
    {
      var pool := TrimSpace(name);
      if pool == "" {
        return BadRequest;
      }
      if pool == DEFAULT_POOL {
        return BadRequest;
      }
      if exists h :: h in db.hosts && h.pool == pool {
        return BadRequest;
      }
      db.pools := db.pools - {pool};
      return Success;
    }

    // ensureDefaultPool and syncPoolsFromHosts, as run at startup.
    method Seed()
      modifies db
      ensures db.Contents() == Startup(old(db.Contents())) && db.effects == old(db.effects)
    {
      if DEFAULT_POOL !in db.pools {
        db.pools := db.pools + {DEFAULT_POOL};
      }
      ghost var start := db.pools;
      var hosts := db.hosts;
      for i := 0 to |hosts|
        invariant db.pools == start + HostPools(hosts[..i])
        invariant db.Contents() == old(db.Contents()).(pools := db.pools) && db.effects == old(db.effects)
      {
        var name := TrimSpace(hosts[i].pool);
        HostPoolsStep(hosts, i);
        if name != "" && name !in db.pools {
          db.pools := db.pools + {name};
        }
      }
      assert hosts[..|hosts|] == hosts;
    }
  }

  lemma HostPoolsStep(hosts: seq<Host>, i: nat)
    requires i < |hosts|
    ensures
      var name := TrimSpace(hosts[i].pool);
      HostPools(hosts[..i + 1]) == HostPools(hosts[..i]) + if name != "" then {name} else {}
  {
    hide TrimSpace;
    assert hosts[..i + 1] == hosts[..i] + [hosts[i]];
  }
}
