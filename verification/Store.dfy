// The database connection every component writes through. It also keeps the
// trace of effects, which no component reads back.
module Storage {
  import opened Models

  class Store {
    var hosts: seq<Host>
    var nextId: nat
    var pools: set<string>
    var leader: nat
    var rules: seq<Rule>
    var global: GlobalDns
    var effects: seq<Effect>

    function Contents(): Db
      reads this
    {
      Db(hosts, nextId, pools, leader, rules, global)
    }

    constructor (db: Db)
      ensures Contents() == db && effects == []
    {
      hosts, nextId, pools, leader := db.hosts, db.nextId, db.pools, db.leader;
      rules, global, effects := db.rules, db.global, [];
    }

    // Performs one effect and records it.
    method Emit(e: Effect)
      modifies this
      ensures effects == old(effects) + [e]
      ensures Contents() == Replay([e], old(Contents()))
      ensures |hosts| == |old(hosts)| && forall i :: 0 <= i < |hosts| ==> hosts[i] == RowAfter(e, old(hosts)[i])
      ensures IsSilent(e) ==> Contents() == old(Contents())
    {
      var rows := hosts;
      hosts := seq(|rows|, i requires 0 <= i < |rows| => RowAfter(e, rows[i]));
      if e.LeaderStored? {
        leader := e.host;
      }
      effects := effects + [e];
      forall i | 0 <= i < |rows| ensures RowAfterAll([e], rows[i]) == RowAfter(e, rows[i]) {
        RowAfterOne(e, rows[i]);
      }
      assert LeaderAfterAll([e], old(leader)) == leader by {
        assert [e][..0] == [];
      }
      assert hosts == Replay([e], old(Contents())).hosts;
      assert IsSilent(e) ==> hosts == rows;
    }
  }

  // Everything logged since, with no write to the tables.
  twostate predicate Logged(db: Store, new t: seq<Effect>)
    reads db
  {
    && db.effects == old(db.effects) + t
    && db.Contents() == old(db.Contents())
  }

  // Everything written since `db` had these contents and this trace was t.
  twostate predicate Wrote(db: Store, new t: seq<Effect>)
    reads db
  {
    && db.effects == old(db.effects) + t
    && db.Contents() == Replay(t, old(db.Contents()))
  }

  lemma Appended<T>(start: seq<T>, sofar: seq<T>, t: seq<T>)
    ensures start + sofar + t == start + (sofar + t)
  {
  }
}
