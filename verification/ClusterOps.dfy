/** The stored configuration and the object that changes it. */
module ClusterObjects {
  import opened RaftTypes
  import opened Membership

  /** The nodes table that a saved configuration leaves behind. */
  function RowsOf(c: Cluster): map<Uri, NodeRec>
  {
    if c.pending.Some? then c.nodes[c.pending.value.uri := c.pending.value] else c.nodes
  }

  /** Members are filed under their own uri, and the pending node is none of them. */
  predicate Keyed(c: Cluster)
  {
    (forall u :: u in c.nodes ==> c.nodes[u].uri == u) && (c.pending.Some? ==> c.pending.value.uri !in c.nodes)
  }

  function Unflagged(rows: map<Uri, NodeRec>): map<Uri, NodeRec> { map u | u in rows && !Flagged(rows[u]) :: rows[u] }

  /** What loading may answer: rows come in no particular order, and a later flagged row replaces an earlier one. */
  ghost predicate Loads(rows: map<Uri, NodeRec>, settings: Settings, c: Cluster)
  {
    && c.settings == settings && c.nodes == Unflagged(rows)
    && (c.pending.None? ==> forall u :: u in rows ==> !Flagged(rows[u]))
    && (c.pending.Some? ==> exists u :: u in rows && rows[u] == c.pending.value && Flagged(rows[u]))
  }

  /** Saving and loading gives back the same configuration exactly when its flags tell members from the pending node. */
  lemma RoundTripExactly(c: Cluster)
    requires Keyed(c)
    ensures (forall c' :: Loads(RowsOf(c), c.settings, c') ==> c' == c) <==>
            (forall u :: u in c.nodes ==> !Flagged(c.nodes[u])) && (c.pending.Some? ==> Flagged(c.pending.value))
  {
    var rows := RowsOf(c);
    var ok := (forall u :: u in c.nodes ==> !Flagged(c.nodes[u])) && (c.pending.Some? ==> Flagged(c.pending.value));
    if ok {
      forall c' | Loads(rows, c.settings, c')
        ensures c' == c
      {
        assert c'.nodes == c.nodes;
        if c.pending.Some? {
          assert c.pending.value.uri in rows && Flagged(rows[c.pending.value.uri]);
        }
      }
    } else {
      var flagged := set u | u in rows && Flagged(rows[u]);
      var c' := Cluster(Unflagged(rows), None, c.settings);
      if flagged == {} {
        assert forall u :: u in rows ==> u in flagged || !Flagged(rows[u]);
      } else {
        var u :| u in flagged;
        c' := c'.(pending := Some(rows[u]));
      }
      assert Loads(rows, c.settings, c');
      assert c'.nodes == c.nodes ==> forall u :: u in c.nodes ==> u in Unflagged(rows) && !Flagged(c.nodes[u]);
    }
  }

  class ConfigTable {
    var rows: map<Uri, NodeRec>
    var settings: Option<Settings>

    constructor ()
      ensures rows == map[] && settings == None
    {
      rows, settings := map[], None;
    }

    /** The tables hold this configuration. */
    ghost predicate Holds(c: Cluster)
      reads this
    {
      settings == Some(c.settings) && rows == RowsOf(c)
    }

    /** Rows are inserted one by one; a second row for the same uri raises. */
    method Save(c: Cluster) returns (raised: bool)
      requires forall u :: u in c.nodes ==> c.nodes[u].uri == u
      modifies this
      ensures raised == (c.pending.Some? && c.pending.value.uri in c.nodes)
      ensures if raised then rows == c.nodes && settings == None else Holds(c)
    {
      rows, settings := map[], None;
      var rest := c.nodes.Keys;
      while rest != {}
        invariant rest <= c.nodes.Keys && settings == None
        invariant rows == map u | u in c.nodes && u !in rest :: c.nodes[u]
        decreases |rest|
      {
        var u :| u in rest;
        rows := rows[c.nodes[u].uri := c.nodes[u]];
        rest := rest - {u};
      }
      assert rows == c.nodes;
      if c.pending.Some? {
        if c.pending.value.uri in rows {
          return true;
        }
        rows := rows[c.pending.value.uri := c.pending.value];
      }
      settings := Some(c.settings);
      return false;
    }

    method Load() returns (r: Option<Cluster>)
      requires forall u :: u in rows ==> rows[u].uri == u
      ensures r.None? == settings.None?
      ensures r.Some? ==> Loads(rows, settings.value, r.value)
    {
      if settings.None? {
        return None;
      }
      var nodes: map<Uri, NodeRec> := map[];
      var pending := None;
      var rest := rows.Keys;
      while rest != {}
        invariant rest <= rows.Keys
        invariant nodes == map u | u in rows && u !in rest && !Flagged(rows[u]) :: rows[u]
        invariant pending.None? ==> forall u :: u in rows && u !in rest ==> !Flagged(rows[u])
        invariant pending.Some? ==> exists u :: u in rows && rows[u] == pending.value && Flagged(rows[u])
        decreases |rest|
      {
        var u :| u in rest;
        var rec := rows[u];
        if Flagged(rec) {
          pending := Some(rec);
        } else {
          nodes := nodes[rec.uri := rec];
        }
        rest := rest - {u};
      }
      assert nodes == Unflagged(rows);
      r := Some(Cluster(nodes, pending, settings.value));
    }
  }

  class ClusterOps {
    const me: Uri
    const initial: Cluster         // what a store without a configuration is filled with
    const table: ConfigTable
    var current: Option<Cluster>
    var exits: seq<bool>           // note_exit_done, with its success flag

    constructor (me: Uri, initial: Cluster, table: ConfigTable)
      ensures this.me == me && this.initial == initial && this.table == table && current == None && exits == []
    {
      this.me, this.initial, this.table, current, exits := me, initial, table, None, [];
    }

    /** The configuration in force: the stored one, or the initial one if there is none. */
    ghost predicate InForce(c: Cluster)
      reads table
    {
      WellFormed(c) && if table.settings.None? then c == initial else table.Holds(c)
    }

    /** Loading a well-formed configuration gives back that configuration; an empty store is filled first. */
    method GetClusterConfig(ghost c: Cluster) returns (r: Cluster)
      requires InForce(c)
      modifies this`current, table
      ensures r == c && current == Some(c) && table.Holds(c) && InForce(c)
    {
      if table.settings.None? {
        var raised := table.Save(initial);
        r := initial;
      } else {
        assert forall u :: u in table.rows ==> table.rows[u].uri == u;
        var loaded := table.Load();
        RoundTripExactly(c);
        r := loaded.value;
      }
      current := Some(r);
    }

    method SaveChanged(c: Cluster)
      requires Keyed(c)
      modifies this`current, table
      ensures table.Holds(c) && current == Some(c)
    {
      var raised := table.Save(c);
      current := Some(c);
    }

    method StartNodeAdd(u: Uri, ghost c: Cluster) returns (raised: bool)
      requires InForce(c)
      modifies this`current, table
      ensures raised == LogUpdate(c, AddNode(u)).Raised?
      ensures table.Holds(if raised then c else LogUpdate(c, AddNode(u)).value)
    {
      var cc := GetClusterConfig(c);
      if cc.pending.Some? || u in cc.nodes {
        return true;
      }
      SaveChanged(cc.(pending := Some(NodeRec(u, true, false))));
      return false;
    }

    method FinishNodeAdd(u: Uri, ghost c: Cluster) returns (raised: bool)
      requires InForce(c)
      modifies this`current, table
      ensures raised == FinishAdd(c, u).Raised?
      ensures table.Holds(if raised then c else FinishAdd(c, u).value)
    {
      var cc := GetClusterConfig(c);
      if cc.pending.Some? && cc.pending.value.uri == u {
        var node := cc.pending.value.(adding := false);
        SaveChanged(cc.(nodes := cc.nodes[u := node], pending := None));
        return false;
      }
      return true;
    }

    method StartNodeRemove(u: Uri, ghost c: Cluster) returns (raised: bool)
      requires InForce(c)
      modifies this`current, table
      ensures raised == LogUpdate(c, RemoveNode(u)).Raised?
      ensures table.Holds(if raised then c else LogUpdate(c, RemoveNode(u)).value)
    {
      var cc := GetClusterConfig(c);
      if cc.pending.Some? || u !in cc.nodes {
        return true;
      }
      var node := cc.nodes[u].(removing := true);
      SaveChanged(cc.(nodes := cc.nodes - {u}, pending := Some(node)));
      return false;
    }

    method FinishNodeRemove(u: Uri, ghost c: Cluster) returns (raised: bool)
      requires InForce(c)
      modifies this`current, table
      ensures raised == FinishRemove(c, u).Raised?
      ensures table.Holds(if raised then c else FinishRemove(c, u).value)
    {
      var cc := GetClusterConfig(c);
      if cc.pending.Some? && cc.pending.value.uri == u && cc.pending.value.removing {
        SaveChanged(cc.(pending := None));
        return false;
      }
      return true;
    }

    method ReverseConfigChange(ch: Change, ghost c: Cluster)
      requires InForce(c)
      modifies this, table
      ensures table.Holds(Reverse(c, ch))
      ensures var stays := ch == RemoveNode(me) && c.pending.Some? && c.pending.value.uri == me;
              exits == old(exits) + if stays then [false] else []
    {
      var cc := GetClusterConfig(c);
      if ch.RemoveNode? && cc.pending.Some? && cc.pending.value.uri == ch.uri {
        cc := cc.(nodes := cc.nodes[ch.uri := cc.pending.value.(removing := false)]);
        if ch.uri == me {
          exits := exits + [false];
        }
      }
      SaveChanged(cc.(pending := None));
    }

    /** A settings record changes nothing until it is committed, not even an empty store. */
    method HandleLogUpdate(ch: Change, ghost c: Cluster) returns (raised: bool)
      requires InForce(c)
      modifies this`current, table
      ensures raised == LogUpdate(c, ch).Raised?
      ensures if ch.UpdateSettings? then table.settings == old(table.settings) && table.rows == old(table.rows)
              else table.Holds(if raised then c else LogUpdate(c, ch).value)
    {
      raised := false;
      match ch {
        case AddNode(u) => raised := StartNodeAdd(u, c);
        case RemoveNode(u) => raised := StartNodeRemove(u, c);
        case UpdateSettings(_) =>
      }
    }

    /** A settings record reads the store directly, and raises when it is empty. */
    method HandleLogCommit(ch: Change, ghost c: Cluster) returns (raised: bool)
      requires InForce(c)
      modifies this, table
      ensures raised == (LogCommit(c, ch, me).Raised? || (ch.UpdateSettings? && old(table.settings.None?)))
      ensures if ch.UpdateSettings? && raised then table.settings == None && table.rows == old(table.rows)
              else table.Holds(if raised then c else LogCommit(c, ch, me).value)
      ensures exits == old(exits) + if !raised && ch == RemoveNode(me) then [true] else []
    {
      raised := false;
      match ch {
        case AddNode(u) =>
          if u == me {
            var cc := GetClusterConfig(c);
            if cc.pending.None? {
              return;
            }
          }
          raised := FinishNodeAdd(u, c);
        case RemoveNode(u) =>
          raised := FinishNodeRemove(u, c);
          if !raised && u == me {
            exits := exits + [true];
          }
        case UpdateSettings(s) =>
          if table.settings.None? {
            return true;
          }
          var cc := GetClusterConfig(c);
          SaveChanged(cc.(settings := s));
      }
    }
  }
}
