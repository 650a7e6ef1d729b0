/**
 * The earlier agent buffer (internal/storage/stats.go): a map from name to a
 * (type, name, value-string) triple, filled by direct assignments rather than
 * through a parsing `Put`.
 */
module LegacyStats {
  import opened Wrappers
  import opened GoStrconv
  import opened RuntimeMetrics

  /** One buffered metric: its kind, its name and its value as formatted text. */
  datatype Stat = Stat(stype: string, name: string, value: string)

  /** Every stat is filed under its own name. */
  predicate WellNamed(stats: map<string, Stat>) {
    forall k | k in stats :: stats[k].name == k
  }

  /** The map after assigning each stat under its name, in order. */
  function Assign(stats: map<string, Stat>, writes: seq<Stat>): map<string, Stat>
  {
    if writes == [] then stats
    else
      var w := writes[|writes| - 1];
      Assign(stats, writes[..|writes| - 1])[w.name := w]
  }

  /** The set of names a series of assignments writes. */
  function Names(writes: seq<Stat>): (names: set<string>)
    ensures forall i | 0 <= i < |writes| :: writes[i].name in names
    ensures forall k | k in names :: exists i | 0 <= i < |writes| :: writes[i].name == k
  {
    set i | 0 <= i < |writes| :: writes[i].name
  }

  /**
   * The 29 assignments of `Update` (stats.go:35-179), in source order: the runtime
   * gauges, then the poll counter, then the random gauge.
   */
  function UpdateWrites(runtime: seq<string>, count: int, rand: string): (ws: seq<Stat>)
    requires |runtime| == |RuntimeNames|
    ensures |ws| == 29
    ensures forall i | 0 <= i < 27 :: ws[i] == Stat("gauge", RuntimeNames[i], runtime[i])
    ensures ws[27] == Stat("counter", PollCountName, FormatInt(count))
    ensures ws[28] == Stat("gauge", RandomValueName, rand)
  {
    seq(27, i requires 0 <= i < 27 => Stat("gauge", RuntimeNames[i], runtime[i]))
      + [Stat("counter", PollCountName, FormatInt(count)), Stat("gauge", RandomValueName, rand)]
  }

  class StatStorage {
    var stats: map<string, Stat>

    /** NewStatsStorage: an empty buffer. */
    constructor ()
      ensures stats == map[]
    {
      stats := map[];
    }

    /**
     * Update: assigns the 29 fixed stats one after another and always returns nil.
     * `runtime` holds the MemStats fields formatted with %v.
     */
    method Update(runtime: seq<string>, count: int, rand: string) returns (err: Option<string>)
      requires |runtime| == |RuntimeNames|
      modifies this
      ensures stats == Assign(old(stats), UpdateWrites(runtime, count, rand))
      ensures err == None
    {
      var writes := UpdateWrites(runtime, count, rand);
      for i := 0 to |writes|
        invariant stats == Assign(old(stats), writes[..i])
      {
        stats := stats[writes[i].name := writes[i]];
        assert writes[..i + 1][..i] == writes[..i];
      }
      assert writes[..|writes|] == writes;
      return None;
    }
  }

  /** Assigning onto a map is the map overridden by what the writes alone produce. */
  lemma {:induction false} AssignIsOverride(stats: map<string, Stat>, writes: seq<Stat>)
    ensures Assign(stats, writes) == stats + Assign(map[], writes)
  {
    if writes != [] {
      AssignIsOverride(stats, writes[..|writes| - 1]);
    }
  }

  /** The keys afterwards are exactly the old keys and the written names. */
  lemma {:induction false} AssignKeys(stats: map<string, Stat>, writes: seq<Stat>)
    ensures Assign(stats, writes).Keys == stats.Keys + Names(writes)
  {
    if writes != [] {
      var prefix := writes[..|writes| - 1];
      AssignKeys(stats, prefix);
      assert Names(writes) == Names(prefix) + {writes[|writes| - 1].name} by {
        forall k | k in Names(writes) ensures k in Names(prefix) + {writes[|writes| - 1].name} {
          var i :| 0 <= i < |writes| && writes[i].name == k;
          if i < |prefix| { assert prefix[i] == writes[i]; }
        }
        forall k | k in Names(prefix) ensures k in Names(writes) {
          var i :| 0 <= i < |prefix| && prefix[i].name == k;
          assert writes[i] == prefix[i];
        }
      }
    }
  }

  /** A written name holds one of the stats written under it. */
  lemma {:induction false} AssignWritten(stats: map<string, Stat>, writes: seq<Stat>, k: string)
    requires k in Names(writes)
    ensures k in Assign(stats, writes)
    ensures exists i | 0 <= i < |writes| :: writes[i].name == k && Assign(stats, writes)[k] == writes[i]
  {
    var last := writes[|writes| - 1];
    if k == last.name {
      assert writes[|writes| - 1].name == k;
    } else {
      var prefix := writes[..|writes| - 1];
      var j :| 0 <= j < |writes| && writes[j].name == k;
      assert prefix[j] == writes[j];
      AssignWritten(stats, prefix, k);
      var i :| 0 <= i < |prefix| && prefix[i].name == k && Assign(stats, prefix)[k] == prefix[i];
      assert writes[i] == prefix[i];
    }
  }

  /** A name that is never written keeps its old stat. */
  lemma {:induction false} AssignUntouched(stats: map<string, Stat>, writes: seq<Stat>, k: string)
    requires k in stats && k !in Names(writes)
    ensures k in Assign(stats, writes) && Assign(stats, writes)[k] == stats[k]
  {
    if writes != [] {
      var prefix := writes[..|writes| - 1];
      assert k != writes[|writes| - 1].name;
      assert k !in Names(prefix) by {
        forall i | 0 <= i < |prefix| ensures prefix[i].name != k {
          assert prefix[i] == writes[i];
        }
      }
      AssignUntouched(stats, prefix, k);
    }
  }

  /** The last write wins: a name written at `i` and never afterwards holds that write. */
  lemma {:induction false} AssignLastWins(stats: map<string, Stat>, writes: seq<Stat>, i: nat)
    requires i < |writes|
    requires forall j | i < j < |writes| :: writes[j].name != writes[i].name
    ensures writes[i].name in Assign(stats, writes) && Assign(stats, writes)[writes[i].name] == writes[i]
  {
    if i < |writes| - 1 {
      var prefix := writes[..|writes| - 1];
      assert prefix[i] == writes[i];
      forall j | i < j < |prefix| ensures prefix[j].name != prefix[i].name {
        assert prefix[j] == writes[j];
      }
      AssignLastWins(stats, prefix, i);
    }
  }

  /** Every stat is filed under its own name, before and after any assignments. */
  lemma {:induction false} AssignWellNamed(stats: map<string, Stat>, writes: seq<Stat>)
    requires WellNamed(stats)
    ensures WellNamed(Assign(stats, writes))
  {
    if writes != [] {
      AssignWellNamed(stats, writes[..|writes| - 1]);
    }
  }

  /** Running the same assignments twice gives what running them once gives. */
  lemma AssignIdempotent(stats: map<string, Stat>, writes: seq<Stat>)
    ensures Assign(Assign(stats, writes), writes) == Assign(stats, writes)
  {
    var only := Assign(map[], writes);
    AssignIsOverride(stats, writes);
    AssignIsOverride(Assign(stats, writes), writes);
    assert (stats + only) + only == stats + only;
  }

  /** The names `Update` writes: the runtime fields, PollCount and RandomValue. */
  lemma UpdateNames(runtime: seq<string>, count: int, rand: string)
    requires |runtime| == |RuntimeNames|
    ensures Names(UpdateWrites(runtime, count, rand))
         == (set i | 0 <= i < 27 :: RuntimeNames[i]) + {PollCountName, RandomValueName}
  {
    var ws := UpdateWrites(runtime, count, rand);
    forall k | k in Names(ws) ensures k in (set i | 0 <= i < 27 :: RuntimeNames[i]) + {PollCountName, RandomValueName} {
      var i :| 0 <= i < |ws| && ws[i].name == k;
      if i < 27 { assert ws[i].name == RuntimeNames[i]; }
    }
    assert ws[27].name == PollCountName && ws[28].name == RandomValueName;
    forall i | 0 <= i < 27 ensures RuntimeNames[i] in Names(ws) {
      assert ws[i].name == RuntimeNames[i];
    }
  }

  /** After `Update` the keys are the old ones and the 29 fixed names; nothing else is touched. */
  lemma UpdateKeys(stats: map<string, Stat>, runtime: seq<string>, count: int, rand: string)
    requires |runtime| == |RuntimeNames|
    ensures var after := Assign(stats, UpdateWrites(runtime, count, rand));
      && after.Keys == stats.Keys + (set i | 0 <= i < 27 :: RuntimeNames[i]) + {PollCountName, RandomValueName}
      && (forall k | k in stats && k !in RuntimeNames && k != PollCountName && k != RandomValueName ::
            after[k] == stats[k])
  {
    var ws := UpdateWrites(runtime, count, rand);
    AssignKeys(stats, ws);
    UpdateNames(runtime, count, rand);
    forall k | k in stats && k !in RuntimeNames && k != PollCountName && k != RandomValueName
      ensures Assign(stats, ws)[k] == stats[k]
    {
      assert k !in (set i | 0 <= i < 27 :: RuntimeNames[i]);
      AssignUntouched(stats, ws, k);
    }
  }

  /** After `Update` PollCount is the counter with the decimal poll count, RandomValue the random gauge. */
  lemma UpdateExtras(stats: map<string, Stat>, runtime: seq<string>, count: int, rand: string)
    requires |runtime| == |RuntimeNames|
    ensures var after := Assign(stats, UpdateWrites(runtime, count, rand));
      && PollCountName in after && after[PollCountName] == Stat("counter", PollCountName, FormatInt(count))
      && RandomValueName in after && after[RandomValueName] == Stat("gauge", RandomValueName, rand)
  {
    var ws := UpdateWrites(runtime, count, rand);
    AssignLastWins(stats, ws, 27);
    AssignLastWins(stats, ws, 28);
  }

  /** After `Update` every runtime field holds a gauge filed under its own name. */
  lemma UpdateGauges(stats: map<string, Stat>, runtime: seq<string>, count: int, rand: string)
    requires |runtime| == |RuntimeNames|
    ensures var after := Assign(stats, UpdateWrites(runtime, count, rand));
      forall i | 0 <= i < 27 :: RuntimeNames[i] in after
        && after[RuntimeNames[i]].stype == "gauge" && after[RuntimeNames[i]].name == RuntimeNames[i]
  {
    var ws := UpdateWrites(runtime, count, rand);
    PollCountIsNew();
    forall i | 0 <= i < 27
      ensures RuntimeNames[i] in Assign(stats, ws)
      ensures Assign(stats, ws)[RuntimeNames[i]].stype == "gauge" && Assign(stats, ws)[RuntimeNames[i]].name == RuntimeNames[i]
    {
      assert ws[i].name == RuntimeNames[i];
      AssignWritten(stats, ws, RuntimeNames[i]);
      var j :| 0 <= j < |ws| && ws[j].name == RuntimeNames[i] && Assign(stats, ws)[RuntimeNames[i]] == ws[j];
      assert j != 27 by {
        assert RuntimeNames[i] in RuntimeNames;
      }
    }
  }
}
