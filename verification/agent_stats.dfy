/**
 * The agent's metric buffer (internal/agent/stats.go): a map from name to a
 * typed record. Unlike the collector's store it never accumulates: a counter
 * `Put` replaces the record like a gauge `Put` does.
 */
module AgentStats {
  import opened Wrappers
  import opened GoStrconv
  import opened GoMaps
  import opened Entities
  import opened RuntimeMetrics

  /** The two errors `Put` can return (wrapping the strconv error). */
  datatype PutError = ParseGaugeError | ParseCounterError

  /** One `Put` call: kind, name and value string. */
  datatype Write = Write(kind: string, name: string, value: string)

  /** A record is well formed: a gauge carries only a value, a counter only a delta. */
  predicate WellFormedRecord(r: Metrics) {
    || (r.mType == "gauge" && r.value.Some? && r.delta.None?)
    || (r.mType == "counter" && r.delta.Some? && r.value.None?)
  }

  /** Every record is filed under its own id and is well formed. */
  predicate WellKeyed(stats: map<string, Metrics>) {
    forall k | k in stats :: stats[k].id == k && WellFormedRecord(stats[k])
  }

  /** The new map and the error of one `Put` (stats.go:43-73). */
  function PutOutcome(parseFloat: FloatParser, stats: map<string, Metrics>, kind: string, name: string, value: string)
    : (r: (map<string, Metrics>, Option<PutError>))
    // a parsable gauge replaces the record with a value-only gauge record
    ensures kind == "gauge" && parseFloat(value).Some? ==>
      r == (stats[name := Metrics(name, "gauge", None, parseFloat(value))], None)
    // a parsable counter replaces the record with a delta-only counter record: no accumulation
    ensures kind == "counter" && ParseInt(value).Some? ==>
      r == (stats[name := Metrics(name, "counter", ParseInt(value), None)], None)
    // a parse failure is an error and changes nothing
    ensures kind == "gauge" && parseFloat(value).None? ==> r == (stats, Some(ParseGaugeError))
    ensures kind == "counter" && ParseInt(value).None? ==> r == (stats, Some(ParseCounterError))
    // an unknown kind falls through the switch: no error and no change
    ensures kind != "gauge" && kind != "counter" ==> r == (stats, None)
    ensures WellKeyed(stats) ==> WellKeyed(r.0)
  {
    if kind == "gauge" then
      match parseFloat(value)
      case None => (stats, Some(ParseGaugeError))
      case Some(v) => (stats[name := Metrics(name, kind, None, Some(v))], None)
    else if kind == "counter" then
      match ParseInt(value)
      case None => (stats, Some(ParseCounterError))
      case Some(v) => (stats[name := Metrics(name, kind, Some(v), None)], None)
    else (stats, None)
  }

  /** The map after a series of `Put`s whose errors are ignored. */
  function PutAll(parseFloat: FloatParser, stats: map<string, Metrics>, writes: seq<Write>): map<string, Metrics>
  {
    if writes == [] then stats
    else
      var w := writes[|writes| - 1];
      PutOutcome(parseFloat, PutAll(parseFloat, stats, writes[..|writes| - 1]), w.kind, w.name, w.value).0
  }

  /** Whether a write is accepted by `Put` (its value parses for its kind). */
  predicate Accepted(parseFloat: FloatParser, w: Write) {
    (w.kind == "gauge" && parseFloat(w.value).Some?) || (w.kind == "counter" && ParseInt(w.value).Some?)
  }

  /** The 29 `Put`s of `Update` (stats.go:78-106), the runtime values already formatted. */
  function UpdateWrites(runtime: seq<string>, count: int, rand: string): (ws: seq<Write>)
    requires |runtime| == |RuntimeNames|
    ensures |ws| == 29
    ensures forall i | 0 <= i < 27 :: ws[i] == Write("gauge", RuntimeNames[i], runtime[i])
    ensures ws[27] == Write("gauge", RandomValueName, rand)
    ensures ws[28] == Write("counter", PollCountName, FormatInt(count))
  {
    seq(27, i requires 0 <= i < 27 => Write("gauge", RuntimeNames[i], runtime[i]))
      + [Write("gauge", RandomValueName, rand), Write("counter", PollCountName, FormatInt(count))]
  }

  class StatStorage {
    var stats: map<string, Metrics>
    /** `strconv.ParseFloat`, which the model does not implement. */
    const parseFloat: FloatParser

    ghost predicate Valid()
      reads this
    {
      WellKeyed(stats)
    }

    /** NewStatStorage: an empty buffer. */
    constructor (parseFloat: FloatParser)
      ensures Valid() && stats == map[] && this.parseFloat == parseFloat
    {
      stats := map[];
      this.parseFloat := parseFloat;
    }

    /** Put: parses the value and replaces the record under `name`. */
    method Put(kind: string, name: string, value: string) returns (err: Option<PutError>)
      requires Valid()
      modifies this
      ensures Valid()
      ensures (stats, err) == PutOutcome(parseFloat, old(stats), kind, name, value)
    {
      if kind == "gauge" {
        var v := parseFloat(value);
        if v.None? {
          return Some(ParseGaugeError);
        }
        stats := stats[name := Metrics(name, kind, None, v)];
      } else if kind == "counter" {
        var v := ParseInt(value);
        if v.None? {
          return Some(ParseCounterError);
        }
        stats := stats[name := Metrics(name, kind, v, None)];
      }
      return None;
    }

    /**
     * Update: the 29 `Put`s of the poll tick, each one's error dropped, so the
     * result is always nil. `runtime` holds the MemStats fields formatted with %v.
     */
    method Update(runtime: seq<string>, count: int, rand: string) returns (err: Option<PutError>)
      requires Valid() && |runtime| == |RuntimeNames|
      modifies this
      ensures Valid()
      ensures stats == PutAll(parseFloat, old(stats), UpdateWrites(runtime, count, rand))
      ensures err == None
    {
      var writes := UpdateWrites(runtime, count, rand);
      for i := 0 to |writes|
        invariant Valid()
        invariant stats == PutAll(parseFloat, old(stats), writes[..i])
      {
        PutAllStep(parseFloat, old(stats), writes, i);
        var _ := Put(writes[i].kind, writes[i].name, writes[i].value);
      }
      assert writes[..|writes|] == writes;
      return None;
    }

    /** GetAll: one element per stored record, in Go's map iteration order. */
    method GetAll() returns (all: seq<Metrics>, ghost order: seq<string>)
      ensures Enumerates(order, stats.Keys) && |all| == |order| == |stats|
      ensures forall i | 0 <= i < |all| :: order[i] in stats && all[i] == stats[order[i]]
      ensures |all| == |stats|
      ensures forall i | 0 <= i < |all| :: all[i] in stats.Values
      ensures forall k | k in stats :: stats[k] in all
    {
      all := [];
      order := [];
      var rest := stats.Keys;
      while rest != {}
        invariant rest <= stats.Keys
        invariant forall k | k in stats :: k in rest || k in order
        invariant forall i | 0 <= i < |order| :: order[i] in stats && order[i] !in rest
        invariant forall i, j | 0 <= i < j < |order| :: order[i] != order[j]
        invariant |rest| + |order| == |stats|
        invariant |all| == |order| && forall i | 0 <= i < |all| :: all[i] == stats[order[i]]
        decreases rest
      {
        var name :| name in rest;
        all := all + [stats[name]];
        order := order + [name];
        rest := rest - {name};
      }
      forall k | k in stats ensures stats[k] in all {
        var i :| 0 <= i < |order| && order[i] == k;
        assert all[i] == stats[k];
      }
    }
  }

  /** One more write is one more `Put` on the map so far. */
  lemma PutAllStep(parseFloat: FloatParser, stats: map<string, Metrics>, writes: seq<Write>, i: nat)
    requires i < |writes|
    ensures PutAll(parseFloat, stats, writes[..i + 1])
         == PutOutcome(parseFloat, PutAll(parseFloat, stats, writes[..i]), writes[i].kind, writes[i].name, writes[i].value).0
  {
    assert writes[..i + 1][..i] == writes[..i];
  }

  /** Every record `GetAll` returns is well formed and carries its own name (the map invariant). */
  lemma GetAllRecordsWellFormed(stats: map<string, Metrics>, all: seq<Metrics>, order: seq<string>)
    requires WellKeyed(stats)
    requires |all| == |order| && forall i | 0 <= i < |all| :: order[i] in stats && all[i] == stats[order[i]]
    ensures forall i | 0 <= i < |all| :: all[i].id == order[i] && WellFormedRecord(all[i])
  {
  }

  /** Writes only ever add names: the old ones stay, and a new one was written. */
  lemma {:induction false} PutAllKeys(parseFloat: FloatParser, stats: map<string, Metrics>, writes: seq<Write>)
    ensures stats.Keys <= PutAll(parseFloat, stats, writes).Keys
    ensures forall k | k in PutAll(parseFloat, stats, writes) && k !in stats ::
      exists i | 0 <= i < |writes| :: writes[i].name == k
  {
    if writes != [] {
      var prefix := writes[..|writes| - 1];
      PutAllKeys(parseFloat, stats, prefix);
      forall k | k in PutAll(parseFloat, stats, writes) && k !in stats
        ensures exists i | 0 <= i < |writes| :: writes[i].name == k
      {
        if k in PutAll(parseFloat, stats, prefix) {
          var i :| 0 <= i < |prefix| && prefix[i].name == k;
          assert writes[i].name == k;
        } else {
          assert writes[|writes| - 1].name == k;
        }
      }
    }
  }

  /** A name no write mentions keeps its record. */
  lemma {:induction false} PutAllUntouched(parseFloat: FloatParser, stats: map<string, Metrics>, writes: seq<Write>, k: string)
    requires k in stats && forall i | 0 <= i < |writes| :: writes[i].name != k
    ensures k in PutAll(parseFloat, stats, writes) && PutAll(parseFloat, stats, writes)[k] == stats[k]
  {
    if writes != [] {
      var prefix := writes[..|writes| - 1];
      forall i | 0 <= i < |prefix| ensures prefix[i].name != k {
        assert prefix[i] == writes[i];
      }
      PutAllUntouched(parseFloat, stats, prefix, k);
    }
  }

  /** The map invariant survives any series of `Put`s. */
  lemma {:induction false} PutAllWellKeyed(parseFloat: FloatParser, stats: map<string, Metrics>, writes: seq<Write>)
    requires WellKeyed(stats)
    ensures WellKeyed(PutAll(parseFloat, stats, writes))
  {
    if writes != [] {
      PutAllWellKeyed(parseFloat, stats, writes[..|writes| - 1]);
    }
  }

  /** Every accepted write leaves its name present. */
  lemma {:induction false} PutAllAcceptedPresent(parseFloat: FloatParser, stats: map<string, Metrics>, writes: seq<Write>)
    ensures forall i | 0 <= i < |writes| && Accepted(parseFloat, writes[i]) ::
      writes[i].name in PutAll(parseFloat, stats, writes)
  {
    if writes != [] {
      var prefix := writes[..|writes| - 1];
      PutAllAcceptedPresent(parseFloat, stats, prefix);
      forall i | 0 <= i < |writes| && Accepted(parseFloat, writes[i])
        ensures writes[i].name in PutAll(parseFloat, stats, writes)
      {
        if i < |prefix| {
          assert prefix[i] == writes[i];
        }
      }
    }
  }

  /** After `Update` with an int64 poll count, PollCount is the counter holding exactly that count. */
  lemma UpdatePollCount(parseFloat: FloatParser, stats: map<string, Metrics>, runtime: seq<string>, count: int, rand: string)
    requires |runtime| == |RuntimeNames| && IsInt64(count)
    ensures var after := PutAll(parseFloat, stats, UpdateWrites(runtime, count, rand));
      PollCountName in after && after[PollCountName] == Metrics(PollCountName, "counter", Some(count), None)
  {
    ParseFormatInt(count);
  }

  /** After `Update` every fixed gauge whose formatted value parses is present. */
  lemma UpdateGaugesPresent(parseFloat: FloatParser, stats: map<string, Metrics>, runtime: seq<string>, count: int, rand: string)
    requires |runtime| == |RuntimeNames|
    ensures var after := PutAll(parseFloat, stats, UpdateWrites(runtime, count, rand));
      && (forall i | 0 <= i < 27 && parseFloat(runtime[i]).Some? :: RuntimeNames[i] in after)
      && (parseFloat(rand).Some? ==> RandomValueName in after)
  {
    var ws := UpdateWrites(runtime, count, rand);
    PutAllAcceptedPresent(parseFloat, stats, ws);
    forall i | 0 <= i < 27 && parseFloat(runtime[i]).Some? ensures RuntimeNames[i] in PutAll(parseFloat, stats, ws) {
      assert Accepted(parseFloat, ws[i]);
    }
    if parseFloat(rand).Some? {
      assert Accepted(parseFloat, ws[27]);
    }
  }

  /** `Update` leaves every name outside the fixed 29 as it was. */
  lemma UpdateUntouched(parseFloat: FloatParser, stats: map<string, Metrics>, runtime: seq<string>, count: int, rand: string)
    requires |runtime| == |RuntimeNames|
    ensures var after := PutAll(parseFloat, stats, UpdateWrites(runtime, count, rand));
      forall k | k in stats && k !in RuntimeNames && k != RandomValueName && k != PollCountName ::
        k in after && after[k] == stats[k]
  {
    var ws := UpdateWrites(runtime, count, rand);
    forall k | k in stats && k !in RuntimeNames && k != RandomValueName && k != PollCountName
      ensures k in PutAll(parseFloat, stats, ws) && PutAll(parseFloat, stats, ws)[k] == stats[k]
    {
      forall i | 0 <= i < |ws| ensures ws[i].name != k {
        if i < 27 { assert ws[i].name == RuntimeNames[i]; }
      }
      PutAllUntouched(parseFloat, stats, ws, k);
    }
  }

  /** Two counter `Put`s on one name keep only the second delta. */
  lemma CountersDoNotAccumulate(parseFloat: FloatParser, stats: map<string, Metrics>, name: string, a: int, b: int)
    requires IsInt64(a) && IsInt64(b)
    ensures var once := PutOutcome(parseFloat, stats, "counter", name, FormatInt(a)).0;
      PutOutcome(parseFloat, once, "counter", name, FormatInt(b)).0[name].delta == Some(b)
  {
    ParseFormatInt(a);
    ParseFormatInt(b);
  }
}
