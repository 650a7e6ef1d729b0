/**
 * The collector's in-memory metric store (internal/storage/metrics.go).
 *
 * The store is a map from metric name to the metric's value in string form;
 * gauges and counters share that one namespace and the kind is not recorded.
 * `Put` parses the value according to the kind and answers with an HTTP status:
 * a gauge overwrites, a counter adds its delta to the stored value.
 */
module ServerStorage {
  import opened Wrappers
  import opened GoStrconv
  import opened HttpStatus

  /** The new map and the status of one `Put`, with the branches of metrics.go:22-56. */
  function PutOutcome(parseFloat: FloatParser, m: map<string, string>, kind: string, name: string, value: string)
    : (r: (map<string, string>, int))
    // an empty name is refused before the kind is looked at
    ensures name == "" ==> r == (m, StatusNotFound)
    // an unknown kind is refused and changes nothing
    ensures name != "" && kind != "gauge" && kind != "counter" ==> r == (m, StatusNotImplemented)
    // a gauge is stored verbatim when it parses as a float, refused otherwise
    ensures name != "" && kind == "gauge" ==>
      r == if parseFloat(value).Some? then (m[name := value], StatusOK) else (m, StatusBadRequest)
    // a stored counter value that is not an int64 is an internal error; nothing changes
    ensures name != "" && kind == "counter" && name in m && ParseInt(m[name]).None? ==>
      r == (m, StatusInternalServerError)
    // a malformed delta is refused, but an absent counter has already been created as "0"
    ensures name != "" && kind == "counter" && (name in m ==> ParseInt(m[name]).Some?) && ParseInt(value).None? ==>
      r == (if name in m then m else m[name := "0"], StatusBadRequest)
    // a well-formed delta is added (with int64 wrap-around) to the stored value, or to 0
    ensures name != "" && kind == "counter" && ParseInt(value).Some? ==>
      var base := if name in m then ParseInt(m[name]) else Some(0);
      base.Some? ==> r == (m[name := FormatInt(AddInt64(base.value, ParseInt(value).value))], StatusOK)
    // whatever happens, no other name is touched and no name disappears
    ensures m.Keys <= r.0.Keys <= m.Keys + {name}
    ensures forall k | k in m && k != name :: r.0[k] == m[k]
    ensures r.1 in {StatusOK, StatusBadRequest, StatusNotFound, StatusInternalServerError, StatusNotImplemented}
    ensures r.1 == StatusOK ==> name != "" && name in r.0
  {
    if name == "" then (m, StatusNotFound)
    else if kind == "gauge" then
      if parseFloat(value).Some? then (m[name := value], StatusOK) else (m, StatusBadRequest)
    else if kind == "counter" then
      var m1 := if name in m then m else m[name := "0"];
      assert ParseInt("0") == Some(0) by { ParseFormatInt(0); }
      match ParseInt(m1[name])
      case None => (m1, StatusInternalServerError)
      case Some(stored) =>
        match ParseInt(value)
        case None => (m1, StatusBadRequest)
        case Some(delta) => (m[name := FormatInt(AddInt64(stored, delta))], StatusOK)
    else (m, StatusNotImplemented)
  }

  /** The value and status of one `Get` (metrics.go:59-68). */
  function GetOutcome(m: map<string, string>, kind: string, name: string): (r: (string, int))
    ensures kind != "gauge" && kind != "counter" ==> r == ("", StatusNotImplemented)
    ensures (kind == "gauge" || kind == "counter") && name !in m ==> r == ("", StatusNotFound)
    ensures (kind == "gauge" || kind == "counter") && name in m ==> r == (m[name], StatusOK)
  {
    if kind != "gauge" && kind != "counter" then ("", StatusNotImplemented)
    else if name !in m then ("", StatusNotFound)
    else (m[name], StatusOK)
  }

  class MemStorage {
    /** The metrics, by name, each value in string form. */
    var metrics: map<string, string>
    /** `strconv.ParseFloat`, which the model does not implement. */
    const parseFloat: FloatParser

    /** NewMemStorage: an empty store. */
    constructor (parseFloat: FloatParser)
      ensures metrics == map[] && this.parseFloat == parseFloat
    {
      metrics := map[];
      this.parseFloat := parseFloat;
    }

    /** Put: validates, then updates the map in place, step by step as the source does. */
    method Put(kind: string, name: string, value: string) returns (status: int)
      modifies this
      ensures (metrics, status) == PutOutcome(parseFloat, old(metrics), kind, name, value)
    {
      if name == "" {
        return StatusNotFound;
      }
      if kind == "gauge" {
        if parseFloat(value).None? {
          return StatusBadRequest;
        }
        metrics := metrics[name := value];
      } else if kind == "counter" {
        if name !in metrics {
          metrics := metrics[name := "0"];
        }
        var stored := ParseInt(metrics[name]);
        if stored.None? {
          return StatusInternalServerError;
        }
        var delta := ParseInt(value);
        if delta.None? {
          return StatusBadRequest;
        }
        ghost var created := metrics;
        metrics := metrics[name := FormatInt(AddInt64(stored.value, delta.value))];
        assert metrics == old(metrics)[name := FormatInt(AddInt64(stored.value, delta.value))] by {
          assert created == old(metrics) || created == old(metrics)[name := "0"];
        }
      } else {
        return StatusNotImplemented;
      }
      return StatusOK;
    }

    /** Get: a read of the map; the kind is only checked to be a known one. */
    method Get(kind: string, name: string) returns (value: string, status: int)
      ensures kind != "gauge" && kind != "counter" ==> value == "" && status == StatusNotImplemented
      ensures (kind == "gauge" || kind == "counter") && name !in metrics ==> value == "" && status == StatusNotFound
      ensures (kind == "gauge" || kind == "counter") && name in metrics ==> value == metrics[name] && status == StatusOK
      ensures (value, status) == GetOutcome(metrics, kind, name)
    {
      if kind != "gauge" && kind != "counter" {
        return "", StatusNotImplemented;
      }
      if name !in metrics {
        return "", StatusNotFound;
      }
      return metrics[name], StatusOK;
    }

    /** GetAll: the whole map, always with status 200. */
    method GetAll() returns (all: map<string, string>, status: int)
      ensures all == metrics && status == StatusOK
    {
      return metrics, StatusOK;
    }
  }

  /** A gauge that was accepted reads back verbatim, under either kind. */
  lemma GaugeRoundTrip(parseFloat: FloatParser, m: map<string, string>, name: string, value: string, kind: string)
    requires PutOutcome(parseFloat, m, "gauge", name, value).1 == StatusOK
    requires kind == "gauge" || kind == "counter"
    ensures GetOutcome(PutOutcome(parseFloat, m, "gauge", name, value).0, kind, name) == (value, StatusOK)
  {
  }

  /** A refused gauge leaves whatever was stored before readable unchanged. */
  lemma RejectedGaugeKeepsValue(parseFloat: FloatParser, m: map<string, string>, name: string, value: string, kind: string)
    requires parseFloat(value).None?
    ensures PutOutcome(parseFloat, m, "gauge", name, value).1 != StatusOK
    ensures GetOutcome(PutOutcome(parseFloat, m, "gauge", name, value).0, kind, name) == GetOutcome(m, kind, name)
  {
  }

  /** Go's int64 running sum of `start` and the deltas, wrapping at each step. */
  function WrappedSum(start: int, deltas: seq<int>): (r: int)
    requires IsInt64(start) && forall i | 0 <= i < |deltas| :: IsInt64(deltas[i])
    ensures IsInt64(r)
  {
    if deltas == [] then start else AddInt64(WrappedSum(start, deltas[..|deltas| - 1]), deltas[|deltas| - 1])
  }

  function Sum(deltas: seq<int>): int {
    if deltas == [] then 0 else Sum(deltas[..|deltas| - 1]) + deltas[|deltas| - 1]
  }

  /** The map after a series of counter `Put`s of the decimal deltas on one name. */
  function CounterPuts(parseFloat: FloatParser, m: map<string, string>, name: string, deltas: seq<int>): map<string, string>
  {
    if deltas == [] then m
    else PutOutcome(parseFloat, CounterPuts(parseFloat, m, name, deltas[..|deltas| - 1]), "counter", name,
                    FormatInt(deltas[|deltas| - 1])).0
  }

  /**
   * Counter accumulation: starting from an absent name (read as 0) or a stored
   * int64 `start`, a non-empty series of counter `Put`s stores the wrapped
   * running sum, and every `Put` of the series succeeds.
   */
  lemma {:induction false} CounterAccumulates(parseFloat: FloatParser, m: map<string, string>, name: string,
                                              start: int, deltas: seq<int>)
    requires name != "" && deltas != []
    requires if name in m then ParseInt(m[name]) == Some(start) else start == 0
    requires forall i | 0 <= i < |deltas| :: IsInt64(deltas[i])
    ensures var m' := CounterPuts(parseFloat, m, name, deltas);
      name in m' && m'[name] == FormatInt(WrappedSum(start, deltas))
  {
    var prefix := deltas[..|deltas| - 1];
    var d := deltas[|deltas| - 1];
    var m1 := CounterPuts(parseFloat, m, name, prefix);
    assert CounterPuts(parseFloat, m, name, deltas) == PutOutcome(parseFloat, m1, "counter", name, FormatInt(d)).0;
    assert WrappedSum(start, deltas) == AddInt64(WrappedSum(start, prefix), d);
    if prefix == [] {
      CounterStep(parseFloat, m, name, start, d);
    } else {
      CounterAccumulates(parseFloat, m, name, start, prefix);
      ParseFormatInt(WrappedSum(start, prefix));
      CounterStep(parseFloat, m1, name, WrappedSum(start, prefix), d);
    }
  }

  /** One counter `Put` of a well-formed delta on a counter holding `stored`. */
  lemma CounterStep(parseFloat: FloatParser, m: map<string, string>, name: string, stored: int, delta: int)
    requires name != "" && IsInt64(delta)
    requires if name in m then ParseInt(m[name]) == Some(stored) else stored == 0
    ensures PutOutcome(parseFloat, m, "counter", name, FormatInt(delta))
         == (m[name := FormatInt(AddInt64(stored, delta))], StatusOK)
  {
    ParseFormatInt(delta);
    assert ParseInt("0") == Some(0) by { ParseFormatInt(0); }
  }

  /** A series of counter `Put`s on one name leaves every other name as it was. */
  lemma {:induction false} CounterPutsFrame(parseFloat: FloatParser, m: map<string, string>, name: string, deltas: seq<int>)
    ensures var m' := CounterPuts(parseFloat, m, name, deltas);
      m'.Keys - {name} == m.Keys - {name} && forall k | k in m && k != name :: k in m' && m'[k] == m[k]
  {
    if deltas != [] {
      CounterPutsFrame(parseFloat, m, name, deltas[..|deltas| - 1]);
    }
  }

  /** Without overflow the wrapped running sum is the plain sum. */
  lemma {:induction false} WrappedSumExact(start: int, deltas: seq<int>)
    requires IsInt64(start) && forall i | 0 <= i < |deltas| :: IsInt64(deltas[i])
    requires forall j | 0 <= j <= |deltas| :: IsInt64(start + Sum(deltas[..j]))
    ensures WrappedSum(start, deltas) == start + Sum(deltas)
  {
    assert deltas[..|deltas|] == deltas;
    if deltas == [] {
      assert IsInt64(start + Sum(deltas[..0]));
    } else {
      var prefix := deltas[..|deltas| - 1];
      forall j | 0 <= j <= |prefix| ensures IsInt64(start + Sum(prefix[..j])) {
        assert prefix[..j] == deltas[..j];
      }
      WrappedSumExact(start, prefix);
      assert IsInt64(start + Sum(deltas[..|deltas|]));
    }
  }

  function Ones(n: nat): (s: seq<int>)
    ensures |s| == n && forall i | 0 <= i < n :: s[i] == 1
  {
    seq(n, _ => 1)
  }

  lemma {:induction false} SumOnes(n: nat)
    ensures Sum(Ones(n)) == n
  {
    if n > 0 {
      assert Ones(n)[..n - 1] == Ones(n - 1);
      SumOnes(n - 1);
    }
  }

  /**
   * Serialised increments: `n` counter `Put`s of "1" on a fresh name leave
   * exactly `n` there, as long as `n` fits in an int64.
   */
  lemma IncrementsAreCounted(parseFloat: FloatParser, m: map<string, string>, name: string, n: nat)
    requires name != "" && name !in m && 0 < n <= MaxInt64
    ensures CounterPuts(parseFloat, m, name, Ones(n))[name] == FormatInt(n)
  {
    CounterAccumulates(parseFloat, m, name, 0, Ones(n));
    OnesWrappedSum(n);
  }

  /** Without overflow, the wrapped total of `n` ones is `n`. */
  lemma OnesWrappedSum(n: nat)
    requires n <= MaxInt64
    ensures WrappedSum(0, Ones(n)) == n
  {
    OnesPrefixSums(n);
    WrappedSumExact(0, Ones(n));
    SumOnes(n);
  }

  /** Every running total of `n` ones is a non-negative int64 when `n` is. */
  lemma OnesPrefixSums(n: nat)
    requires n <= MaxInt64
    ensures forall j | 0 <= j <= |Ones(n)| :: IsInt64(0 + Sum(Ones(n)[..j]))
  {
    forall j | 0 <= j <= n ensures IsInt64(0 + Sum(Ones(n)[..j])) {
      assert Ones(n)[..j] == Ones(j);
      SumOnes(j);
    }
  }

  /** Counter example: "3" then "4" on a fresh name reads back as "7". */
  lemma ThreePlusFour(parseFloat: FloatParser)
    ensures FormatInt(3) == "3" && FormatInt(4) == "4"
    ensures GetOutcome(CounterPuts(parseFloat, map[], "X", [3, 4]), "counter", "X") == ("7", StatusOK)
  {
    CounterAccumulates(parseFloat, map[], "X", 0, [3, 4]);
    assert [3, 4][..1] == [3];
    assert WrappedSum(0, [3, 4]) == 7;
  }
}
