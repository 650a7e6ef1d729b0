/**
 * The earlier version of the collector's store (internal/storage/storage.go).
 *
 * Same map from name to string value as the current store, with two
 * differences in `Put`: there is no empty-name check, and a stored counter
 * value that does not parse raises a panic, which a deferred `recover` swallows,
 * so `Put` returns Go's zero int, 0. It also renders the store as an HTML page.
 */
module LegacyStorage {
  import opened Wrappers
  import opened GoStrconv
  import opened HttpStatus
  import opened GoMaps
  import ServerStorage

  /** The status `Put` returns when the deferred `recover` has caught a panic. */
  const RecoveredPanic: int := 0

  /** The new map and the status of one `Put`, with the branches of storage.go:22-61. */
  function LegacyPutOutcome(parseFloat: FloatParser, m: map<string, string>, kind: string, name: string, value: string)
    : (r: (map<string, string>, int))
    // an unknown kind is refused and changes nothing, even for an empty name
    ensures kind != "gauge" && kind != "counter" ==> r == (m, StatusNotImplemented)
    // a gauge is stored verbatim when it parses, under any name including ""
    ensures kind == "gauge" ==>
      r == if parseFloat(value).Some? then (m[name := value], StatusOK) else (m, StatusBadRequest)
    // a stored value that is not an int64 panics: the map is unchanged and 0 comes back
    ensures kind == "counter" && name in m && ParseInt(m[name]).None? ==> r == (m, RecoveredPanic)
    // a malformed delta is refused, after an absent counter was created as "0"
    ensures kind == "counter" && (name in m ==> ParseInt(m[name]).Some?) && ParseInt(value).None? ==>
      r == (if name in m then m else m[name := "0"], StatusBadRequest)
    // a well-formed delta is added to the stored value, or to 0
    ensures kind == "counter" && ParseInt(value).Some? ==>
      var base := if name in m then ParseInt(m[name]) else Some(0);
      base.Some? ==> r == (m[name := FormatInt(AddInt64(base.value, ParseInt(value).value))], StatusOK)
    ensures m.Keys <= r.0.Keys <= m.Keys + {name}
    ensures forall k | k in m && k != name :: r.0[k] == m[k]
    ensures r.1 in {StatusOK, StatusBadRequest, StatusNotImplemented, RecoveredPanic}
  {
    if kind == "gauge" then
      if parseFloat(value).Some? then (m[name := value], StatusOK) else (m, StatusBadRequest)
    else if kind == "counter" then
      var m1 := if name in m then m else m[name := "0"];
      assert ParseInt("0") == Some(0) by { ParseFormatInt(0); }
      match ParseInt(m1[name])
      case None => (m, RecoveredPanic)
      case Some(stored) =>
        match ParseInt(value)
        case None => (m1, StatusBadRequest)
        case Some(delta) => (m[name := FormatInt(AddInt64(stored, delta))], StatusOK)
    else (m, StatusNotImplemented)
  }

  /** The fixed text before the rows of the HTML page. */
  const PageHeader: string :=
    "<html>\n\t<head>\n\t\t<title>Список известных метрик</title>\n\t</head>\n\t<body>\n\t\t<table>\n"
    + "\t\t\t<tr>\n\t\t\t\t<th>Название</th>\n\t\t\t\t<th>Значение</th>\n\t\t\t</tr>"

  /** The fixed text after the rows of the HTML page. */
  const PageFooter: string := "\n\t\t</table>\n\t</body>\n</html>"

  /** One table row; name and value are inserted as they are, without escaping. */
  function PageRow(name: string, value: string): string {
    "\n\t\t\t<tr>\n\t\t\t\t<td>" + name + "</td>\n\t\t\t\t<td>" + value + "</td>\n\t\t\t</tr>"
  }

  /** The rows for the names in `order`, in that order. */
  function PageRows(m: map<string, string>, order: seq<string>): string
    requires forall i | 0 <= i < |order| :: order[i] in m
  {
    if order == [] then ""
    else PageRows(m, order[..|order| - 1]) + PageRow(order[|order| - 1], m[order[|order| - 1]])
  }

  lemma AppendRow(m: map<string, string>, order: seq<string>, name: string)
    requires forall i | 0 <= i < |order| :: order[i] in m
    requires name in m
    ensures forall i | 0 <= i < |order + [name]| :: (order + [name])[i] in m
    ensures PageHeader + PageRows(m, order + [name]) == PageHeader + PageRows(m, order) + PageRow(name, m[name])
  {
    assert (order + [name])[..|order|] == order;
  }

  class MemStorage {
    var metrics: map<string, string>
    const parseFloat: FloatParser

    /** NewMemStorage: an empty store. */
    constructor (parseFloat: FloatParser)
      ensures metrics == map[] && this.parseFloat == parseFloat
    {
      metrics := map[];
      this.parseFloat := parseFloat;
    }

    /** Put: updates the map in place; the panic branch ends with the zero status. */
    method Put(kind: string, name: string, value: string) returns (status: int)
      modifies this
      ensures (metrics, status) == LegacyPutOutcome(parseFloat, old(metrics), kind, name, value)
    {
      if kind == "gauge" {
        if parseFloat(value).None? {
          return StatusBadRequest;
        }
        metrics := metrics[name := value];
      } else if kind == "counter" {
        if name !in metrics {
          metrics := metrics[name := "0"];
        }
        var stored := ParseInt(metrics[name]);
        if stored.None? {
          // panic(...) unwinds to the deferred recover; the unnamed result is still 0
          return RecoveredPanic;
        }
        var delta := ParseInt(value);
        if delta.None? {
          return StatusBadRequest;
        }
        ghost var created := metrics;
        metrics := metrics[name := FormatInt(AddInt64(stored.value, delta.value))];
        assert metrics == old(metrics)[name := FormatInt(AddInt64(stored.value, delta.value))] by {
          assert created == old(metrics) || created == old(metrics)[name := "0"];
        }
      } else {
        return StatusNotImplemented;
      }
      return StatusOK;
    }

    /**
     * HTML: the header, then one row per stored metric in Go's (unspecified)
     * map iteration order, then the footer. `order` is the order the loop took.
     */
    method HTML() returns (page: string, ghost order: seq<string>)
      ensures Enumerates(order, metrics.Keys) && |order| == |metrics|
      ensures forall i | 0 <= i < |order| :: order[i] in metrics
      ensures page == PageHeader + PageRows(metrics, order) + PageFooter
      ensures |page| >= |PageHeader| + |PageFooter|
      ensures page[..|PageHeader|] == PageHeader && page[|page| - |PageFooter|..] == PageFooter
      ensures metrics == map[] ==> page == PageHeader + PageFooter
    {
      page := PageHeader;
      order := [];
      var rest := metrics.Keys;
      while rest != {}
        invariant rest <= metrics.Keys
        invariant forall k :: k in metrics.Keys <==> k in rest || k in order
        invariant forall k | k in rest :: k !in order
        invariant forall i, j | 0 <= i < j < |order| :: order[i] != order[j]
        invariant forall i | 0 <= i < |order| :: order[i] in metrics
        invariant |rest| + |order| == |metrics|
        invariant page == PageHeader + PageRows(metrics, order)
        decreases rest
      {
        var name :| name in rest;
        AppendRow(metrics, order, name);
        page := page + PageRow(name, metrics[name]);
        order := order + [name];
        rest := rest - {name};
      }
      page := page + PageFooter;
    }

    /** Get: identical to the current store's. */
    method Get(kind: string, name: string) returns (value: string, status: int)
      ensures (value, status) == ServerStorage.GetOutcome(metrics, kind, name)
    {
      if kind != "gauge" && kind != "counter" {
        return "", StatusNotImplemented;
      }
      if name !in metrics {
        return "", StatusNotFound;
      }
      return metrics[name], StatusOK;
    }
  }

  /** The empty name is an ordinary key here: a gauge put under "" succeeds and reads back. */
  lemma EmptyNameAccepted(parseFloat: FloatParser, m: map<string, string>, value: string)
    requires parseFloat(value).Some?
    ensures LegacyPutOutcome(parseFloat, m, "gauge", "", value) == (m["" := value], StatusOK)
    ensures ServerStorage.PutOutcome(parseFloat, m, "gauge", "", value) == (m, StatusNotFound)
  {
  }

  /**
   * The non-integer stored value of storage_test.go:90-102 ("1.3", delta "8"):
   * this version answers 0 where the test expects 500; the current store answers 500.
   */
  lemma RecoveredPanicStatus(parseFloat: FloatParser)
    ensures ParseInt("1.3").None? && ParseInt("8") == Some(8)
    ensures LegacyPutOutcome(parseFloat, map["SomeMetric" := "1.3"], "counter", "SomeMetric", "8")
         == (map["SomeMetric" := "1.3"], RecoveredPanic)
    ensures RecoveredPanic != StatusInternalServerError
    ensures ServerStorage.PutOutcome(parseFloat, map["SomeMetric" := "1.3"], "counter", "SomeMetric", "8")
         == (map["SomeMetric" := "1.3"], StatusInternalServerError)
  {
    ParseFormatInt(8);
  }

  /** Outside the two differences the old and the current `Put` agree. */
  lemma AgreesWithCurrentStore(parseFloat: FloatParser, m: map<string, string>, kind: string, name: string, value: string)
    requires name != ""
    requires kind == "counter" && name in m ==> ParseInt(m[name]).Some?
    ensures LegacyPutOutcome(parseFloat, m, kind, name, value) == ServerStorage.PutOutcome(parseFloat, m, kind, name, value)
  {
  }
}
