/**
 * The `host:port` flag value (internal/models/address.go).
 */
module NetAddress {
  import opened Wrappers
  import opened GoStrconv

  /** Go's strings.Split on a single-character separator: the pieces between separators. */
  function Split(s: string, sep: char): (parts: seq<string>)
    ensures |parts| >= 1
    ensures forall i | 0 <= i < |parts| :: sep !in parts[i]
    decreases |s|
  {
    if s == [] then [""]
    else
      var rest := Split(s[1..], sep);
      if s[0] == sep then [""] + rest else [[s[0]] + rest[0]] + rest[1..]
  }

  /** Go's strings.Join: the pieces with the separator between each two. */
  function Join(parts: seq<string>, sep: char): string
    requires |parts| >= 1
    decreases |parts|
  {
    if |parts| == 1 then parts[0] else parts[0] + [sep] + Join(parts[1..], sep)
  }

  /** Splitting and joining back gives the original text. */
  lemma {:induction false} JoinSplit(s: string, sep: char)
    ensures Join(Split(s, sep), sep) == s
    decreases |s|
  {
    if s != [] {
      JoinSplit(s[1..], sep);
      var rest := Split(s[1..], sep);
      if s[0] != sep {
        var parts := Split(s, sep);
        assert parts[0] == [s[0]] + rest[0];
        if |rest| > 1 {
          assert parts[1..] == rest[1..];
        }
      }
    }
  }

  /** Joining pieces that hold no separator and splitting again gives the same pieces. */
  lemma {:induction false} SplitJoin(parts: seq<string>, sep: char)
    requires |parts| >= 1
    requires forall i | 0 <= i < |parts| :: sep !in parts[i]
    ensures Split(Join(parts, sep), sep) == parts
    decreases |parts|, |parts[0]|
  {
    if |parts| == 1 {
      SplitNoSeparator(parts[0], sep);
    } else {
      var tail := parts[1..];
      SplitJoin(tail, sep);
      SplitPrefix(parts[0], sep, Join(tail, sep));
    }
  }

  /** Text without the separator is one piece. */
  lemma {:induction false} SplitNoSeparator(s: string, sep: char)
    requires sep !in s
    ensures Split(s, sep) == [s]
    decreases |s|
  {
    if s != [] {
      assert s[0] != sep && sep !in s[1..];
      SplitNoSeparator(s[1..], sep);
      assert [s[0]] + s[1..] == s;
    }
  }

  /** A separator-free prefix and a separator start the split with that prefix as its own piece. */
  lemma {:induction false} SplitPrefix(p: string, sep: char, t: string)
    requires sep !in p
    ensures Split(p + [sep] + t, sep) == [p] + Split(t, sep)
    decreases |p|
  {
    if p == [] {
      assert p + [sep] + t == [sep] + t;
      assert ([sep] + t)[1..] == t;
    } else {
      SplitPrefix(p[1..], sep, t);
      assert (p + [sep] + t)[1..] == p[1..] + [sep] + t;
      assert [p[0]] + p[1..] == p;
    }
  }

  /** Why `Set` refused its input. */
  datatype AddressError = NeedHostPort | BadPort

  /** A host and port, or the reason the text is not one. */
  datatype AddressResult = Parsed(host: string, port: int) | Failed(error: AddressError)

  /** The text an address prints as. */
  function FormatAddress(host: string, port: int): string {
    host + ":" + FormatInt(port)
  }

  /** What `Set` makes of its input: a host and a port, or the error it returns. */
  function ParseAddress(value: string): (r: AddressResult)
    ensures r.Parsed? <==>
      |Split(value, ':')| == 2 && Split(value, ':')[0] != "" && ParseInt(Split(value, ':')[1]).Some?
    ensures r.Parsed? ==> r.host == Split(value, ':')[0] && r.port == ParseInt(Split(value, ':')[1]).value
    ensures r == Failed(NeedHostPort) <==> |Split(value, ':')| != 2 || Split(value, ':')[0] == ""
  {
    var parts := Split(value, ':');
    if |parts| != 2 || parts[0] == "" then Failed(NeedHostPort)
    else match ParseInt(parts[1])
      case None => Failed(BadPort)
      case Some(port) => Parsed(parts[0], port)
  }

  /** Printing an address with a non-empty, colon-free host and parsing it back gives it again. */
  lemma ParseFormatAddress(host: string, port: int)
    requires host != "" && ':' !in host && IsInt64(port)
    ensures ParseAddress(FormatAddress(host, port)) == Parsed(host, port)
  {
    ParseFormatInt(port);
    var parts := [host, FormatInt(port)];
    assert Join(parts, ':') == FormatAddress(host, port) by {
      assert Join(parts[1..], ':') == FormatInt(port);
    }
    SplitJoin(parts, ':');
  }

  class Address {
    var host: string
    var port: int

    /** NewAddress: localhost:8080. */
    constructor ()
      ensures host == "localhost" && port == 8080
    {
      host := "localhost";
      port := 8080;
    }

    /**
     * Set: splits on ':' and takes the host and port only when every check
     * passed; on an error both fields keep their values.
     */
    method Set(value: string) returns (err: Option<AddressError>)
      modifies this
      ensures err.None? <==> ParseAddress(value).Parsed?
      ensures err.None? ==> host == ParseAddress(value).host && port == ParseAddress(value).port
      ensures err.Some? ==> err.value == ParseAddress(value).error && host == old(host) && port == old(port)
    {
      var values := Split(value, ':');
      if |values| != 2 || values[0] == "" {
        return Some(NeedHostPort);
      }
      var p := ParseInt(values[1]);
      if p.None? {
        return Some(BadPort);
      }
      host := values[0];
      port := p.value;
      return None;
    }

    /** String: host, colon, decimal port. */
    function String(): string
      reads this
    {
      FormatAddress(host, port)
    }
  }

  /** What an address prints is what `Set` accepts back as the same address. */
  lemma StringParsesBack(a: Address)
    requires a.host != "" && ':' !in a.host && IsInt64(a.port)
    ensures ParseAddress(a.String()) == Parsed(a.host, a.port)
  {
    ParseFormatAddress(a.host, a.port);
  }

  /** A host with no port is refused before any number is read. */
  lemma RefusesHostOnly(host: string)
    requires ':' !in host
    ensures ParseAddress(host) == Failed(NeedHostPort)
  {
    SplitNoSeparator(host, ':');
  }

  /** An empty host is refused, whatever follows the colon. */
  lemma RefusesEmptyHost(port: string)
    requires ':' !in port
    ensures ParseAddress(":" + port) == Failed(NeedHostPort)
  {
    assert ":" + port == [] + [':'] + port;
    SplitPrefix([], ':', port);
  }

  /** Three pieces are refused even when each would be valid on its own. */
  lemma RefusesThreePieces(a: string, b: string, c: string)
    requires ':' !in a && ':' !in b && ':' !in c
    ensures ParseAddress(a + ":" + b + ":" + c) == Failed(NeedHostPort)
  {
    SplitJoin([a, b, c], ':');
    assert Join([a, b, c], ':') == a + ":" + b + ":" + c by {
      assert Join([b, c], ':') == b + ":" + c by {
        assert Join([c], ':') == c;
      }
      assert [a, b, c][1..] == [b, c];
    }
  }

  /** A port that is not a decimal int64 is refused. */
  lemma RefusesBadPort(host: string, port: string)
    requires host != "" && ':' !in host && ':' !in port && ParseInt(port).None?
    ensures ParseAddress(host + ":" + port) == Failed(BadPort)
  {
    SplitJoin([host, port], ':');
    assert Join([host, port], ':') == host + ":" + port by {
      assert [host, port][1..] == [port];
    }
  }

  /** The values address_test.go checks: "localhost:8080" is accepted, printed back unchanged; "808o" is no port. */
  lemma AddressTestValues()
    ensures FormatInt(8080) == "8080"
    ensures ParseInt("808o").None?
  {
    assert NatDigits(8) == "8";
    assert NatDigits(80) == NatDigits(8) + [DigitChar(0)];
    assert NatDigits(808) == NatDigits(80) + [DigitChar(8)];
    assert NatDigits(8080) == NatDigits(808) + [DigitChar(0)];
    assert !IsDigit("808o"[3]);
  }
}
