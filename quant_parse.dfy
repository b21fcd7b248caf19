/** The `name[:port]` syntax of quantization-stats entries: splitting on
    ':' the way absl::StrSplit does, std::stoi on the port text, and the
    key / port pair that ParseQuantStats derives from an entry's name. */
module QuantParse {
  import opened Digits

  // ---------------------------------------------------------------------
  // absl::StrSplit(s, ':')

  /** The pieces of s between colons, empty pieces included; the empty
      string splits into one empty piece. */
  function Split(s: string): (parts: seq<string>)
    ensures |parts| >= 1
  {
    if |s| == 0 then [""]
    else
      var rest := Split(s[1..]);
      if s[0] == ':' then [""] + rest
      else [[s[0]] + rest[0]] + rest[1..]
  }

  /** Puts the pieces back together with a colon between neighbours. */
  function Join(parts: seq<string>): string
    requires |parts| >= 1
  {
    if |parts| == 1 then parts[0] else parts[0] + ":" + Join(parts[1..])
  }

  function Colons(s: string): nat
  {
    if |s| == 0 then 0 else (if s[0] == ':' then 1 else 0) + Colons(s[1..])
  }

  /** Join on a sequence written as a first piece and the rest. */
  lemma JoinCons(x: string, rest: seq<string>)
    ensures Join([x] + rest) == if |rest| == 0 then x else x + ":" + Join(rest)
  {
    assert ([x] + rest)[1..] == rest;
  }

  /** Putting a character in front of the first piece puts it in front of
      the joined string. */
  lemma JoinExtendFirst(c: char, r0: string, tail: seq<string>)
    ensures Join([[c] + r0] + tail) == [c] + Join([r0] + tail)
  {
    JoinCons(r0, tail);
    JoinCons([c] + r0, tail);
    if |tail| > 0 {
      assert ([c] + r0) + ":" + Join(tail) == [c] + (r0 + ":" + Join(tail));
    }
  }

  /** Joining the pieces gives back the split string. */
  lemma {:induction false} SplitJoin(s: string)
    ensures Join(Split(s)) == s
    decreases |s|
  {
    if |s| > 0 {
      var rest := Split(s[1..]);
      SplitJoin(s[1..]);
      if s[0] == ':' {
        JoinCons("", rest);
        assert s == ":" + s[1..];
      } else {
        var r0 := rest[0];
        var tail := rest[1..];
        assert rest == [r0] + tail;
        JoinExtendFirst(s[0], r0, tail);
        assert s == [s[0]] + s[1..];
      }
    }
  }

  /** No piece contains a colon, and there is one piece more than there
      are colons. */
  lemma {:induction false} SplitPieces(s: string)
    ensures |Split(s)| == Colons(s) + 1
    ensures forall i :: 0 <= i < |Split(s)| ==> ':' !in Split(s)[i]
    decreases |s|
  {
    if |s| > 0 {
      SplitPieces(s[1..]);
      var rest := Split(s[1..]);
      if s[0] != ':' {
        assert ':' !in [s[0]] + rest[0];
      }
    }
  }

  /** A string without colons is a single piece. */
  lemma {:induction false} SplitColonFree(s: string)
    requires ':' !in s
    ensures Split(s) == [s]
    decreases |s|
  {
    if |s| > 0 {
      assert ':' !in s[1..] by {
        forall i | 0 <= i < |s| - 1 ensures s[1..][i] != ':' {
          assert s[1..][i] == s[i + 1];
        }
      }
      SplitColonFree(s[1..]);
      assert s == [s[0]] + s[1..];
    }
  }

  /** A colon-free key followed by a colon is the first piece; the rest
      splits on its own. */
  lemma {:induction false} SplitAfterKey(k: string, rest: string)
    requires ':' !in k
    ensures Split(k + ":" + rest) == [k] + Split(rest)
    decreases |k|
  {
    var s := k + ":" + rest;
    if |k| == 0 {
      assert s == ":" + rest;
      assert s[1..] == rest;
    } else {
      assert ':' !in k[1..] by {
        forall i | 0 <= i < |k| - 1 ensures k[1..][i] != ':' {
          assert k[1..][i] == k[i + 1];
        }
      }
      SplitAfterKey(k[1..], rest);
      assert s[1..] == k[1..] + ":" + rest;
      assert s[0] == k[0];
      assert [k[0]] + k[1..] == k;
    }
  }

  /** The text before the first colon (all of s when there is none). */
  function KeyOf(s: string): (k: string)
    ensures ':' !in k
  {
    SplitPieces(s);
    Split(s)[0]
  }

  /** KeyOf(s) is a colon-free prefix of s that stops at the first colon. */
  lemma {:induction false} KeyOfBeforeFirstColon(s: string)
    ensures KeyOf(s) <= s
    ensures ':' !in KeyOf(s)
    ensures |KeyOf(s)| < |s| ==> s[|KeyOf(s)|] == ':'
    ensures |KeyOf(s)| == |s| <==> ':' !in s
    decreases |s|
  {
    if |s| > 0 {
      KeyOfBeforeFirstColon(s[1..]);
      if s[0] != ':' {
        var k := KeyOf(s[1..]);
        assert KeyOf(s) == [s[0]] + k;
        assert s == [s[0]] + s[1..];
        if ':' in s {
          var i :| 0 <= i < |s| && s[i] == ':';
          assert s[1..][i - 1] == ':';
        }
        if ':' !in s {
          assert ':' !in s[1..] by {
            forall i | 0 <= i < |s| - 1 ensures s[1..][i] != ':' {
              assert s[1..][i] == s[i + 1];
            }
          }
        }
      }
    }
  }

  // ---------------------------------------------------------------------
  // std::stoi

  /** The longest run of digits at the start of t. */
  function DigitPrefix(t: string): (d: string)
    ensures d <= t
    ensures forall i :: 0 <= i < |d| ==> IsDigit(d[i])
    ensures |d| < |t| ==> !IsDigit(t[|d|])
  {
    if |t| == 0 || !IsDigit(t[0]) then "" else [t[0]] + DigitPrefix(t[1..])
  }

  /** The optional sign and the digits std::stoi reads from the start of t. */
  function SignedDigits(t: string): (bool, string)
  {
    if |t| > 0 && (t[0] == '-' || t[0] == '+') then (t[0] == '-', DigitPrefix(t[1..]))
    else (false, DigitPrefix(t))
  }

  const Int32Min: int := -0x8000_0000
  const Int32Max: int := 0x7fff_ffff

  /** std::stoi returns instead of throwing: at least one digit after the
      optional sign, and the value fits an int. */
  predicate StoiDefined(t: string)
  {
    var (negative, d) := SignedDigits(t);
    && |d| > 0
    && Int32Min <= (if negative then -(DigitsValue(d) as int) else DigitsValue(d)) <= Int32Max
  }

  /** std::stoi: the signed value of the leading digits; what follows them
      is ignored. */
  function Stoi(t: string): (n: int)
    requires StoiDefined(t)
    ensures Int32Min <= n <= Int32Max
  {
    var (negative, d) := SignedDigits(t);
    if negative then -(DigitsValue(d) as int) else DigitsValue(d)
  }

  lemma {:induction false} DigitPrefixOfDigits(d: string, rest: string)
    requires forall i :: 0 <= i < |d| ==> IsDigit(d[i])
    requires |rest| > 0 ==> !IsDigit(rest[0])
    ensures DigitPrefix(d + rest) == d
    decreases |d|
  {
    if |d| > 0 {
      assert (d + rest)[1..] == d[1..] + rest;
      DigitPrefixOfDigits(d[1..], rest);
      assert [d[0]] + d[1..] == d;
    } else {
      assert d + rest == rest;
    }
  }

  /** std::stoi reads back the decimal spelling of a non-negative int,
      whatever non-digit text follows. */
  lemma StoiDecimal(n: nat, rest: string)
    requires n <= Int32Max
    requires |rest| > 0 ==> !IsDigit(rest[0])
    ensures StoiDefined(Decimal(n) + rest) && Stoi(Decimal(n) + rest) == n
  {
    var d := Decimal(n);
    DigitPrefixOfDigits(d, rest);
    DecimalValue(n);
    assert IsDigit(d[0]) && (d + rest)[0] == d[0];
    assert SignedDigits(d + rest) == (false, d);
  }

  /** The same with a leading minus sign, down to the smallest int. */
  lemma StoiNegativeDecimal(n: nat, rest: string)
    requires n <= -Int32Min
    requires |rest| > 0 ==> !IsDigit(rest[0])
    ensures StoiDefined("-" + Decimal(n) + rest) && Stoi("-" + Decimal(n) + rest) == -(n as int)
  {
    var d := Decimal(n);
    var t := "-" + d + rest;
    assert t[0] == '-' && t[1..] == d + rest;
    DigitPrefixOfDigits(d, rest);
    assert SignedDigits(t) == (true, d);
    DecimalValue(n);
  }

  // ---------------------------------------------------------------------
  // name[:port]

  /** The port text can be read: std::stoi is only called when the name
      splits into exactly two pieces. */
  predicate PortParses(s: string)
  {
    |Split(s)| == 2 ==> StoiDefined(Split(s)[1])
  }

  /** The result index named by s: the number after the colon when s
      splits into exactly two pieces, -1 (all float results) otherwise. */
  function PortOf(s: string): (port: int)
    requires PortParses(s)
    ensures Colons(s) != 1 ==> port == -1
    ensures port == -1 || Int32Min <= port <= Int32Max
  {
    SplitPieces(s);
    var parts := Split(s);
    if |parts| == 2 then Stoi(parts[1]) else -1
  }

  /** A port is read exactly when s holds one colon; no colon or several
      colons mean -1. */
  lemma PortOfColons(s: string)
    requires PortParses(s)
    ensures Colons(s) != 1 ==> PortOf(s) == -1
    ensures Colons(s) == 1 ==> |Split(s)| == 2 && PortOf(s) == Stoi(Split(s)[1])
  {
    SplitPieces(s);
  }

  /** Writing a colon-free name and a port as "name:port" and parsing it
      gives back the name as key and the port. */
  lemma NamePortRoundTrip(name: string, port: nat)
    requires ':' !in name && port <= Int32Max
    ensures var s := name + ":" + Decimal(port);
      PortParses(s) && KeyOf(s) == name && PortOf(s) == port
  {
    var d := Decimal(port);
    assert ':' !in d by {
      forall i | 0 <= i < |d| ensures d[i] != ':' {
        assert IsDigit(d[i]);
      }
    }
    SplitColonFree(d);
    SplitAfterKey(name, d);
    StoiDecimal(port, "");
    assert d + "" == d;
  }

  /** A colon-free name is its own key and names all float results. */
  lemma NameWithoutPort(name: string)
    requires ':' !in name
    ensures PortParses(name) && KeyOf(name) == name && PortOf(name) == -1
  {
    SplitColonFree(name);
  }
}
