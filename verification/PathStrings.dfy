/** Tree paths as text, "0/1/2" (agent/types/node.go). */
module PathStrings {
  import opened Messages

  // ---- strconv ----

  function DigitChar(d: nat): char
    requires d < 10
  {
    "0123456789"[d]
  }

  function DigitValue(c: char): Option<nat> {
    if '0' <= c <= '9' then Some(c as int - '0' as int) else None
  }

  function Digits(n: nat): string {
    if n < 10 then [DigitChar(n)] else Digits(n / 10) + [DigitChar(n % 10)]
  }

  /** strconv.Itoa. */
  function Itoa(i: int): string {
    if i < 0 then "-" + Digits(-i) else Digits(i)
  }

  /** A nonempty run of digits, leading zeros allowed. */
  function ParseDigits(s: string): Option<nat> {
    if s == "" then None
    else
      var d := DigitValue(s[|s| - 1]);
      if d.None? then None
      else if |s| == 1 then d
      else
        var front := ParseDigits(s[..|s| - 1]);
        if front.None? then None else Some(10 * front.value + d.value)
  }

  predicate IsInt64(i: int) {
    -0x8000_0000_0000_0000 <= i < 0x8000_0000_0000_0000
  }

  /** strconv.Atoi: an optional sign, digits, and a value that fits 64 bits. */
  function Atoi(s: string): Option<int> {
    var signed := s != "" && (s[0] == '-' || s[0] == '+');
    var n := ParseDigits(if signed then s[1..] else s);
    if n.None? then None
    else
      var value: int := n.value;
      var i := if signed && s[0] == '-' then -value else value;
      if IsInt64(i) then Some(i) else None
  }

  lemma {:induction false} ParseDigitsOfDigits(n: nat)
    ensures ParseDigits(Digits(n)) == Some(n)
    ensures forall i | 0 <= i < |Digits(n)| :: '0' <= Digits(n)[i] <= '9'
  {
    if n >= 10 {
      ParseDigitsOfDigits(n / 10);
      var s := Digits(n);
      assert s[..|s| - 1] == Digits(n / 10);
    }
  }

  lemma AtoiItoa(i: int)
    requires IsInt64(i)
    ensures Atoi(Itoa(i)) == Some(i)
    ensures '/' !in Itoa(i) && Itoa(i) != ""
  {
    var n: nat := if i < 0 then -i else i;
    ParseDigitsOfDigits(n);
    AtoiUnsigned(Digits(n), n);
    if i < 0 {
      AtoiMinus(Digits(n), i);
    }
  }

  lemma AtoiUnsigned(digits: string, n: nat)
    requires ParseDigits(digits) == Some(n) && '0' <= digits[0] <= '9'
    ensures Atoi(digits) == if IsInt64(n) then Some(n) else None
  {
  }

  lemma AtoiMinus(digits: string, i: int)
    requires i < 0 && ParseDigits(digits) == Some(-i)
    ensures Atoi("-" + digits) == if IsInt64(i) then Some(i) else None
  {
    assert ("-" + digits)[1..] == digits;
  }

  // ---- splitting at slashes ----

  ghost function Join(parts: seq<string>): string
    requires parts != []
  {
    if |parts| == 1 then parts[0] else parts[0] + "/" + Join(parts[1..])
  }

  /** strings.Split(s, "/"). */
  function SplitSlash(s: string): (parts: seq<string>)
    ensures parts != []
  {
    if s == "" then [""]
    else
      var rest := SplitSlash(s[1..]);
      if s[0] == '/' then [""] + rest else [[s[0]] + rest[0]] + rest[1..]
  }

  lemma {:induction false} SplitOfSegment(s: string, rest: string)
    requires '/' !in s
    ensures SplitSlash(s + "/" + rest) == [s] + SplitSlash(rest)
    ensures SplitSlash(s) == [s]
  {
    if s == "" {
      assert (s + "/" + rest)[1..] == rest;
    } else {
      SplitOfSegment(s[1..], rest);
      assert (s + "/" + rest)[1..] == s[1..] + "/" + rest;
      assert s == [s[0]] + s[1..];
      var parts := [s[1..]] + SplitSlash(rest);
      assert parts[0] == s[1..] && parts[1..] == SplitSlash(rest);
    }
  }

  lemma {:induction false} SplitOfJoin(parts: seq<string>)
    requires parts != [] && forall i | 0 <= i < |parts| :: '/' !in parts[i]
    ensures SplitSlash(Join(parts)) == parts
  {
    if |parts| == 1 {
      SplitOfSegment(parts[0], "");
    } else {
      SplitOfJoin(parts[1..]);
      SplitOfSegment(parts[0], Join(parts[1..]));
    }
  }

  // ---- tree paths ----

  ghost function Segments(p: seq<int>): seq<string> {
    seq(|p|, i requires 0 <= i < |p| => Itoa(p[i]))
  }

  lemma JoinFrom(p: seq<int>, i: nat)
    requires i + 1 < |p|
    ensures Join(Segments(p)[i..]) == Itoa(p[i]) + "/" + Join(Segments(p)[i + 1..])
  {
    assert Segments(p)[i..][1..] == Segments(p)[i + 1..];
  }

  /** String. */
  method PathToString(p: seq<int>) returns (s: string)
    ensures s == if p == [] then "" else Join(Segments(p))
  {
    if |p| == 0 {
      return "";
    }
    s := Itoa(p[|p| - 1]);
    var i := |p| - 1;
    assert Segments(p)[i..] == [Itoa(p[i])];
    while i > 0
      invariant 0 <= i < |p| && s == Join(Segments(p)[i..])
    {
      i := i - 1;
      JoinFrom(p, i);
      s := Itoa(p[i]) + "/" + s;
    }
    assert Segments(p)[0..] == Segments(p);
  }

  /** ParseTreePath: fails at the first segment that is no number. */
  method ParseTreePath(s: string) returns (path: Result<seq<int>, string>)
    ensures path == Parsed(s)
  {
    if s == "" {
      return Ok([]);
    }
    var parts := SplitSlash(s);
    var indices := [];
    assert parts[0..] == parts;
    PrefixedTwice([], [], ParsedSegments(parts));
    for i := 0 to |parts|
      invariant ParsedSegments(parts) == Prefixed(indices, ParsedSegments(parts[i..]))
    {
      assert parts[i..][1..] == parts[i + 1..];
      var idx := Atoi(parts[i]);
      if idx.None? {
        return Err(parts[i]);
      }
      PrefixedTwice(indices, [idx.value], ParsedSegments(parts[i + 1..]));
      indices := indices + [idx.value];
    }
    assert indices + [] == indices;
    return Ok(indices);
  }

  ghost function Prefixed(front: seq<int>, rest: Result<seq<int>, string>): Result<seq<int>, string> {
    if rest.Err? then rest else Ok(front + rest.value)
  }

  lemma PrefixedTwice(a: seq<int>, b: seq<int>, r: Result<seq<int>, string>)
    ensures Prefixed(a, Prefixed(b, r)) == Prefixed(a + b, r)
    ensures Prefixed([], r) == r
  {
    if r.Ok? {
      assert a + (b + r.value) == a + b + r.value && [] + r.value == r.value;
    }
  }

  ghost function ParsedSegments(parts: seq<string>): Result<seq<int>, string> {
    if parts == [] then Ok([])
    else if Atoi(parts[0]).None? then Err(parts[0])
    else Prefixed([Atoi(parts[0]).value], ParsedSegments(parts[1..]))
  }

  ghost function Parsed(s: string): Result<seq<int>, string> {
    if s == "" then Ok([]) else ParsedSegments(SplitSlash(s))
  }

  lemma {:induction false} ParsedOfSegments(p: seq<int>)
    requires forall i | 0 <= i < |p| :: IsInt64(p[i])
    ensures ParsedSegments(Segments(p)) == Ok(p)
  {
    if p != [] {
      AtoiItoa(p[0]);
      assert Segments(p)[1..] == Segments(p[1..]);
      ParsedOfSegments(p[1..]);
      assert p == [p[0]] + p[1..];
    }
  }

  /** Parsing the text of a path gives the path back. */
  lemma ParseOfString(p: seq<int>)
    requires forall i | 0 <= i < |p| :: IsInt64(p[i])
    ensures Parsed(if p == [] then "" else Join(Segments(p))) == Ok(p)
  {
    if p != [] {
      forall i | 0 <= i < |p| ensures '/' !in Segments(p)[i] && Segments(p)[i] != "" {
        AtoiItoa(p[i]);
      }
      SplitOfJoin(Segments(p));
      ParsedOfSegments(p);
      assert Segments(p)[0] != "";
    }
  }

  /** How a path looks. */
  lemma PathLooks()
    ensures Join(Segments([3, 12, 0])) == "3/12/0" && Join(Segments([-7])) == "-7"
  {
    assert Digits(1) == "1" && Digits(3) == "3" && Digits(0) == "0" && Digits(7) == "7";
    assert Digits(12) == Digits(1) + "2" == "12";
    assert Itoa(-7) == "-" + Digits(7) == "-7";
    assert Segments([3, 12, 0]) == ["3", "12", "0"] && Segments([-7]) == ["-7"];
    assert ["3", "12", "0"][1..] == ["12", "0"] && ["12", "0"][1..] == ["0"];
  }
}
