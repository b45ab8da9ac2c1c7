/**
 * The string helpers every service defines for itself: Go's strings.TrimSpace,
 * strings.Split on ",", the services' parseCSV and env, and the decimal
 * rendering of a natural number that the load script relies on.
 */
module Text {

  /** Go's unicode.IsSpace: the Latin-1 spaces and the Unicode space separators. */
  predicate IsSpace(c: char) {
    || c == ' ' || c == '\t' || c == '\n' || c == '\r'
    || c == '\U{0B}' || c == '\U{0C}' || c == '\U{85}' || c == '\U{A0}'
    || c == '\U{1680}' || ('\U{2000}' <= c <= '\U{200A}')
    || c == '\U{2028}' || c == '\U{2029}' || c == '\U{202F}' || c == '\U{205F}'
    || c == '\U{3000}'
  }

  predicate AllSpace(s: string) {
    forall i :: 0 <= i < |s| ==> IsSpace(s[i])
  }

  /** Neither end of `s` is white space. */
  predicate Trimmed(s: string) {
    s == [] || (!IsSpace(s[0]) && !IsSpace(s[|s| - 1]))
  }

  /** Drops the leading white space of `s`. */
  function TrimLeft(s: string): string
  {
    if s != [] && IsSpace(s[0]) then TrimLeft(s[1..]) else s
  }

  /** TrimLeft removes a run of white space from the front and stops at the first other character. */
  lemma {:induction false} TrimLeftSpec(s: string)
    ensures |TrimLeft(s)| <= |s| && TrimLeft(s) == s[|s| - |TrimLeft(s)|..]
    ensures AllSpace(s[..|s| - |TrimLeft(s)|])
    ensures TrimLeft(s) == [] || !IsSpace(TrimLeft(s)[0])
  {
    if s != [] && IsSpace(s[0]) {
      TrimLeftSpec(s[1..]);
      var r := TrimLeft(s[1..]);
      assert s[..|s| - |r|] == [s[0]] + s[1..][..|s| - 1 - |r|];
    }
  }

  /** Drops the trailing white space of `s`. */
  function TrimRight(s: string): string
  {
    if s != [] && IsSpace(s[|s| - 1]) then TrimRight(s[..|s| - 1]) else s
  }

  /** TrimRight removes a run of white space from the back and stops at the last other character. */
  lemma {:induction false} TrimRightSpec(s: string)
    ensures |TrimRight(s)| <= |s| && TrimRight(s) == s[..|TrimRight(s)|]
    ensures AllSpace(s[|TrimRight(s)|..])
    ensures TrimRight(s) == [] || !IsSpace(TrimRight(s)[|TrimRight(s)| - 1])
  {
    if s != [] && IsSpace(s[|s| - 1]) {
      TrimRightSpec(s[..|s| - 1]);
      var r := TrimRight(s[..|s| - 1]);
      assert s[|r|..] == s[..|s| - 1][|r|..] + [s[|s| - 1]];
    }
  }

  /**
   * strings.TrimSpace: the longest middle part of `s` whose ends are not
   * white space, cut out of `s` between two runs of white space.
   */
  function Trim(s: string): (r: string)
    ensures Trimmed(r) && |r| <= |s|
  {
    TrimLeftSpec(s);
    TrimRightSpec(TrimLeft(s));
    TrimRight(TrimLeft(s))
  }

  /** The trimmed string is the part of `s` between a leading and a trailing run of white space. */
  lemma TrimSlice(s: string) returns (i: nat)
    ensures i + |Trim(s)| <= |s| && Trim(s) == s[i..i + |Trim(s)|]
    ensures AllSpace(s[..i]) && AllSpace(s[i + |Trim(s)|..])
  {
    var left := TrimLeft(s);
    var r := TrimRight(left);
    TrimLeftSpec(s);
    TrimRightSpec(left);
    i := |s| - |left|;
    assert s[i + |r|..] == left[|r|..];
  }

  /** Trimming adds no character. */
  lemma TrimChars(s: string, c: char)
    requires c in Trim(s)
    ensures c in s
  {
    var i := TrimSlice(s);
    var k :| 0 <= k < |Trim(s)| && Trim(s)[k] == c;
    assert s[i + k] == c;
  }

  /** Trimming a string that has no white space at its ends leaves it alone, so trimming is idempotent. */
  lemma TrimOfTrimmed(s: string)
    requires Trimmed(s)
    ensures Trim(s) == s
  {
  }

  lemma TrimIdempotent(s: string)
    ensures Trim(Trim(s)) == Trim(s)
  {
    TrimOfTrimmed(Trim(s));
  }

  /** A string trims to nothing exactly when it is all white space. */
  lemma TrimEmptyIff(s: string)
    ensures Trim(s) == [] <==> AllSpace(s)
  {
    var i := TrimSlice(s);
    if Trim(s) == [] {
      assert s == s[..i] + s[i..];
    }
  }

  /** strings.Split(s, ","): the pieces between commas, at least one, none holding a comma. */
  function Split(s: string): (r: seq<string>)
    ensures |r| >= 1
    ensures forall k :: 0 <= k < |r| ==> ',' !in r[k]
  {
    if s == [] then
      [[]]
    else
      var rest := Split(s[1..]);
      if s[0] == ',' then [[]] + rest else [[s[0]] + rest[0]] + rest[1..]
  }

  /** strings.Join(ps, ","), the inverse of Split. */
  function Join(ps: seq<string>): string
    requires |ps| >= 1
  {
    if |ps| == 1 then ps[0] else ps[0] + "," + Join(ps[1..])
  }

  predicate NoComma(ps: seq<string>) {
    forall k :: 0 <= k < |ps| ==> ',' !in ps[k]
  }

  /** Joining the pieces with commas gives back the input. */
  lemma {:induction false} JoinSplit(s: string)
    ensures Join(Split(s)) == s
  {
    if s != [] {
      var rest := Split(s[1..]);
      JoinSplit(s[1..]);
      if s[0] == ',' {
        assert Split(s)[1..] == rest;
      } else {
        var r := Split(s);
        assert r[0] == [s[0]] + rest[0];
        if |rest| == 1 {
          assert s == [s[0]] + s[1..];
        } else {
          assert r[1..] == rest[1..];
          assert Join(r) == [s[0]] + (rest[0] + "," + Join(rest[1..]));
        }
      }
    }
  }

  /** A string without commas is a single piece. */
  lemma {:induction false} SplitNoComma(p: string)
    requires ',' !in p
    ensures Split(p) == [p]
  {
    if p != [] {
      SplitNoComma(p[1..]);
      assert [p[0]] + p[1..] == p;
    }
  }

  /** Splitting distributes over a comma: the pieces of `a` then the pieces of `b`. */
  lemma {:induction false} SplitAppend(a: string, b: string)
    ensures Split(a + "," + b) == Split(a) + Split(b)
  {
    if a == [] {
      assert ("" + "," + b)[1..] == b;
    } else {
      assert (a + "," + b)[1..] == a[1..] + "," + b;
      SplitAppend(a[1..], b);
    }
  }

  /** Splitting comma-free pieces joined by commas gives the pieces back. */
  lemma {:induction false} SplitJoin(ps: seq<string>)
    requires |ps| >= 1 && NoComma(ps)
    ensures Split(Join(ps)) == ps
  {
    if |ps| == 1 {
      SplitNoComma(ps[0]);
    } else {
      SplitJoin(ps[1..]);
      SplitNoComma(ps[0]);
      SplitAppend(ps[0], Join(ps[1..]));
      assert [ps[0]] + ps[1..] == ps;
    }
  }

  /** The trimmed pieces that are not blank, in their original order. */
  function KeepNonBlank(ps: seq<string>): seq<string>
  {
    if ps == [] then
      []
    else
      var p := Trim(ps[0]);
      var rest := KeepNonBlank(ps[1..]);
      if p != [] then [p] + rest else rest
  }

  lemma {:induction false} KeepNonBlankAppend(ps: seq<string>, qs: seq<string>)
    ensures KeepNonBlank(ps + qs) == KeepNonBlank(ps) + KeepNonBlank(qs)
  {
    if ps != [] {
      var all := ps + qs;
      assert all[0] == ps[0] && all[1..] == ps[1..] + qs;
      KeepNonBlankAppend(ps[1..], qs);
      var head := if Trim(ps[0]) != [] then [Trim(ps[0])] else [];
      assert KeepNonBlank(all) == head + KeepNonBlank(all[1..]);
      assert KeepNonBlank(ps) == head + KeepNonBlank(ps[1..]);
      assert head + (KeepNonBlank(ps[1..]) + KeepNonBlank(qs)) == (head + KeepNonBlank(ps[1..])) + KeepNonBlank(qs);
    } else {
      assert ps + qs == qs;
    }
  }

  /** parseCSV: the comma-separated entries of `s`, trimmed, blank ones dropped. */
  function ParseCSV(s: string): (r: seq<string>)
    ensures forall k :: 0 <= k < |r| ==> r[k] != [] && Trimmed(r[k])
    ensures |r| <= |Split(s)|
  {
    KeepNonBlankEntries(Split(s));
    KeepNonBlank(Split(s))
  }

  lemma {:induction false} KeepNonBlankEntries(ps: seq<string>)
    ensures |KeepNonBlank(ps)| <= |ps|
    ensures forall k :: 0 <= k < |KeepNonBlank(ps)| ==> KeepNonBlank(ps)[k] != [] && Trimmed(KeepNonBlank(ps)[k])
  {
    if ps != [] {
      KeepNonBlankEntries(ps[1..]);
    }
  }

  lemma {:induction false} KeepNonBlankNoComma(ps: seq<string>)
    requires NoComma(ps)
    ensures NoComma(KeepNonBlank(ps))
  {
    if ps != [] {
      KeepNonBlankNoComma(ps[1..]);
      if ',' in Trim(ps[0]) {
        TrimChars(ps[0], ',');
      }
    }
  }

  /** No entry parseCSV returns holds a comma. */
  lemma ParseCSVNoComma(s: string)
    ensures NoComma(ParseCSV(s))
  {
    KeepNonBlankNoComma(Split(s));
  }

  /** parseCSV of a single entry: the entry trimmed, or nothing when it is blank. */
  lemma ParseCSVEntry(p: string)
    requires ',' !in p
    ensures ParseCSV(p) == if Trim(p) == [] then [] else [Trim(p)]
  {
    SplitNoComma(p);
    assert [p][1..] == [];
  }

  /** parseCSV maps a comma to concatenation of the entry lists on either side. */
  lemma ParseCSVAppend(a: string, b: string)
    ensures ParseCSV(a + "," + b) == ParseCSV(a) + ParseCSV(b)
  {
    SplitAppend(a, b);
    KeepNonBlankAppend(Split(a), Split(b));
  }

  /** env(key, def) with os.Getenv(key) passed in as `value`. */
  function Env(value: string, def: string): (r: string)
    ensures Trim(value) == [] ==> r == def
    ensures Trim(value) != [] ==> r == Trim(value) && Trimmed(r)
    ensures Trimmed(def) ==> Trimmed(r)
    ensures r == [] ==> def == []
  {
    var v := Trim(value);
    if v == [] then def else v
  }

  /** os.Getenv over an environment given as a map: unset reads as empty. */
  function Getenv(environment: map<string, string>, key: string): string {
    if key in environment then environment[key] else ""
  }

  /** A variable that is unset or blank reads as its default. */
  lemma UnsetReadsDefault(environment: map<string, string>, key: string, def: string)
    requires key in environment ==> AllSpace(environment[key])
    ensures Env(Getenv(environment, key), def) == def
  {
    TrimEmptyIff(Getenv(environment, key));
  }

  /** The default broker list parses to the one broker it names. */
  lemma LocalBroker()
    ensures ParseCSV("localhost:9092") == ["localhost:9092"]
  {
    var broker := "localhost:9092";
    assert Trimmed(broker);
    TrimOfTrimmed(broker);
    assert ',' !in broker;
    ParseCSVEntry(broker);
  }

  predicate IsDigit(c: char) {
    '0' <= c <= '9'
  }

  predicate AllDigits(s: string) {
    forall i :: 0 <= i < |s| ==> IsDigit(s[i])
  }

  function DigitChar(d: nat): (c: char)
    requires d < 10
    ensures IsDigit(c) && c as int - '0' as int == d
  {
    ('0' as int + d) as char
  }

  /** The decimal rendering of `n` with no leading zeros, as JavaScript's `'' + n` gives it. */
  function Decimal(n: nat): (r: string)
    ensures |r| >= 1 && AllDigits(r)
    ensures r[0] == '0' ==> n == 0
  {
    if n < 10 then [DigitChar(n)] else Decimal(n / 10) + [DigitChar(n % 10)]
  }

  /** The number a string of decimal digits denotes. */
  function DigitsValue(s: string): nat
    requires AllDigits(s)
  {
    if s == [] then 0 else 10 * DigitsValue(s[..|s| - 1]) + (s[|s| - 1] as int - '0' as int)
  }

  /** Reading the decimal rendering back gives the number. */
  lemma {:induction false} DecimalRoundTrip(n: nat)
    ensures DigitsValue(Decimal(n)) == n
  {
    if n >= 10 {
      DecimalRoundTrip(n / 10);
      var r := Decimal(n);
      assert r[..|r| - 1] == Decimal(n / 10);
    }
  }

  /** Distinct numbers render differently. */
  lemma DecimalInjective(a: nat, b: nat)
    requires Decimal(a) == Decimal(b)
    ensures a == b
  {
    DecimalRoundTrip(a);
    DecimalRoundTrip(b);
  }
}
