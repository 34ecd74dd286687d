/** Which version string the next upload of a model gets. */
module Versions {
  import opened Wrappers

  /** The value of a decimal digit. `digit` stands for what the regular expression and the integer parser
      take for digits: the ASCII ones, and whatever else. */
  ghost predicate Decimal(digit: char -> Option<nat>) {
    && (forall k: nat :: k < 10 ==> digit('0' + k as char) == Some(k))
    && (forall c: char :: digit(c).Some? ==> digit(c).value < 10)
    && digit('\n').None?
  }

  function Value(s: string, digit: char -> Option<nat>): Option<nat> {
    if s == "" then Some(0)
    else
      var (high, low) := (Value(s[..|s| - 1], digit), digit(s[|s| - 1]));
      if high.Some? && low.Some? then Some(10 * high.value + low.value) else None
  }

  /** What `^v(\d+)$` matches: "v", digits, and a newline at the end if there is one. */
  function NumberOf(version: string, digit: char -> Option<nat>): Option<nat> {
    if version == "" || version[0] != 'v' then None
    else
      var rest := version[1..];
      var body := if rest != "" && rest[|rest| - 1] == '\n' then rest[..|rest| - 1] else rest;
      if body == "" then None else Value(body, digit)
  }

  /** A version has a number if and only if it is "v" and a numeral, with or without a newline behind. */
  lemma NumberOfIff(version: string, digit: char -> Option<nat>, k: nat)
    requires Decimal(digit)
    ensures NumberOf(version, digit) == Some(k) <==>
            exists body :: Numeral(body, digit, k) && (version == "v" + body || version == "v" + body + "\n")
  {
    if NumberOf(version, digit) == Some(k) {
      var rest := version[1..];
      var body := if rest[|rest| - 1] == '\n' then rest[..|rest| - 1] else rest;
      assert Numeral(body, digit, k) && version == "v" + rest && (rest == body || rest == body + "\n");
    }
    forall body | Numeral(body, digit, k)
      ensures NumberOf("v" + body, digit) == NumberOf("v" + body + "\n", digit) == Some(k)
    {
      NumeralParses(body, digit, k);
    }
  }

  ghost predicate Numeral(body: string, digit: char -> Option<nat>, k: nat) {
    body != "" && Value(body, digit) == Some(k)
  }

  lemma NumeralParses(body: string, digit: char -> Option<nat>, k: nat)
    requires Decimal(digit) && Numeral(body, digit, k)
    ensures NumberOf("v" + body, digit) == NumberOf("v" + body + "\n", digit) == Some(k)
  {
    assert ("v" + body)[1..] == body && ("v" + body + "\n")[1..] == body + "\n";
    assert (body + "\n")[..|body + "\n"| - 1] == body;
    assert digit(body[|body| - 1]).Some?;
  }

  function Format(n: nat): (s: string)
    ensures s != ""
  {
    if n < 10 then ['0' + n as char] else Format(n / 10) + ['0' + (n % 10) as char]
  }

  /** A formatted number parses back. */
  lemma {:induction false} ValueOfFormat(n: nat, digit: char -> Option<nat>)
    requires Decimal(digit)
    ensures Value(Format(n), digit) == Some(n)
    ensures Format(n)[|Format(n)| - 1] != '\n'
  {
    var s := Format(n);
    assert digit(s[|s| - 1]) == Some(n % 10);
    if n < 10 {
      assert s[..0] == "";
    } else {
      ValueOfFormat(n / 10, digit);
      assert s[..|s| - 1] == Format(n / 10);
    }
  }

  lemma NumberOfNext(n: nat, digit: char -> Option<nat>)
    requires Decimal(digit)
    ensures NumberOf("v" + Format(n), digit) == Some(n)
  {
    ValueOfFormat(n, digit);
    assert ("v" + Format(n))[1..] == Format(n);
  }

  function Numbers(versions: seq<string>, digit: char -> Option<nat>): seq<nat> {
    if versions == [] then []
    else
      var parsed := NumberOf(versions[|versions| - 1], digit);
      Numbers(versions[..|versions| - 1], digit) + if parsed.Some? then [parsed.value] else []
  }

  lemma {:induction false} NumbersMean(versions: seq<string>, digit: char -> Option<nat>)
    ensures forall k :: k in Numbers(versions, digit) <==> exists v :: v in versions && NumberOf(v, digit) == Some(k)
  {
    if versions != [] {
      NumbersMean(versions[..|versions| - 1], digit);
      assert versions == versions[..|versions| - 1] + [versions[|versions| - 1]];
    }
  }

  lemma NumbersOneMore(versions: seq<string>, i: nat, digit: char -> Option<nat>)
    requires i < |versions|
    ensures versions[..|versions|] == versions
    ensures Numbers(versions[..i + 1], digit) ==
            Numbers(versions[..i], digit) + if NumberOf(versions[i], digit).Some? then
              [NumberOf(versions[i], digit).value] else []
  {
    assert versions[..i + 1][..i] == versions[..i];
  }

  /** A version above all numbers in use is in use by none, whatever strings are. */
  lemma HigherIsFresh(existing: seq<string>, n: nat, digit: char -> Option<nat>)
    requires Decimal(digit) && forall k :: k in Numbers(existing, digit) ==> k < n
    ensures NumberOf("v" + Format(n), digit) == Some(n) && "v" + Format(n) !in existing
  {
    NumberOfNext(n, digit);
    NumbersMean(existing, digit);
  }

  /** `get_next_version`: one more than the highest number in use, or than the count if none is a number; a
      version string that no existing one equals. */
  method GetNextVersion(existing: seq<string>, digit: char -> Option<nat>) returns (next: string, n: nat)
    requires Decimal(digit)
    ensures next == "v" + Format(n) && NumberOf(next, digit) == Some(n)
    ensures next !in existing
    ensures forall k :: k in Numbers(existing, digit) ==> k < n
    ensures if Numbers(existing, digit) != [] then n - 1 in Numbers(existing, digit) else n == |existing| + 1
  {
    var numeric: seq<nat> := [];
    for i := 0 to |existing|
      invariant numeric == Numbers(existing[..i], digit)
    {
      NumbersOneMore(existing, i, digit);
      var parsed := NumberOf(existing[i], digit);
      if parsed.Some? {
        numeric := numeric + [parsed.value];
      }
    }
    assert existing[..|existing|] == existing;
    if numeric != [] {
      var highest := MaxOf(numeric);
      n := highest + 1;
    } else {
      n := |existing| + 1;
    }
    next := "v" + Format(n);
    HigherIsFresh(existing, n, digit);
  }

  method MaxOf(ks: seq<nat>) returns (m: nat)
    requires ks != []
    ensures m in ks && forall k :: k in ks ==> k <= m
  {
    m := ks[0];
    for i := 1 to |ks|
      invariant m in ks && forall j :: 0 <= j < i ==> ks[j] <= m
    {
      if ks[i] > m {
        m := ks[i];
      }
    }
  }
}
