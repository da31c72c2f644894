/** Small helpers shared by the bot's components: an optional value, JavaScript's
    `Array.prototype.join`, decimal rendering of a number, and a splitter that
    recovers the blank-line separated blocks of the messages the bot writes. */
module Util {

  datatype Option<T> = None | Some(value: T)

  /** `parts.join(sep)`: the parts in order with `sep` between neighbours. */
  function Join(parts: seq<string>, sep: string): string
  {
    if |parts| == 0 then ""
    else if |parts| == 1 then parts[0]
    else parts[0] + sep + Join(parts[1..], sep)
  }

  /** A part put in front of a non-empty join is followed by one separator. */
  lemma JoinCons(first: string, parts: seq<string>, sep: string)
    requires |parts| >= 1
    ensures Join([first] + parts, sep) == first + sep + Join(parts, sep)
  {
    assert ([first] + parts)[1..] == parts;
  }

  /** A part put after a non-empty join is preceded by one separator. */
  lemma {:induction false} JoinSnoc(parts: seq<string>, last: string, sep: string)
    requires |parts| >= 1
    ensures Join(parts + [last], sep) == Join(parts, sep) + sep + last
  {
    assert (parts + [last])[1..] == parts[1..] + [last];
    if |parts| > 1 {
      JoinSnoc(parts[1..], last, sep);
    }
  }

  /** Position of the first `c` in `s`, or `|s|` when there is none. */
  function IndexOf(s: string, c: char): (r: nat)
    ensures r <= |s|
    ensures r < |s| ==> s[r] == c
    ensures forall k :: 0 <= k < r ==> s[k] != c
  {
    if s == [] then 0
    else if s[0] == c then 0
    else 1 + IndexOf(s[1..], c)
  }

  /** Splits `s` at every line break, swallowing the second '\n' of a blank line:
      the blocks of a text whose blocks are separated by "\n\n". */
  function Blocks(s: string): seq<string>
    decreases |s|
  {
    var i := IndexOf(s, '\n');
    if i == |s| then [s]
    else
      var next := if i + 1 < |s| && s[i + 1] == '\n' then i + 2 else i + 1;
      [s[..i]] + Blocks(s[next..])
  }

  /** A single-line block followed by a blank line is split off whole. */
  lemma BlocksCons(a: string, b: string)
    requires '\n' !in a
    ensures Blocks(a + "\n\n" + b) == [a] + Blocks(b)
  {
    var s := a + "\n\n" + b;
    var i := IndexOf(s, '\n');
    assert s[|a|] == '\n';
    assert s[..i] == a;
    assert s[i + 2..] == b;
  }

  /** Joining single-line blocks with blank lines loses nothing: the blocks come back. */
  lemma {:induction false} BlocksOfJoin(parts: seq<string>)
    requires |parts| >= 1
    requires forall k :: 0 <= k < |parts| ==> '\n' !in parts[k]
    ensures Blocks(Join(parts, "\n\n")) == parts
  {
    if |parts| > 1 {
      assert '\n' !in parts[0];
      BlocksCons(parts[0], Join(parts[1..], "\n\n"));
      BlocksOfJoin(parts[1..]);
      assert parts == [parts[0]] + parts[1..];
    }
  }

  function DigitChar(d: nat): char
    requires d < 10
  {
    "0123456789"[d]
  }

  /** The decimal rendering JavaScript gives a non-negative integer in a template literal. */
  function NatToString(n: nat): (r: string)
    ensures |r| >= 1
    ensures forall k :: 0 <= k < |r| ==> '0' <= r[k] <= '9'
  {
    if n < 10 then [DigitChar(n)] else NatToString(n / 10) + [DigitChar(n % 10)]
  }

  /** Reads a string of decimal digits back as a number. */
  function DigitsValue(s: string): nat
    requires forall k :: 0 <= k < |s| ==> '0' <= s[k] <= '9'
  {
    if s == [] then 0
    else DigitsValue(s[..|s| - 1]) * 10 + (s[|s| - 1] as int - '0' as int)
  }

  /** The rendering is faithful: reading the digits back gives the number. */
  lemma {:induction false} NatToStringRoundTrip(n: nat)
    ensures DigitsValue(NatToString(n)) == n
  {
    var r := NatToString(n);
    if n < 10 {
      assert r[..0] == [];
    } else {
      NatToStringRoundTrip(n / 10);
      assert r[..|r| - 1] == NatToString(n / 10);
    }
  }
}
