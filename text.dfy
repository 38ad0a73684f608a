/**
  Text helpers standing for the JavaScript string operations the code
  generator relies on: `Array.prototype.join`, the decimal rendering of a
  whole number inside a template literal (`${n}`), and a "lines view"
  (`split` on one character) used to state what a generated text contains.
 */
module Text {

  datatype Option<+T> = None | Some(value: T) {
    predicate IsFailure() { None? }

    function PropagateFailure<U>(): Option<U>
      requires None?
    {
      None
    }

    function Extract(): T
      requires Some?
    {
      value
    }
  }

  /** `parts.join(sep)`: the parts in order, `sep` between neighbours. */
  function Join(parts: seq<string>, sep: string): string
  {
    if |parts| == 0 then ""
    else if |parts| == 1 then parts[0]
    else parts[0] + sep + Join(parts[1..], sep)
  }

  /** `s.split(sep)` for a one-character separator: the maximal pieces of `s`
      between separators, in order; the empty string splits into `[""]`. */
  function Split(s: string, sep: char): (r: seq<string>)
    ensures |r| >= 1
  {
    if |s| == 0 then [""]
    else
      var rest := Split(s[1..], sep);
      if s[0] == sep then [""] + rest
      else [[s[0]] + rest[0]] + rest[1..]
  }

  /** The pieces of every block, block after block. */
  function SplitEach(blocks: seq<string>, sep: char): seq<string>
  {
    if |blocks| == 0 then [] else Split(blocks[0], sep) + SplitEach(blocks[1..], sep)
  }

  /** A text without the separator is a single piece. */
  lemma {:induction false} SplitNoSeparator(s: string, sep: char)
    requires sep !in s
    ensures Split(s, sep) == [s]
  {
    if |s| > 0 {
      SplitNoSeparator(s[1..], sep);
      assert [s[0]] + s[1..] == s;
    }
  }

  /** A separator between two texts separates their pieces. */
  lemma {:induction false} SplitAppend(a: string, b: string, sep: char)
    ensures Split(a + [sep] + b, sep) == Split(a, sep) + Split(b, sep)
  {
    if |a| == 0 {
      assert a + [sep] + b == [sep] + b;
      assert ([sep] + b)[1..] == b;
    } else {
      assert (a + [sep] + b)[1..] == a[1..] + [sep] + b;
      SplitAppend(a[1..], b, sep);
    }
  }

  /** Splitting a join of several blocks gives the pieces of each block in turn. */
  lemma {:induction false} SplitJoinBlocks(blocks: seq<string>, sep: char)
    requires |blocks| >= 1
    ensures Split(Join(blocks, [sep]), sep) == SplitEach(blocks, sep)
  {
    if |blocks| == 1 {
      assert SplitEach(blocks[1..], sep) == [];
    } else {
      SplitJoinBlocks(blocks[1..], sep);
      SplitAppend(blocks[0], Join(blocks[1..], [sep]), sep);
    }
  }

  /** Splitting a join gives the pieces of its first part, then those of the rest. */
  lemma {:induction false} SplitJoinFirst(first: string, rest: seq<string>, sep: char)
    requires |rest| >= 1
    ensures Split(Join([first] + rest, [sep]), sep) == Split(first, sep) + Split(Join(rest, [sep]), sep)
  {
    assert ([first] + rest)[1..] == rest;
    SplitAppend(first, Join(rest, [sep]), sep);
  }

  /** The pieces of two runs of blocks are the pieces of each run. */
  lemma {:induction false} SplitEachAppend(a: seq<string>, b: seq<string>, sep: char)
    ensures SplitEach(a + b, sep) == SplitEach(a, sep) + SplitEach(b, sep)
  {
    if |a| > 0 {
      assert (a + b)[1..] == a[1..] + b;
      SplitEachAppend(a[1..], b, sep);
    } else {
      assert a + b == b;
    }
  }

  /** Blocks without the separator are their own pieces. */
  lemma {:induction false} SplitEachNoSeparator(blocks: seq<string>, sep: char)
    requires forall i :: 0 <= i < |blocks| ==> sep !in blocks[i]
    ensures SplitEach(blocks, sep) == blocks
  {
    if |blocks| > 0 {
      SplitNoSeparator(blocks[0], sep);
      SplitEachNoSeparator(blocks[1..], sep);
      assert blocks == [blocks[0]] + blocks[1..];
    }
  }

  /** Joining on a one-character separator that no part contains and then
      splitting on it gives back exactly the parts. */
  lemma {:induction false} SplitJoin(parts: seq<string>, sep: char)
    requires |parts| >= 1
    requires forall i :: 0 <= i < |parts| ==> sep !in parts[i]
    ensures Split(Join(parts, [sep]), sep) == parts
  {
    SplitJoinBlocks(parts, sep);
    SplitEachNoSeparator(parts, sep);
  }

  /** A character that neither the parts nor the separator contain is not in the join. */
  lemma {:induction false} JoinExcludes(parts: seq<string>, sep: string, c: char)
    requires c !in sep
    requires forall i :: 0 <= i < |parts| ==> c !in parts[i]
    ensures c !in Join(parts, sep)
  {
    if |parts| > 1 {
      JoinExcludes(parts[1..], sep, c);
    }
  }

  /** A join of at least one part ends with its last part. */
  lemma {:induction false} JoinEndsWithLast(parts: seq<string>, sep: string)
    requires |parts| >= 1
    ensures var j := Join(parts, sep);
      |j| >= |parts[|parts| - 1]| && j[|j| - |parts[|parts| - 1]|..] == parts[|parts| - 1]
  {
    if |parts| > 1 {
      JoinEndsWithLast(parts[1..], sep);
    }
  }

  /** Texts none of which holds a line break. */
  predicate SingleLines(lines: seq<string>)
  {
    forall i :: 0 <= i < |lines| ==> '\n' !in lines[i]
  }

  lemma {:induction false} SingleLinesAppend(a: seq<string>, b: seq<string>)
    requires SingleLines(a) && SingleLines(b)
    ensures SingleLines(a + b)
  {
    forall i | 0 <= i < |a + b| ensures '\n' !in (a + b)[i] {
      if i < |a| { assert (a + b)[i] == a[i]; } else { assert (a + b)[i] == b[i - |a|]; }
    }
  }

  predicate IsDigit(c: char) { '0' <= c <= '9' }

  predicate AllDigits(s: string) { forall i :: 0 <= i < |s| ==> IsDigit(s[i]) }

  function DigitChar(d: nat): (c: char)
    requires d < 10
    ensures IsDigit(c) && c as int - '0' as int == d
  {
    ('0' as int + d) as char
  }

  /** `${n}` for a whole number: its decimal digits, most significant first,
      with no leading zero (the number 0 is the single digit "0"). */
  function NatToString(n: nat): (r: string)
    ensures |r| >= 1 && AllDigits(r)
    ensures (r[0] == '0') == (n == 0)
    decreases n
  {
    if n < 10 then [DigitChar(n)] else NatToString(n / 10) + [DigitChar(n % 10)]
  }

  /** The value of a run of decimal digits. */
  function DigitsValue(s: string): nat
    requires AllDigits(s)
  {
    if |s| == 0 then 0 else DigitsValue(s[..|s| - 1]) * 10 + (s[|s| - 1] as int - '0' as int)
  }

  /** A non-empty run of decimal digits read as a number; anything else is rejected. */
  function ParseNat(s: string): Option<nat>
  {
    if |s| >= 1 && AllDigits(s) then Some(DigitsValue(s)) else None
  }

  lemma {:induction false} DigitsValueOfNatToString(n: nat)
    ensures DigitsValue(NatToString(n)) == n
    decreases n
  {
    if n >= 10 {
      DigitsValueOfNatToString(n / 10);
      var s := NatToString(n);
      assert s[..|s| - 1] == NatToString(n / 10);
    }
  }

  /** Reading back the decimal rendering of a number gives the number. */
  lemma {:induction false} ParseNatToString(n: nat)
    ensures ParseNat(NatToString(n)) == Some(n)
  {
    DigitsValueOfNatToString(n);
  }

  /** `t.startsWith(prefix)`. */
  predicate HasPrefix(t: string, prefix: string)
  {
    |prefix| <= |t| && t[..|prefix|] == prefix
  }

  /** The text after `prefix`, when `line` starts with it. */
  function After(line: string, prefix: string): (r: Option<string>)
    ensures r.Some? <==> HasPrefix(line, prefix)
    ensures r.Some? ==> line == prefix + r.value
  {
    if HasPrefix(line, prefix) then Some(line[|prefix|..]) else None
  }

  lemma {:induction false} AfterPrefix(prefix: string, rest: string)
    ensures After(prefix + rest, prefix) == Some(rest)
  {
    assert (prefix + rest)[..|prefix|] == prefix;
    assert (prefix + rest)[|prefix|..] == rest;
  }
}
