/** Byte-level tokenising: lines, whitespace-delimited fields and unsigned decimals. */
module Tokens {
  import opened Common

  const SPACE: byte := 32

  predicate IsSep(c: byte) { c == SPACE || c == 9 || c == LF || c == CR }

  predicate IsDigit(c: byte) { 48 <= c <= 57 }

  // ---------------------------------------------------------------- lines

  function Line(b: seq<byte>): seq<byte> { b[..LineLen(b)] }

  function AfterLine(b: seq<byte>): (r: seq<byte>)
    ensures b != [] ==> |r| < |b|
  {
    if LineLen(b) == |b| then [] else b[LineLen(b) + 1..]
  }

  method NextLine(b: seq<byte>) returns (line: seq<byte>, rest: seq<byte>)
    ensures line == Line(b) && rest == AfterLine(b)
  {
    for i := 0 to |b|
      invariant LF !in b[..i]
    {
      if b[i] == LF {
        LineLenUnique(b, i);
        return b[..i], b[i + 1..];
      }
      assert b[..i + 1] == b[..i] + [b[i]];
    }
    assert b[..|b|] == b;
    LineLenUnique(b, |b|);
    return b, [];
  }

  lemma LineOf(line: seq<byte>, rest: seq<byte>)
    requires LF !in line
    ensures Line(line + [LF] + rest) == line && AfterLine(line + [LF] + rest) == rest
  {
    var b := line + [LF] + rest;
    LineLenOf(line, rest);
    assert b[..|line|] == line;
    assert b[|line| + 1..] == rest;
  }

  // ---------------------------------------------------------------- fields

  /** How many leading bytes of b are separators. */
  function BlankLen(b: seq<byte>): (n: nat)
    ensures n <= |b|
    ensures forall i :: 0 <= i < n ==> IsSep(b[i])
    ensures n < |b| ==> !IsSep(b[n])
  {
    if b == [] || !IsSep(b[0]) then 0 else 1 + BlankLen(b[1..])
  }

  /** How many leading bytes of b are not separators. */
  function WordLen(b: seq<byte>): (n: nat)
    ensures n <= |b|
    ensures forall i :: 0 <= i < n ==> !IsSep(b[i])
    ensures n < |b| ==> IsSep(b[n])
  {
    if b == [] || IsSep(b[0]) then 0 else 1 + WordLen(b[1..])
  }

  function Field(b: seq<byte>): seq<byte> {
    var r := b[BlankLen(b)..];
    r[..WordLen(r)]
  }

  /** Taking a field always shrinks the input, so every field loop ends. */
  function AfterField(b: seq<byte>): (r: seq<byte>)
    ensures |r| <= |b| && (Field(b) != [] ==> |r| < |b|)
  {
    var r := b[BlankLen(b)..];
    r[WordLen(r)..]
  }

  lemma {:induction false} BlankLenUnique(b: seq<byte>, n: nat)
    requires n <= |b| && (forall i :: 0 <= i < n ==> IsSep(b[i])) && (n < |b| ==> !IsSep(b[n]))
    ensures BlankLen(b) == n
  {
    if n > 0 { BlankLenUnique(b[1..], n - 1); }
  }

  lemma {:induction false} WordLenUnique(b: seq<byte>, n: nat)
    requires n <= |b| && (forall i :: 0 <= i < n ==> !IsSep(b[i])) && (n < |b| ==> IsSep(b[n]))
    ensures WordLen(b) == n
  {
    if n > 0 { WordLenUnique(b[1..], n - 1); }
  }

  /** b[i..j] is preceded by tabs, line ends and spaces only, holds none, and ends at one or with b. */
  ghost predicate FieldSpan(b: seq<byte>, i: nat, j: nat) {
    && i <= j <= |b|
    && (forall k :: 0 <= k < i ==> b[k] == 9 || b[k] == 10 || b[k] == 13 || b[k] == 32)
    && (forall k :: i <= k < j ==> b[k] != 9 && b[k] != 10 && b[k] != 13 && b[k] != 32)
    && (j < |b| ==> b[j] == 9 || b[j] == 10 || b[j] == 13 || b[j] == 32)
    && (i == j ==> j == |b|)
  }

  /** There is one such span, and it is the field. */
  lemma FieldMeaning(b: seq<byte>, i: nat, j: nat)
    requires FieldSpan(b, i, j)
    ensures Field(b) == b[i..j] && AfterField(b) == b[j..]
  {
    BlankLenUnique(b, i);
    var r := b[i..];
    assert forall k :: 0 <= k < |r| ==> r[k] == b[i + k];
    WordLenUnique(r, j - i);
    assert r[..j - i] == b[i..j] && r[j - i..] == b[j..];
  }

  lemma FieldBytes(b: seq<byte>) returns (i: nat, j: nat)
    ensures FieldSpan(b, i, j) && Field(b) == b[i..j] && AfterField(b) == b[j..]
  {
    hide BlankLen, WordLen, Field, AfterField;
    i := BlankLen(b);
    var r := b[i..];
    j := i + WordLen(r);
    assert forall k :: i <= k < |b| ==> b[k] == r[k - i];
    FieldMeaning(b, i, j);
  }

  method NextField(b: seq<byte>) returns (field: seq<byte>, rest: seq<byte>)
    ensures field == Field(b) && rest == AfterField(b)
    ensures exists i: nat, j: nat :: FieldSpan(b, i, j) && field == b[i..j] && rest == b[j..]
  {
    ghost var from, to := FieldBytes(b);
    var i := 0;
    while i < |b| && IsSep(b[i])
      invariant 0 <= i <= |b|
      invariant forall k :: 0 <= k < i ==> IsSep(b[k])
    {
      i := i + 1;
    }
    BlankLenUnique(b, i);
    var r := b[i..];
    var j := 0;
    while j < |r| && !IsSep(r[j])
      invariant 0 <= j <= |r|
      invariant forall k :: 0 <= k < j ==> !IsSep(r[k])
    {
      j := j + 1;
    }
    WordLenUnique(r, j);
    return r[..j], r[j..];
  }

  predicate Blank(b: seq<byte>) { forall i :: 0 <= i < |b| ==> IsSep(b[i]) }

  predicate Word(b: seq<byte>) { b != [] && forall i :: 0 <= i < |b| ==> !IsSep(b[i]) }

  /** Nothing of a field can continue into b. */
  predicate Bounded(b: seq<byte>) { b == [] || IsSep(b[0]) }

  lemma FieldOf(gap: seq<byte>, word: seq<byte>, rest: seq<byte>)
    requires Blank(gap) && Word(word) && Bounded(rest)
    ensures Field(gap + word + rest) == word && AfterField(gap + word + rest) == rest
  {
    var b := gap + word + rest;
    assert forall i :: 0 <= i < |gap| ==> b[i] == gap[i];
    assert b[|gap|] == word[0];
    BlankLenUnique(b, |gap|);
    var r := b[|gap|..];
    assert r == word + rest;
    assert forall i :: 0 <= i < |word| ==> r[i] == word[i];
    assert rest != [] ==> r[|word|] == rest[0];
    WordLenUnique(r, |word|);
  }

  lemma NoField(blank: seq<byte>)
    requires Blank(blank)
    ensures Field(blank) == []
  {
    BlankLenUnique(blank, |blank|);
  }

  /** All fields of b, in order. */
  function Fields(b: seq<byte>): seq<seq<byte>>
    decreases |b|
  {
    if Field(b) == [] then [] else [Field(b)] + Fields(AfterField(b))
  }

  /** Words printed with a separator run before each. */
  function Spaced(gaps: seq<seq<byte>>, words: seq<seq<byte>>): seq<byte>
    requires |gaps| == |words|
  {
    if words == [] then [] else gaps[0] + words[0] + Spaced(gaps[1..], words[1..])
  }

  predicate Printable(gaps: seq<seq<byte>>, words: seq<seq<byte>>) {
    && |gaps| == |words|
    && (forall i :: 0 <= i < |gaps| ==> Blank(gaps[i]) && gaps[i] != [])
    && (forall i :: 0 <= i < |words| ==> Word(words[i]))
  }

  lemma SpacedBounded(gaps: seq<seq<byte>>, words: seq<seq<byte>>, tail: seq<byte>)
    requires Printable(gaps, words) && Blank(tail)
    ensures Bounded(Spaced(gaps, words) + tail)
  {
    if words != [] {
      assert (Spaced(gaps, words) + tail)[0] == gaps[0][0];
    }
  }

  lemma SpacedStep(gaps: seq<seq<byte>>, words: seq<seq<byte>>, tail: seq<byte>)
    requires |gaps| == |words| && words != []
    ensures Spaced(gaps, words) + tail == gaps[0] + words[0] + (Spaced(gaps[1..], words[1..]) + tail)
  {
  }

  /** The first printed word is the first field; the rest is printed from the other words. */
  lemma SpacedHead(gaps: seq<seq<byte>>, words: seq<seq<byte>>, tail: seq<byte>)
    requires Printable(gaps, words) && Blank(tail) && words != []
    ensures Printable(gaps[1..], words[1..]) && words[0] != []
    ensures var b := Spaced(gaps, words) + tail;
            Field(b) == words[0] && AfterField(b) == Spaced(gaps[1..], words[1..]) + tail
  {
    hide Field, AfterField;
    SpacedBounded(gaps[1..], words[1..], tail);
    FieldOf(gaps[0], words[0], Spaced(gaps[1..], words[1..]) + tail);
    SpacedStep(gaps, words, tail);
  }

  lemma FieldsStep(b: seq<byte>)
    requires Field(b) != []
    ensures Fields(b) == [Field(b)] + Fields(AfterField(b))
  {
  }

  /** Splitting into fields inverts printing, whatever the separator runs. */
  lemma {:induction false} FieldsOfSpaced(gaps: seq<seq<byte>>, words: seq<seq<byte>>, tail: seq<byte>)
    requires Printable(gaps, words) && Blank(tail)
    ensures Fields(Spaced(gaps, words) + tail) == words
  {
    if words == [] {
      assert Spaced(gaps, words) + tail == tail;
      NoField(tail);
    } else {
      hide Field, AfterField, Spaced, Printable, Blank, Fields;
      SpacedHead(gaps, words, tail);
      FieldsStep(Spaced(gaps, words) + tail);
      FieldsOfSpaced(gaps[1..], words[1..], tail);
      assert words == [words[0]] + words[1..];
    }
  }

  // ---------------------------------------------------------------- columns between spaces

  function Spaces(n: nat): (r: seq<byte>)
    ensures |r| == n && forall k :: 0 <= k < n ==> r[k] == 32
  {
    seq(n, _ => 32)
  }

  /** Columns as the kernel prints them: each after one or more spaces. */
  function Columns(pads: seq<nat>, columns: seq<seq<byte>>): seq<byte>
    requires |pads| == |columns|
  {
    if columns == [] then [] else Spaces(pads[0] + 1) + columns[0] + Columns(pads[1..], columns[1..])
  }

  function Gaps(pads: seq<nat>): (gaps: seq<seq<byte>>)
    ensures |gaps| == |pads| && forall i :: 0 <= i < |pads| ==> gaps[i] == Spaces(pads[i] + 1)
  {
    seq(|pads|, i requires 0 <= i < |pads| => Spaces(pads[i] + 1))
  }

  /** A column: not empty, and free of tabs, line ends and spaces. */
  predicate Solid(column: seq<byte>) {
    column != [] && forall k :: 0 <= k < |column| ==>
      column[k] != 9 && column[k] != 10 && column[k] != 13 && column[k] != 32
  }

  lemma ColumnsPrintable(pads: seq<nat>, columns: seq<seq<byte>>)
    requires |pads| == |columns| && forall c :: c in columns ==> Solid(c)
    ensures Printable(Gaps(pads), columns)
  {
    forall i | 0 <= i < |columns| ensures Word(columns[i]) && Blank(Gaps(pads)[i]) && Gaps(pads)[i] != [] {
      assert columns[i] in columns;
    }
  }

  lemma {:induction false} ColumnsSpaced(pads: seq<nat>, columns: seq<seq<byte>>)
    requires |pads| == |columns|
    ensures Columns(pads, columns) == Spaced(Gaps(pads), columns)
  {
    hide Spaces;
    if columns != [] {
      ColumnsSpaced(pads[1..], columns[1..]);
      assert Gaps(pads)[1..] == Gaps(pads[1..]);
    }
  }

  lemma {:induction false} ColumnsHold(pads: seq<nat>, columns: seq<seq<byte>>, c: byte)
    requires |pads| == |columns| && c != 32 && forall i :: 0 <= i < |columns| ==> c !in columns[i]
    ensures c !in Columns(pads, columns)
  {
    if columns != [] { ColumnsHold(pads[1..], columns[1..], c); }
  }

  // ---------------------------------------------------------------- decimals

  predicate Digits(b: seq<byte>) { b != [] && forall i :: 0 <= i < |b| ==> IsDigit(b[i]) }

  /** The unbounded value of a digit string. */
  function Decimal(b: seq<byte>): nat
    requires forall i :: 0 <= i < |b| ==> IsDigit(b[i])
  {
    if b == [] then 0
    else
      assert IsDigit(b[|b| - 1]);
      Decimal(Front(b)) * 10 + (Last(b) as int - 48)
  }

  /** The value atou returns: the decimal value modulo 2^64, or nothing for a non-number. */
  function ValueOf(b: seq<byte>): Option<u64> {
    if Digits(b) then Some(Wrap(Decimal(b))) else None
  }

  lemma WrapStep(x: nat, d: nat)
    ensures Wrap(Wrap(x) * 10 + d) == Wrap(x * 10 + d)
  {
    var q, r := x / TWO64, x % TWO64;
    assert x * 10 + d == (r * 10 + d) + (q * 10) * TWO64;
  }

  method Atou(b: seq<byte>) returns (n: u64, ok: bool)
    ensures ok <==> ValueOf(b).Some?
    ensures n == if ok then ValueOf(b).value else 0
  {
    if |b| == 0 {
      return 0, false;
    }
    n := 0;
    for k := 0 to |b|
      invariant forall i :: 0 <= i < k ==> IsDigit(b[i])
      invariant n == Wrap(Decimal(b[..k]))
    {
      if b[k] < 48 || b[k] > 57 {
        return 0, false;
      }
      WrapStep(Decimal(b[..k]), b[k] as int - 48);
      assert Front(b[..k + 1]) == b[..k];
      n := Wrap(n as int * 10 + (b[k] as int - 48));
    }
    assert b[..|b|] == b;
    return n, true;
  }

  function Print(n: nat): (b: seq<byte>)
    ensures Digits(b)
  {
    if n < 10 then [(48 + n) as byte] else Print(n / 10) + [(48 + n % 10) as byte]
  }

  /** Reading a printed number gives it back exactly when it fits in 64 bits. */
  lemma {:induction false} PrintedValue(n: nat)
    ensures Decimal(Print(n)) == n && Word(Print(n))
    ensures ValueOf(Print(n)) == Some(Wrap(n))
    ensures ValueOf(Print(n)) == Some(n) <==> n < 0x1_0000_0000_0000_0000
  {
    if n >= 10 {
      PrintedValue(n / 10);
      assert Front(Print(n)) == Print(n / 10);
    } else {
      assert Front(Print(n)) == [];
    }
  }

  /** The value a column contributes: a missing or malformed one counts as zero. */
  function Column(fields: seq<seq<byte>>, i: nat): u64 {
    if i < |fields| && ValueOf(fields[i]).Some? then ValueOf(fields[i]).value else 0
  }
}
