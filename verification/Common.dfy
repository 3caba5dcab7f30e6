/** Types and sequence vocabulary shared by the other modules. */
module Common {

  datatype Option<+T> = None | Some(value: T)

  type byte = x: int | 0 <= x < 0x100

  const TWO64: int := 0x1_0000_0000_0000_0000

  /** A Go uint64. */
  type u64 = x: int | 0 <= x < TWO64

  /** The value a uint64 computation keeps of the unbounded result x. */
  function Wrap(x: int): (r: u64) {
    x % TWO64
  }

  function Last<T>(s: seq<T>): T
    requires s != []
  {
    s[|s| - 1]
  }

  function Front<T>(s: seq<T>): seq<T>
    requires s != []
  {
    s[..|s| - 1]
  }

  function Flatten<T>(parts: seq<seq<T>>): seq<T> {
    if parts == [] then [] else parts[0] + Flatten(parts[1..])
  }

  /** Moving the head of what is left to the end of what is done. */
  lemma Shift<T>(all: seq<T>, done: seq<T>, x: T, before: seq<T>, after: seq<T>)
    requires all == done + before && before == [x] + after
    ensures all == (done + [x]) + after && done + [x] <= all
  {
  }

  lemma Associative<T>(a: seq<T>, b: seq<T>, c: seq<T>)
    ensures (a + b) + c == a + (b + c)
  {
  }

  // ---------------------------------------------------------------- lines of bytes

  const LF: byte := 10
  const CR: byte := 13

  /** The length of the first line: up to LF, or everything. */
  function LineLen(b: seq<byte>): (n: nat)
    ensures n <= |b| && LF !in b[..n] && (n < |b| ==> b[n] == LF)
  {
    if b == [] || b[0] == LF then 0
    else
      var n := LineLen(b[1..]);
      assert b[..n + 1] == [b[0]] + b[1..][..n];
      n + 1
  }

  lemma {:induction false} LineLenUnique(b: seq<byte>, n: nat)
    requires n <= |b| && LF !in b[..n] && (n < |b| ==> b[n] == LF)
    ensures LineLen(b) == n
  {
    if n > 0 {
      assert b[0] == b[..n][0];
      assert b[1..][..n - 1] == b[..n][1..];
      LineLenUnique(b[1..], n - 1);
    }
  }

  lemma LineLenOf(line: seq<byte>, rest: seq<byte>)
    requires LF !in line
    ensures LineLen(line + [LF] + rest) == |line| && LineLen(line) == |line|
  {
    var b := line + [LF] + rest;
    assert b[..|line|] == line && line[..|line|] == line;
    LineLenUnique(b, |line|);
    LineLenUnique(line, |line|);
  }

  /** A line without the one carriage return it may end in. */
  function StripCR(line: seq<byte>): seq<byte> {
    if line != [] && Last(line) == CR then Front(line) else line
  }

  // ---------------------------------------------------------------- subsequences

  /** a is obtained from b by deleting elements, keeping the order of the rest. */
  ghost predicate Subsequence<T>(a: seq<T>, b: seq<T>)
    decreases |b|
  {
    if a == [] then true
    else if b == [] then false
    else (Last(a) == Last(b) && Subsequence(Front(a), Front(b))) || Subsequence(a, Front(b))
  }

  lemma SubsequenceGrow<T>(a: seq<T>, b: seq<T>, v: T)
    requires Subsequence(a, b)
    ensures Subsequence(a, b + [v])
    ensures Subsequence(a + [v], b + [v])
  {
    assert Front(b + [v]) == b;
    assert Front(a + [v]) == a;
  }

  lemma {:induction false} SubsequenceShrink<T>(a: seq<T>, v: T, b: seq<T>)
    requires Subsequence(a + [v], b)
    ensures Subsequence(a, b)
    decreases |b|
  {
    assert Front(a + [v]) == a;
    if Subsequence(a + [v], Front(b)) {
      SubsequenceShrink(a, v, Front(b));
      SubsequenceGrow(a, Front(b), Last(b));
    } else {
      SubsequenceGrow(a, Front(b), Last(b));
    }
    assert Front(b) + [Last(b)] == b;
  }

  /** at lists the positions in b, in order, of the elements of a. */
  ghost predicate Places<T>(a: seq<T>, b: seq<T>, at: seq<nat>) {
    && |at| == |a|
    && (forall i :: 0 <= i < |a| ==> at[i] < |b| && b[at[i]] == a[i])
    && (forall i, j :: 0 <= i < j < |a| ==> at[i] < at[j])
  }

  lemma {:induction false} FindPlaces<T>(a: seq<T>, b: seq<T>) returns (at: seq<nat>)
    requires Subsequence(a, b)
    ensures Places(a, b, at)
    decreases |b|
  {
    at := [];
    if a != [] {
      if Last(a) == Last(b) && Subsequence(Front(a), Front(b)) {
        at := FindPlaces(Front(a), Front(b));
        at := at + [|b| - 1];
      } else {
        at := FindPlaces(a, Front(b));
      }
    }
  }

  lemma {:induction false} PlacesSubsequence<T>(a: seq<T>, b: seq<T>, at: seq<nat>)
    requires Places(a, b, at)
    ensures Subsequence(a, b)
    decreases |b|
  {
    if a != [] {
      if Last(at) == |b| - 1 {
        PlacesSubsequence(Front(a), Front(b), Front(at));
      } else {
        PlacesSubsequence(a, Front(b), at);
      }
    }
  }

  /** Being a subsequence is having increasing positions. */
  lemma SubsequenceIff<T>(a: seq<T>, b: seq<T>)
    ensures Subsequence(a, b) <==> exists at :: Places(a, b, at)
  {
    hide Places, Subsequence;
    if Subsequence(a, b) { var at := FindPlaces(a, b); }
    if at :| Places(a, b, at) { PlacesSubsequence(a, b, at); }
  }
}
