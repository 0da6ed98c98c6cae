/** Three-way comparison and the lexicographic order on integer sequences. */
module Orderings {

  datatype Option<+T> = None | Some(value: T)

  datatype Ordering = Less | Equal | Greater
  {
    /** The comparison with its operands swapped. */
    function Reverse(): Ordering {
      match this
      case Less => Greater
      case Equal => Equal
      case Greater => Less
    }

    /** The first comparison, or the second one when the first is a tie. */
    function Then(second: Ordering): Ordering {
      if this.Equal? then second else this
    }
  }

  function Compare(x: int, y: int): Ordering {
    if x < y then Less else if x == y then Equal else Greater
  }

  function CompareReal(x: real, y: real): Ordering {
    if x < y then Less else if x == y then Equal else Greater
  }

  /** Lexicographic comparison: a proper prefix comes first. */
  function Lex(a: seq<int>, b: seq<int>): Ordering {
    if a == [] then (if b == [] then Equal else Less)
    else if b == [] then Greater
    else Compare(a[0], b[0]).Then(Lex(a[1..], b[1..]))
  }

  lemma {:induction false} LexReverses(a: seq<int>, b: seq<int>)
    ensures Lex(b, a) == Lex(a, b).Reverse()
  {
    if a != [] && b != [] {
      LexReverses(a[1..], b[1..]);
    }
  }

  lemma {:induction false} LexEqual(a: seq<int>, b: seq<int>)
    ensures Lex(a, b) == Equal <==> a == b
  {
    if a != [] && b != [] {
      LexEqual(a[1..], b[1..]);
      assert a == [a[0]] + a[1..] && b == [b[0]] + b[1..];
    }
  }

  /** Strictly below, then not above: strictly below. */
  lemma {:induction false} LexTransitive(a: seq<int>, b: seq<int>, c: seq<int>)
    requires Lex(a, b) != Greater && Lex(b, c) != Greater
    ensures Lex(a, c) != Greater
    ensures Lex(a, b) == Less || Lex(b, c) == Less ==> Lex(a, c) == Less
  {
    if a != [] && b != [] && c != [] {
      if a[0] == b[0] == c[0] {
        LexTransitive(a[1..], b[1..], c[1..]);
      }
    }
  }

  lemma {:induction false} LexExtends(a: seq<int>, x: int)
    ensures Lex(a, a + [x]) == Less
  {
    if a != [] {
      assert (a + [x])[1..] == a[1..] + [x];
      LexExtends(a[1..], x);
    }
  }

  /** Between sequences of one length the order is decided before any suffix. */
  lemma {:induction false} LexAppend(a: seq<int>, b: seq<int>, s: seq<int>)
    requires |a| == |b|
    ensures Lex(a + s, b + s) == Lex(a, b)
  {
    if a == [] {
      assert a + s == s && b + s == s;
      LexEqual(s, s);
    } else {
      assert (a + s)[1..] == a[1..] + s && (b + s)[1..] == b[1..] + s;
      LexAppend(a[1..], b[1..], s);
    }
  }

  /** The first place where two sequences differ decides; a proper prefix comes first. */
  ghost predicate FirstDiffers(a: seq<int>, b: seq<int>, k: nat) {
    && k <= |a| && k < |b| && a[..k] == b[..k]
    && (k == |a| || a[k] < b[k])
  }

  lemma HeadFirst(a: seq<int>, b: seq<int>, k: nat)
    requires FirstDiffers(a, b, k) && a != []
    ensures a[0] <= b[0]
  {
    if k > 0 {
      assert a[..k][0] == b[..k][0];
    }
  }

  lemma {:induction false} LexWritten(a: seq<int>, b: seq<int>)
    ensures Lex(a, b) == Less <==> exists k: nat :: FirstDiffers(a, b, k)
  {
    if a == [] || b == [] {
      if a == [] && b != [] { assert FirstDiffers(a, b, 0); }
    } else {
      LexWritten(a[1..], b[1..]);
      if a[0] == b[0] {
        if k: nat :| FirstDiffers(a, b, k) {
          assert k > 0;
          assert a[1..][..k - 1] == a[..k][1..] && b[1..][..k - 1] == b[..k][1..];
          assert FirstDiffers(a[1..], b[1..], k - 1);
        }
        if k: nat :| FirstDiffers(a[1..], b[1..], k) {
          assert a[..k + 1] == [a[0]] + a[1..][..k] && b[..k + 1] == [b[0]] + b[1..][..k];
          assert FirstDiffers(a, b, k + 1);
        }
      } else {
        if a[0] < b[0] { assert FirstDiffers(a, b, 0); }
        if k: nat :| FirstDiffers(a, b, k) {
          HeadFirst(a, b, k);
        }
      }
    }
  }
}
