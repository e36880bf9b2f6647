/** The two enumerations that `generate_graph` draws its relation nodes from:
    `itertools.permutations(range(n), 2)` and `itertools.combinations(range(n), 2)`.
    Both emit pairs row by row, in lexicographic order of positions; on
    `range(n)` positions and values coincide. */
module Itertools {

  /** Strict lexicographic order on pairs. */
  predicate Before(p: (int, int), q: (int, int)) {
    p.0 < q.0 || (p.0 == q.0 && p.1 < q.1)
  }

  predicate InLexOrder(s: seq<(int, int)>) {
    forall i, j :: 0 <= i < j < |s| ==> Before(s[i], s[j])
  }

  /** The pairs `(a, b)` with `b != a`, in increasing `b`. */
  function PermutationRow(n: nat, a: nat): seq<(int, int)>
    requires a < n
  {
    seq(n - 1, j requires 0 <= j < n - 1 => (a, if j < a then j else j + 1))
  }

  /** The first `k` rows of the permutations. */
  function PermutationRows(n: nat, k: nat): seq<(int, int)>
    requires k <= n
  {
    if k == 0 then [] else PermutationRows(n, k - 1) + PermutationRow(n, k - 1)
  }

  /** `list(itertools.permutations(range(n), 2))`. */
  function Permutations(n: nat): seq<(int, int)> {
    PermutationRows(n, n)
  }

  /** The pairs `(a, b)` with `a < b`, in increasing `b`. */
  function CombinationRow(n: nat, a: nat): seq<(int, int)>
    requires a < n
  {
    seq(n - 1 - a, j requires 0 <= j < n - 1 - a => (a, a + 1 + j))
  }

  /** The first `k` rows of the combinations. */
  function CombinationRows(n: nat, k: nat): seq<(int, int)>
    requires k <= n
  {
    if k == 0 then [] else CombinationRows(n, k - 1) + CombinationRow(n, k - 1)
  }

  /** `list(itertools.combinations(range(n), 2))`. */
  function Combinations(n: nat): seq<(int, int)> {
    CombinationRows(n, n)
  }

  /** A sequence in strict lexicographic order repeats no pair. */
  lemma LexOrderDistinct(s: seq<(int, int)>)
    requires InLexOrder(s)
    ensures forall i, j :: 0 <= i < |s| && 0 <= j < |s| && s[i] == s[j] ==> i == j
  {
  }

  /** Concatenating two ordered sequences, the first wholly before the second,
      keeps the order. */
  lemma ConcatInLexOrder(s: seq<(int, int)>, t: seq<(int, int)>)
    requires InLexOrder(s) && InLexOrder(t)
    requires forall i, j :: 0 <= i < |s| && 0 <= j < |t| ==> Before(s[i], t[j])
    ensures InLexOrder(s + t)
  {
    var u := s + t;
    forall i, j | 0 <= i < j < |u|
      ensures Before(u[i], u[j])
    {
      if j < |s| {
        assert u[i] == s[i] && u[j] == s[j];
      } else if i < |s| {
        assert u[i] == s[i] && u[j] == t[j - |s|];
      } else {
        assert u[i] == t[i - |s|] && u[j] == t[j - |s|];
      }
    }
  }

  lemma PermutationRowShape(n: nat, a: nat)
    requires a < n
    ensures |PermutationRow(n, a)| == n - 1
    ensures forall p: (int, int) :: p in PermutationRow(n, a) <==> p.0 == a && 0 <= p.1 < n && p.1 != a
    ensures InLexOrder(PermutationRow(n, a))
  {
    var row := PermutationRow(n, a);
    forall p: (int, int) | p.0 == a && 0 <= p.1 < n && p.1 != a
      ensures p in row
    {
      var j := if p.1 < a then p.1 else p.1 - 1;
      assert row[j] == p;
    }
  }

  lemma CombinationRowShape(n: nat, a: nat)
    requires a < n
    ensures |CombinationRow(n, a)| == n - 1 - a
    ensures forall p: (int, int) :: p in CombinationRow(n, a) <==> p.0 == a && a < p.1 < n
    ensures InLexOrder(CombinationRow(n, a))
  {
    var row := CombinationRow(n, a);
    forall p: (int, int) | p.0 == a && a < p.1 < n
      ensures p in row
    {
      assert row[p.1 - a - 1] == p;
    }
  }

  lemma {:induction false} PermutationRowsShape(n: nat, k: nat)
    requires k <= n
    ensures |PermutationRows(n, k)| == k * (n - 1)
    ensures forall p: (int, int) :: p in PermutationRows(n, k) <==> 0 <= p.0 < k && 0 <= p.1 < n && p.0 != p.1
    ensures InLexOrder(PermutationRows(n, k))
  {
    if k > 0 {
      var prefix, row := PermutationRows(n, k - 1), PermutationRow(n, k - 1);
      PermutationRowsShape(n, k - 1);
      PermutationRowShape(n, k - 1);
      assert (k - 1) * (n - 1) + (n - 1) == k * (n - 1);
      forall i, j | 0 <= i < |prefix| && 0 <= j < |row|
        ensures Before(prefix[i], row[j])
      {
        assert prefix[i] in prefix && row[j] in row;
      }
      ConcatInLexOrder(prefix, row);
    }
  }

  lemma {:induction false} CombinationRowsShape(n: nat, k: nat)
    requires k <= n
    ensures 2 * |CombinationRows(n, k)| == k * (2 * n - k - 1)
    ensures forall p: (int, int) :: p in CombinationRows(n, k) <==> 0 <= p.0 < k && p.0 < p.1 < n
    ensures InLexOrder(CombinationRows(n, k))
  {
    if k > 0 {
      var prefix, row := CombinationRows(n, k - 1), CombinationRow(n, k - 1);
      CombinationRowsShape(n, k - 1);
      CombinationRowShape(n, k - 1);
      assert (k - 1) * (2 * n - k) + 2 * (n - k) == k * (2 * n - k - 1);
      forall i, j | 0 <= i < |prefix| && 0 <= j < |row|
        ensures Before(prefix[i], row[j])
      {
        assert prefix[i] in prefix && row[j] in row;
      }
      ConcatInLexOrder(prefix, row);
    }
  }

  /** `permutations(range(n), 2)` yields exactly the `n * (n - 1)` ordered
      pairs of distinct elements, each once, in lexicographic order. */
  lemma PermutationsShape(n: nat)
    ensures |Permutations(n)| == n * (n - 1)
    ensures forall p: (int, int) :: p in Permutations(n) <==> 0 <= p.0 < n && 0 <= p.1 < n && p.0 != p.1
    ensures InLexOrder(Permutations(n))
    ensures forall i, j :: 0 <= i < |Permutations(n)| && 0 <= j < |Permutations(n)| && Permutations(n)[i] == Permutations(n)[j] ==> i == j
  {
    PermutationRowsShape(n, n);
    LexOrderDistinct(Permutations(n));
  }

  /** `combinations(range(n), 2)` yields exactly the `n * (n - 1) / 2` pairs
      `a < b`, each once, in lexicographic order. */
  lemma CombinationsShape(n: nat)
    ensures |Combinations(n)| == n * (n - 1) / 2
    ensures forall p: (int, int) :: p in Combinations(n) <==> 0 <= p.0 < p.1 < n
    ensures InLexOrder(Combinations(n))
    ensures forall i, j :: 0 <= i < |Combinations(n)| && 0 <= j < |Combinations(n)| && Combinations(n)[i] == Combinations(n)[j] ==> i == j
  {
    CombinationRowsShape(n, n);
    LexOrderDistinct(Combinations(n));
  }
}
