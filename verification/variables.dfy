/**
 * The leaf of the symbolic formula language: a variable `Var(N, DIM, CAT)` stands for the
 * N-th argument of a formula, a vector of DIM entries, indexed by i (category 0), by j
 * (category 1) or a parameter (category 2). Its type-level operations become functions over
 * a `Var` value; printing and evaluation, which write into a stream and an output buffer,
 * become methods.
 */
module Variables {

  /** Var<N, DIM, CAT>. */
  datatype Var = Var(n: int, dim: nat, cat: int)

  /**
   * The formulas the leaf operations produce or receive: the variable itself, the zero
   * formula of a given width, and any other formula, known here by its name and width.
   */
  datatype Formula =
    | Leaf(v: Var)
    | Zero(width: nat)
    | Other(name: string, width: nat)

  /** Output width of a formula. */
  function Dim(f: Formula): nat {
    match f
    case Leaf(v) => v.dim
    case Zero(w) => w
    case Other(_, w) => w
  }

  // ---------------------------------------------------------------------------
  // PrintId
  // ---------------------------------------------------------------------------

  /** The letter of a category: x, y, p, and z for intermediate variables. */
  function CatLetter(cat: int): char {
    if cat == 0 then 'x' else if cat == 1 then 'y' else if cat == 2 then 'p' else 'z'
  }

  function DigitChar(d: nat): char
    requires d < 10
  {
    "0123456789"[d]
  }

  function DigitValue(c: char): nat {
    if '0' <= c <= '9' then (c as int - '0' as int) as nat else 0
  }

  predicate IsDigit(c: char) {
    '0' <= c <= '9'
  }

  /** Decimal digits of a natural number, most significant first, with no leading zero. */
  function NatText(n: nat): (s: string)
    ensures |s| >= 1 && forall i :: 0 <= i < |s| ==> IsDigit(s[i])
    ensures |s| > 1 ==> s[0] != '0'
    decreases n
  {
    if n < 10 then [DigitChar(n)] else NatText(n / 10) + [DigitChar(n % 10)]
  }

  /** How a stream writes an int: its decimal digits, after a minus sign when negative. */
  function IntText(n: int): string {
    if n < 0 then "-" + NatText(-n) else NatText(n)
  }

  /** The identifier `PrintId` writes: the category letter, then N. */
  function IdText(v: Var): string {
    [CatLetter(v.cat)] + IntText(v.n)
  }

  /** Reads decimal digits back. */
  function ParseNat(s: string): nat
    decreases |s|
  {
    if s == [] then 0 else ParseNat(s[..|s| - 1]) * 10 + DigitValue(s[|s| - 1])
  }

  /** Reads an optionally signed decimal back. */
  function ParseInt(s: string): int {
    if s != [] && s[0] == '-' then -(ParseNat(s[1..]) as int) else ParseNat(s)
  }

  lemma {:induction false} ParseNatText(n: nat)
    ensures ParseNat(NatText(n)) == n
    decreases n
  {
    if n >= 10 {
      var s := NatText(n);
      assert s[..|s| - 1] == NatText(n / 10);
      ParseNatText(n / 10);
    }
  }

  /** The printed number reads back as N. */
  lemma ParseIntText(n: int)
    ensures ParseInt(IntText(n)) == n
  {
    if n < 0 {
      var m: nat := -n;
      var t := NatText(m);
      ParseNatText(m);
      ParseMinus(t, m);
      assert IntText(n) == "-" + t;
    } else {
      var m: nat := n;
      var t := NatText(m);
      ParseNatText(m);
      ParseUnsigned(t, m);
      assert IntText(n) == t;
    }
  }

  lemma ParseUnsigned(t: string, m: nat)
    requires t != [] && IsDigit(t[0]) && ParseNat(t) == m
    ensures ParseInt(t) == m
  {
  }

  lemma ParseMinus(t: string, m: nat)
    requires ParseNat(t) == m
    ensures ParseInt("-" + t) == -(m as int)
  {
    assert ("-" + t)[1..] == t;
  }

  /**
   * The identifier determines the letter and N: two variables print alike exactly when
   * their categories have the same letter and their numbers are equal.
   */
  lemma IdTextInjective(v: Var, w: Var)
    ensures IdText(v) == IdText(w) <==> CatLetter(v.cat) == CatLetter(w.cat) && v.n == w.n
  {
    if IdText(v) == IdText(w) {
      assert IntText(v.n) == IdText(v)[1..] == IdText(w)[1..] == IntText(w.n);
      ParseIntText(v.n);
      ParseIntText(w.n);
    }
  }

  /** A growing text buffer, the `std::stringstream` `PrintId` writes to. */
  class StringStream {
    var text: string

    constructor()
      ensures text == []
    {
      text := [];
    }

    /** `str << s`. */
    method Write(s: string)
      modifies this
      ensures text == old(text) + s
    {
      text := text + s;
    }
  }

  /** `PrintId(str)`: writes the category letter, then N. */
  method PrintId(v: Var, str: StringStream)
    modifies str
    ensures str.text == old(str.text) + IdText(v)
  {
    if v.cat == 0 {
      str.Write("x");
    } else if v.cat == 1 {
      str.Write("y");
    } else if v.cat == 2 {
      str.Write("p");
    } else {
      str.Write("z");
    }
    str.Write(IntText(v.n));
  }

  // ---------------------------------------------------------------------------
  // Replace, AllTypes, VARS, DiffT
  // ---------------------------------------------------------------------------

  /** `Replace<A, B>`: B when A is this variable, the variable unchanged otherwise. */
  function Replace(v: Var, a: Formula, b: Formula): Formula {
    if a == Leaf(v) then b else Leaf(v)
  }

  /**
   * Replacing this variable gives the replacement, replacing anything else changes
   * nothing, and replacing a formula by itself is the identity.
   */
  lemma ReplaceSpec(v: Var, a: Formula, b: Formula)
    ensures Replace(v, Leaf(v), b) == b
    ensures a != Leaf(v) ==> Replace(v, a, b) == Leaf(v)
    ensures Replace(v, a, a) == Leaf(v)
    ensures Replace(v, a, b) == b || Replace(v, a, b) == Leaf(v)
  {
  }

  /** `AllTypes`: the sub-formulas of a leaf, which is only the leaf itself. */
  function AllTypes(v: Var): seq<Formula> {
    [Leaf(v)]
  }

  /** `VARS<c>`: the variables of category c in the formula. */
  function Vars(v: Var, c: int): seq<Var> {
    if v.cat == c then [v] else []
  }

  /**
   * The variable is listed exactly for its own category, and only it is ever listed; it
   * is among its own sub-formulas.
   */
  lemma VarsSpec(v: Var, c: int)
    ensures v in Vars(v, c) <==> c == v.cat
    ensures forall w :: w in Vars(v, c) ==> w == v && w.cat == c
    ensures |Vars(v, c)| <= 1
    ensures Leaf(v) in AllTypes(v) && |AllTypes(v)| == 1
  {
  }

  /**
   * `DiffT<V, GRADIN>`: the gradient with respect to V of this variable, given the
   * incoming gradient: that gradient when V is this variable, otherwise zero of V's width.
   */
  function DiffT(v: Var, wrt: Var, gradin: Formula): Formula {
    if wrt == v then gradin else Zero(wrt.dim)
  }

  /**
   * The gradient has the width of the variable it is taken with respect to (given an
   * incoming gradient of that width), and is zero unless that variable is this one.
   */
  lemma DiffTSpec(v: Var, wrt: Var, gradin: Formula)
    ensures Dim(gradin) == wrt.dim ==> Dim(DiffT(v, wrt, gradin)) == wrt.dim
    ensures wrt != v ==> DiffT(v, wrt, gradin) == Zero(wrt.dim)
    ensures wrt == v ==> DiffT(v, wrt, gradin) == gradin
  {
  }

  // ---------------------------------------------------------------------------
  // Eval
  // ---------------------------------------------------------------------------

  /** `IndVal<INDS, N>`: the first position of n in inds. */
  function IndVal(inds: seq<int>, n: int): (r: nat)
    requires n in inds
    ensures r < |inds| && inds[r] == n
    ensures forall i :: 0 <= i < r ==> inds[i] != n
  {
    if inds[0] == n then 0 else 1 + IndVal(inds[1..], n)
  }

  /**
   * `Eval<INDS>(out, args...)`: copies the DIM entries of the argument found at the first
   * position of N in INDS into out[0..DIM), and writes nothing else.
   */
  method Eval<T>(v: Var, inds: seq<int>, args: seq<array<T>>, out: array<T>)
    requires v.n in inds && |args| == |inds|
    requires args[IndVal(inds, v.n)].Length >= v.dim && out.Length >= v.dim
    modifies out
    ensures out[..v.dim] == old(args[IndVal(inds, v.n)][..v.dim])
    ensures out[v.dim..] == old(out[v.dim..])
  {
    var xi := args[IndVal(inds, v.n)];
    for k := 0 to v.dim
      invariant out[..k] == old(xi[..k])
      invariant forall i :: k <= i < v.dim ==> xi[i] == old(xi[i])
      invariant out[v.dim..] == old(out[v.dim..])
    {
      out[k] := xi[k];
    }
  }

  // ---------------------------------------------------------------------------
  // Standard variables
  // ---------------------------------------------------------------------------

  /** `_X<N, DIM>`: indexed by i. */
  function X(n: int, dim: nat): Var {
    Var(n, dim, 0)
  }

  /** `_Y<N, DIM>`: indexed by j. */
  function Y(n: int, dim: nat): Var {
    Var(n, dim, 1)
  }

  /** `Param<N, DIM>`, also spelled `_P<N, DIM>`. */
  function Param(n: int, dim: nat): Var {
    Var(n, dim, 2)
  }

  function P(n: int, dim: nat): Var {
    Param(n, dim)
  }

  /**
   * The three kinds of standard variable have categories 0, 1 and 2, print as x, y and p
   * followed by N, and each is listed by `Vars` for its own category only.
   */
  lemma StandardVariables(n: int, dim: nat)
    ensures X(n, dim).cat == 0 && Y(n, dim).cat == 1 && P(n, dim).cat == 2
    ensures IdText(X(n, dim)) == "x" + IntText(n)
    ensures IdText(Y(n, dim)) == "y" + IntText(n)
    ensures IdText(P(n, dim)) == "p" + IntText(n)
    ensures forall c :: Vars(X(n, dim), c) != [] <==> c == 0
    ensures P(n, dim) == Param(n, dim)
    ensures X(n, dim) != Y(n, dim) && Y(n, dim) != P(n, dim) && X(n, dim) != P(n, dim)
  {
  }
}
