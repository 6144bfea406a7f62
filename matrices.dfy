/** Dense real matrices with an explicit shape, the value type behind the filter's
    state vectors, covariance matrices and model matrices. The operations are the
    numpy ones the filter uses: `@`, `+`, `-`, `.transpose()` and `np.eye`. Arithmetic
    is exact; floating-point rounding is not modelled. */
module Matrices {

  /** Entries stored row by row; `rows` and `cols` are the numpy shape. */
  datatype RawMatrix = RawMatrix(rows: nat, cols: nat, entries: seq<seq<real>>)

  ghost predicate WellShaped(m: RawMatrix) {
    |m.entries| == m.rows && forall i | 0 <= i < m.rows :: |m.entries[i]| == m.cols
  }

  /** A matrix whose entries agree with its shape. */
  type Matrix = m: RawMatrix | WellShaped(m) witness RawMatrix(0, 0, [])

  predicate HasShape(A: Matrix, rows: nat, cols: nat) {
    A.rows == rows && A.cols == cols
  }

  // ---------------------------------------------------------------------------
  // Finite sums

  function Sum(s: seq<real>): real {
    if |s| == 0 then 0.0 else Sum(s[..|s| - 1]) + s[|s| - 1]
  }

  /** Summing a pointwise sum is adding the sums. */
  lemma {:induction false} SumAdd(s: seq<real>, t: seq<real>, u: seq<real>)
    requires |s| == |t| == |u|
    requires forall k | 0 <= k < |u| :: u[k] == s[k] + t[k]
    ensures Sum(u) == Sum(s) + Sum(t)
  {
    if |u| > 0 {
      var n := |u| - 1;
      SumAdd(s[..n], t[..n], u[..n]);
    }
  }

  /** A constant factor moves out of a sum. */
  lemma {:induction false} SumScale(c: real, s: seq<real>, t: seq<real>)
    requires |s| == |t|
    requires forall k | 0 <= k < |t| :: t[k] == c * s[k]
    ensures Sum(t) == c * Sum(s)
  {
    if |t| > 0 {
      var n := |t| - 1;
      SumScale(c, s[..n], t[..n]);
      assert Sum(t) == c * Sum(s[..n]) + c * s[n];
    }
  }

  /** A sum whose terms all vanish except possibly the one at `i` equals that term. */
  lemma {:induction false} SumSingle(s: seq<real>, i: nat)
    requires i < |s|
    requires forall k | 0 <= k < |s| && k != i :: s[k] == 0.0
    ensures Sum(s) == s[i]
  {
    var n := |s| - 1;
    if i < n {
      SumSingle(s[..n], i);
    } else {
      SumZero(s[..n]);
    }
  }

  lemma {:induction false} SumZero(s: seq<real>)
    requires forall k | 0 <= k < |s| :: s[k] == 0.0
    ensures Sum(s) == 0.0
  {
    if |s| > 0 {
      SumZero(s[..|s| - 1]);
    }
  }

  function RowSums(T: seq<seq<real>>): (r: seq<real>)
    ensures |r| == |T|
  {
    seq(|T|, i requires 0 <= i < |T| => Sum(T[i]))
  }

  function Column(T: seq<seq<real>>, j: nat): (c: seq<real>)
    requires forall i | 0 <= i < |T| :: j < |T[i]|
    ensures |c| == |T|
  {
    seq(|T|, i requires 0 <= i < |T| => T[i][j])
  }

  function ColumnSums(T: seq<seq<real>>, m: nat): (r: seq<real>)
    requires forall i | 0 <= i < |T| :: |T[i]| == m
    ensures |r| == m
  {
    seq(m, j requires 0 <= j < m => Sum(Column(T, j)))
  }

  /** The order of summation of a finite double sum does not matter. */
  lemma {:induction false} SumSwap(T: seq<seq<real>>, m: nat)
    requires forall i | 0 <= i < |T| :: |T[i]| == m
    ensures Sum(RowSums(T)) == Sum(ColumnSums(T, m))
  {
    if |T| == 0 {
      SumZero(ColumnSums(T, m));
    } else {
      var n := |T| - 1;
      var front := T[..n];
      SumSwap(front, m);
      assert RowSums(T)[..n] == RowSums(front);
      forall j | 0 <= j < m
        ensures ColumnSums(T, m)[j] == ColumnSums(front, m)[j] + T[n][j]
      {
        assert Column(T, j)[..n] == Column(front, j);
      }
      SumAdd(ColumnSums(front, m), T[n], ColumnSums(T, m));
    }
  }

  // ---------------------------------------------------------------------------
  // Matrix operations

  /** Equal shapes and equal entries make equal matrices. */
  lemma Ext(A: Matrix, B: Matrix)
    requires A.rows == B.rows && A.cols == B.cols
    requires forall i, j | 0 <= i < A.rows && 0 <= j < A.cols :: A.entries[i][j] == B.entries[i][j]
    ensures A == B
  {
    forall i | 0 <= i < A.rows
      ensures A.entries[i] == B.entries[i]
    {
    }
  }

  /** `np.eye(n)`. */
  function Identity(n: nat): (I: Matrix)
    ensures HasShape(I, n, n)
  {
    RawMatrix(n, n, seq(n, i => seq(n, j => if i == j then 1.0 else 0.0)))
  }

  /** The all-zero matrix of the given shape. */
  function Zero(rows: nat, cols: nat): (Z: Matrix)
    ensures HasShape(Z, rows, cols)
  {
    RawMatrix(rows, cols, seq(rows, i => seq(cols, j => 0.0)))
  }

  /** `A.transpose()`. */
  function Transpose(A: Matrix): (T: Matrix)
    ensures HasShape(T, A.cols, A.rows)
  {
    RawMatrix(A.cols, A.rows,
      seq(A.cols, j requires 0 <= j < A.cols =>
        seq(A.rows, i requires 0 <= i < A.rows => A.entries[i][j])))
  }

  /** `A + B` for matrices of the same shape. */
  function Add(A: Matrix, B: Matrix): (C: Matrix)
    requires HasShape(B, A.rows, A.cols)
    ensures HasShape(C, A.rows, A.cols)
  {
    RawMatrix(A.rows, A.cols,
      seq(A.rows, i requires 0 <= i < A.rows =>
        seq(A.cols, j requires 0 <= j < A.cols => A.entries[i][j] + B.entries[i][j])))
  }

  /** `A - B` for matrices of the same shape. */
  function Sub(A: Matrix, B: Matrix): (C: Matrix)
    requires HasShape(B, A.rows, A.cols)
    ensures HasShape(C, A.rows, A.cols)
  {
    RawMatrix(A.rows, A.cols,
      seq(A.rows, i requires 0 <= i < A.rows =>
        seq(A.cols, j requires 0 <= j < A.cols => A.entries[i][j] - B.entries[i][j])))
  }

  /** The terms whose sum is entry (i, j) of `A @ B`. */
  function Terms(A: Matrix, B: Matrix, i: nat, j: nat): (t: seq<real>)
    requires A.cols == B.rows && i < A.rows && j < B.cols
    ensures |t| == A.cols
  {
    seq(A.cols, k requires 0 <= k < A.cols => A.entries[i][k] * B.entries[k][j])
  }

  /** `A @ B`. */
  function Mul(A: Matrix, B: Matrix): (C: Matrix)
    requires A.cols == B.rows
    ensures HasShape(C, A.rows, B.cols)
  {
    RawMatrix(A.rows, B.cols,
      seq(A.rows, i requires 0 <= i < A.rows =>
        seq(B.cols, j requires 0 <= j < B.cols => Sum(Terms(A, B, i, j)))))
  }

  // ---------------------------------------------------------------------------
  // Algebra

  lemma TransposeTranspose(A: Matrix)
    ensures Transpose(Transpose(A)) == A
  {
    Ext(Transpose(Transpose(A)), A);
  }

  /** The transpose of a product is the product of the transposes, reversed. */
  lemma TransposeMul(A: Matrix, B: Matrix)
    requires A.cols == B.rows
    ensures Transpose(Mul(A, B)) == Mul(Transpose(B), Transpose(A))
  {
    var L := Transpose(Mul(A, B));
    var R := Mul(Transpose(B), Transpose(A));
    forall j, i | 0 <= j < B.cols && 0 <= i < A.rows
      ensures L.entries[j][i] == R.entries[j][i]
    {
      forall k | 0 <= k < A.cols
        ensures Terms(Transpose(B), Transpose(A), j, i)[k] == Terms(A, B, i, j)[k]
      {
      }
      assert Terms(Transpose(B), Transpose(A), j, i) == Terms(A, B, i, j);
    }
    Ext(L, R);
  }

  /** T[l][k] is the term A[i][k] * B[k][l] * C[l][j] of the double sum behind
      entry (i, j) of a triple product. */
  function TripleTerms(A: Matrix, B: Matrix, C: Matrix, i: nat, j: nat): (T: seq<seq<real>>)
    requires A.cols == B.rows && B.cols == C.rows
    requires i < A.rows && j < C.cols
    ensures |T| == B.cols && forall l | 0 <= l < B.cols :: |T[l]| == A.cols
  {
    seq(B.cols, l requires 0 <= l < B.cols =>
      seq(A.cols, k requires 0 <= k < A.cols => C.entries[l][j] * (A.entries[i][k] * B.entries[k][l])))
  }

  /** Summing the triple terms row by row gives entry (i, j) of `(A @ B) @ C`. */
  lemma MulAssocLeft(A: Matrix, B: Matrix, C: Matrix, i: nat, j: nat)
    requires A.cols == B.rows && B.cols == C.rows
    requires i < A.rows && j < C.cols
    ensures Mul(Mul(A, B), C).entries[i][j] == Sum(RowSums(TripleTerms(A, B, C, i, j)))
  {
    var T := TripleTerms(A, B, C, i, j);
    var AB := Mul(A, B);
    forall l | 0 <= l < B.cols
      ensures RowSums(T)[l] == Terms(AB, C, i, j)[l]
    {
      SumScale(C.entries[l][j], Terms(A, B, i, l), T[l]);
    }
    assert RowSums(T) == Terms(AB, C, i, j);
  }

  /** Summing the triple terms column by column gives entry (i, j) of `A @ (B @ C)`. */
  lemma MulAssocRight(A: Matrix, B: Matrix, C: Matrix, i: nat, j: nat)
    requires A.cols == B.rows && B.cols == C.rows
    requires i < A.rows && j < C.cols
    ensures Mul(A, Mul(B, C)).entries[i][j] == Sum(ColumnSums(TripleTerms(A, B, C, i, j), A.cols))
  {
    var T := TripleTerms(A, B, C, i, j);
    var BC := Mul(B, C);
    forall k | 0 <= k < A.cols
      ensures ColumnSums(T, A.cols)[k] == Terms(A, BC, i, j)[k]
    {
      forall l | 0 <= l < B.cols
        ensures Column(T, k)[l] == A.entries[i][k] * Terms(B, C, k, j)[l]
      {
      }
      SumScale(A.entries[i][k], Terms(B, C, k, j), Column(T, k));
    }
    assert ColumnSums(T, A.cols) == Terms(A, BC, i, j);
  }

  /** Matrix multiplication is associative. */
  lemma MulAssoc(A: Matrix, B: Matrix, C: Matrix)
    requires A.cols == B.rows && B.cols == C.rows
    ensures Mul(Mul(A, B), C) == Mul(A, Mul(B, C))
  {
    forall i, j | 0 <= i < A.rows && 0 <= j < C.cols
      ensures Mul(Mul(A, B), C).entries[i][j] == Mul(A, Mul(B, C)).entries[i][j]
    {
      MulAssocLeft(A, B, C, i, j);
      MulAssocRight(A, B, C, i, j);
      SumSwap(TripleTerms(A, B, C, i, j), A.cols);
    }
    Ext(Mul(Mul(A, B), C), Mul(A, Mul(B, C)));
  }

  lemma MulIdentityLeft(A: Matrix)
    ensures Mul(Identity(A.rows), A) == A
  {
    forall i, j | 0 <= i < A.rows && 0 <= j < A.cols
      ensures Mul(Identity(A.rows), A).entries[i][j] == A.entries[i][j]
    {
      SumSingle(Terms(Identity(A.rows), A, i, j), i);
    }
    Ext(Mul(Identity(A.rows), A), A);
  }

  lemma MulIdentityRight(A: Matrix)
    ensures Mul(A, Identity(A.cols)) == A
  {
    forall i, j | 0 <= i < A.rows && 0 <= j < A.cols
      ensures Mul(A, Identity(A.cols)).entries[i][j] == A.entries[i][j]
    {
      SumSingle(Terms(A, Identity(A.cols), i, j), j);
    }
    Ext(Mul(A, Identity(A.cols)), A);
  }

  lemma MulZeroLeft(A: Matrix, rows: nat)
    ensures Mul(Zero(rows, A.rows), A) == Zero(rows, A.cols)
  {
    forall i, j | 0 <= i < rows && 0 <= j < A.cols
      ensures Mul(Zero(rows, A.rows), A).entries[i][j] == 0.0
    {
      SumZero(Terms(Zero(rows, A.rows), A, i, j));
    }
    Ext(Mul(Zero(rows, A.rows), A), Zero(rows, A.cols));
  }

  lemma MulZeroRight(A: Matrix, cols: nat)
    ensures Mul(A, Zero(A.cols, cols)) == Zero(A.rows, cols)
  {
    forall i, j | 0 <= i < A.rows && 0 <= j < cols
      ensures Mul(A, Zero(A.cols, cols)).entries[i][j] == 0.0
    {
      SumZero(Terms(A, Zero(A.cols, cols), i, j));
    }
    Ext(Mul(A, Zero(A.cols, cols)), Zero(A.rows, cols));
  }

  // ---------------------------------------------------------------------------
  // Symmetry

  /** A square matrix equal to its transpose, stated entry by entry. */
  predicate Symmetric(A: Matrix) {
    A.rows == A.cols &&
    forall i, j | 0 <= i < A.rows && 0 <= j < A.rows :: A.entries[i][j] == A.entries[j][i]
  }

  lemma SymmetricIffSelfTranspose(A: Matrix)
    ensures Symmetric(A) <==> A.rows == A.cols && Transpose(A) == A
  {
    if Symmetric(A) {
      Ext(Transpose(A), A);
    }
    if A.rows == A.cols && Transpose(A) == A {
      forall i, j | 0 <= i < A.rows && 0 <= j < A.rows
        ensures A.entries[i][j] == A.entries[j][i]
      {
        assert Transpose(A).entries[j][i] == A.entries[i][j];
      }
    }
  }

  /** The sum of two symmetric matrices of one shape is symmetric. */
  lemma AddSymmetric(A: Matrix, B: Matrix)
    requires HasShape(B, A.rows, A.cols)
    ensures Symmetric(A) && Symmetric(B) ==> Symmetric(Add(A, B))
  {
  }

  /** `(X @ P) @ X.transpose()` is symmetric whenever `P` is, for every `X`
      with as many columns as `P` has rows. */
  lemma CongruenceSymmetric(X: Matrix, P: Matrix)
    requires X.cols == P.rows
    ensures Symmetric(P) ==> Symmetric(Mul(Mul(X, P), Transpose(X)))
  {
    if Symmetric(P) {
      var M := Mul(Mul(X, P), Transpose(X));
      TransposeMul(Mul(X, P), Transpose(X));
      TransposeTranspose(X);
      TransposeMul(X, P);
      SymmetricIffSelfTranspose(P);
      MulAssoc(X, P, Transpose(X));
      SymmetricIffSelfTranspose(M);
    }
  }

  // ---------------------------------------------------------------------------
  // Identities with the identity and zero matrices

  lemma TransposeIdentity(n: nat)
    ensures Transpose(Identity(n)) == Identity(n)
  {
    Ext(Transpose(Identity(n)), Identity(n));
  }

  lemma TransposeZero(rows: nat, cols: nat)
    ensures Transpose(Zero(rows, cols)) == Zero(cols, rows)
  {
    Ext(Transpose(Zero(rows, cols)), Zero(cols, rows));
  }

  lemma AddZeroRight(A: Matrix)
    ensures Add(A, Zero(A.rows, A.cols)) == A
  {
    Ext(Add(A, Zero(A.rows, A.cols)), A);
  }

  lemma AddZeroLeft(A: Matrix)
    ensures Add(Zero(A.rows, A.cols), A) == A
  {
    Ext(Add(Zero(A.rows, A.cols), A), A);
  }

  lemma SubSelf(A: Matrix)
    ensures Sub(A, A) == Zero(A.rows, A.cols)
  {
    Ext(Sub(A, A), Zero(A.rows, A.cols));
  }

  /** `A + (B - A) == B`. */
  lemma AddSubCancel(A: Matrix, B: Matrix)
    requires HasShape(B, A.rows, A.cols)
    ensures Add(A, Sub(B, A)) == B
  {
    Ext(Add(A, Sub(B, A)), B);
  }

  // ---------------------------------------------------------------------------
  // Distributivity and additive cancellation

  lemma MulAddRight(A: Matrix, B: Matrix, C: Matrix)
    requires A.cols == B.rows && HasShape(C, B.rows, B.cols)
    ensures Mul(A, Add(B, C)) == Add(Mul(A, B), Mul(A, C))
  {
    forall i, j | 0 <= i < A.rows && 0 <= j < B.cols
      ensures Mul(A, Add(B, C)).entries[i][j] == Add(Mul(A, B), Mul(A, C)).entries[i][j]
    {
      SumAdd(Terms(A, B, i, j), Terms(A, C, i, j), Terms(A, Add(B, C), i, j));
    }
    Ext(Mul(A, Add(B, C)), Add(Mul(A, B), Mul(A, C)));
  }

  lemma MulSubRight(A: Matrix, B: Matrix, C: Matrix)
    requires A.cols == B.rows && HasShape(C, B.rows, B.cols)
    ensures Mul(A, Sub(B, C)) == Sub(Mul(A, B), Mul(A, C))
  {
    forall i, j | 0 <= i < A.rows && 0 <= j < B.cols
      ensures Mul(A, Sub(B, C)).entries[i][j] == Sub(Mul(A, B), Mul(A, C)).entries[i][j]
    {
      SumAdd(Terms(A, Sub(B, C), i, j), Terms(A, C, i, j), Terms(A, B, i, j));
    }
    Ext(Mul(A, Sub(B, C)), Sub(Mul(A, B), Mul(A, C)));
  }

  lemma MulSubLeft(A: Matrix, B: Matrix, C: Matrix)
    requires HasShape(B, A.rows, A.cols) && A.cols == C.rows
    ensures Mul(Sub(A, B), C) == Sub(Mul(A, C), Mul(B, C))
  {
    forall i, j | 0 <= i < A.rows && 0 <= j < C.cols
      ensures Mul(Sub(A, B), C).entries[i][j] == Sub(Mul(A, C), Mul(B, C)).entries[i][j]
    {
      SumAdd(Terms(Sub(A, B), C, i, j), Terms(B, C, i, j), Terms(A, C, i, j));
    }
    Ext(Mul(Sub(A, B), C), Sub(Mul(A, C), Mul(B, C)));
  }

  lemma TransposeSub(A: Matrix, B: Matrix)
    requires HasShape(B, A.rows, A.cols)
    ensures Transpose(Sub(A, B)) == Sub(Transpose(A), Transpose(B))
  {
    Ext(Transpose(Sub(A, B)), Sub(Transpose(A), Transpose(B)));
  }

  /** `(A - B) + B == A`. */
  lemma SubAddCancel(A: Matrix, B: Matrix)
    requires HasShape(B, A.rows, A.cols)
    ensures Add(Sub(A, B), B) == A
  {
    Ext(Add(Sub(A, B), B), A);
  }

  /** From `A + B == C` follows `C - A == B`. */
  lemma SubOfSum(A: Matrix, B: Matrix, C: Matrix)
    requires HasShape(B, A.rows, A.cols) && HasShape(C, A.rows, A.cols)
    requires Add(A, B) == C
    ensures Sub(C, A) == B
  {
    forall i, j | 0 <= i < A.rows && 0 <= j < A.cols
      ensures Sub(C, A).entries[i][j] == B.entries[i][j]
    {
      assert C.entries[i][j] == Add(A, B).entries[i][j];
    }
    Ext(Sub(C, A), B);
  }
}
