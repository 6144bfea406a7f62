/** The StateVectors container of `gmphd_fusion/data.py`: state vectors of one dimension d,
    kept side by side as the columns of a (d, n) array, with positional access and
    iteration in insertion order. */
module StateVectorData {
  import opened Matrices

  /** A state vector of dimension d is a d x 1 column. */
  predicate IsStateVector(v: Matrix, d: nat) {
    HasShape(v, d, 1)
  }

  /** A non-empty list of state vectors, all of the dimension of the first. */
  predicate SameDimension(vs: seq<Matrix>) {
    |vs| > 0 && forall i | 0 <= i < |vs| :: IsStateVector(vs[i], vs[0].rows)
  }

  datatype StateVectors = StateVectors(data: Matrix) {

    /** `shape`: (d, n), where n is the number of vectors iteration yields and d the
        dimension of each of them. */
    function Shape(): (shape: (nat, nat))
      ensures shape.1 == |Iterate()|
      ensures forall i | 0 <= i < shape.1 :: IsStateVector(Get(i), shape.0)
    {
      (data.rows, data.cols)
    }

    /** `svs[i]`: column i as a state vector. */
    function Get(i: nat): (v: Matrix)
      requires i < data.cols
      ensures IsStateVector(v, data.rows)
      ensures forall r | 0 <= r < data.rows :: v.entries[r][0] == data.entries[r][i]
    {
      RawMatrix(data.rows, 1, seq(data.rows, r requires 0 <= r < data.rows => [data.entries[r][i]]))
    }

    /** `for v in svs`: the columns, first to last. */
    function Iterate(): (vs: seq<Matrix>)
      ensures |vs| == data.cols
      ensures forall i | 0 <= i < |vs| :: vs[i] == Get(i)
    {
      seq(data.cols, i requires 0 <= i < data.cols => Get(i))
    }
  }

  /** `StateVectors(vs)`: the (d, n) array whose column c is vs[c]. */
  function FromVectors(vs: seq<Matrix>): (svs: StateVectors)
    requires SameDimension(vs)
    ensures svs.Shape() == (vs[0].rows, |vs|)
  {
    var d := vs[0].rows;
    StateVectors(RawMatrix(d, |vs|,
      seq(d, r requires 0 <= r < d =>
        seq(|vs|, c requires 0 <= c < |vs| => vs[c].entries[r][0]))))
  }

  /** Indexing returns the vector inserted at that position. */
  lemma GetFromVectors(vs: seq<Matrix>, i: nat)
    requires SameDimension(vs) && i < |vs|
    ensures FromVectors(vs).Get(i) == vs[i]
  {
    var v := FromVectors(vs).Get(i);
    forall r | 0 <= r < v.rows
      ensures v.entries[r] == vs[i].entries[r]
    {
    }
  }

  /** Iteration yields the inserted vectors in insertion order. */
  lemma IterateFromVectors(vs: seq<Matrix>)
    requires SameDimension(vs)
    ensures FromVectors(vs).Iterate() == vs
  {
    forall i | 0 <= i < |vs|
      ensures FromVectors(vs).Iterate()[i] == vs[i]
    {
      GetFromVectors(vs, i);
    }
  }

  /** The vector [i, i, i] of the tests. */
  function Triple(i: nat): (v: Matrix)
    ensures IsStateVector(v, 3)
  {
    RawMatrix(3, 1, [[i as real], [i as real], [i as real]])
  }

  /** The StateVectors test: the 100 vectors [i, i, i] give shape (3, 100), and indexing
      and iteration return them in order. */
  lemma HundredTriplesScenario()
    ensures var vs := seq(100, i requires 0 <= i < 100 => Triple(i));
            SameDimension(vs) &&
            FromVectors(vs).Shape() == (3, 100) &&
            (forall i | 0 <= i < 100 :: FromVectors(vs).Get(i) == Triple(i)) &&
            FromVectors(vs).Iterate() == vs
  {
  }
}
