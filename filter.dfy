/** The linear Kalman filter of `gmphd_fusion/filter.py`: predict, predict_measurement
    and update as pure functions of their arguments. The motion model and
    `np.linalg.inv` are supplied from outside, as function-valued parameters. */
module Filter {
  import opened Wrappers
  import opened Matrices

  /** A Gaussian belief over the state: the mean (d x 1) and covariance (d x d). */
  datatype Gaussian = Gaussian(mean: Matrix, cov: Matrix)

  /** The linear coordinate measurement model, as the filter sees it:
      `measurement_matrix()` is H (m x d) and `noise_matrix()` is R (m x m). */
  datatype MeasurementModel = MeasurementModel(H: Matrix, R: Matrix)

  /** The pair that predict_measurement returns and update may reuse: the expected
      measurement z_hat (m x 1) and the innovation covariance S (m x m). */
  datatype MeasurementPrediction = MeasurementPrediction(zHat: Matrix, S: Matrix)

  /** The `LinAlgError` that `np.linalg.inv` raises on a singular matrix. */
  datatype FilterError = SingularMatrix

  /** A motion model: called with the mean, the covariance and the time step, it returns
      the predicted mean and covariance. Its internals are not part of this model. */
  type MotionModel = (Matrix, Matrix, real) -> Gaussian

  /** The matrix inverse of the numeric library: `None` stands for the error it raises. */
  type Inverter = Matrix -> Option<Matrix>

  ghost predicate IsInverse(S: Matrix, T: Matrix) {
    S.rows == S.cols && HasShape(T, S.rows, S.cols) &&
    Mul(S, T) == Identity(S.rows) && Mul(T, S) == Identity(S.rows)
  }

  ghost predicate Invertible(S: Matrix) {
    exists T: Matrix :: IsInverse(S, T)
  }

  /** What `np.linalg.inv` promises: what it returns is an inverse, and it fails only
      on a matrix that has none. */
  ghost predicate IsLinalgInv(inv: Inverter) {
    (forall S: Matrix :: inv(S).Some? ==> IsInverse(S, inv(S).value)) &&
    (forall S: Matrix, T: Matrix :: IsInverse(S, T) ==> inv(S).Some?)
  }

  /** A mean of d x 1 and a covariance of d x d. */
  predicate IsState(mean: Matrix, cov: Matrix, d: nat) {
    HasShape(mean, d, 1) && HasShape(cov, d, d)
  }

  /** H of m x d and R of m x m. */
  predicate IsMeasurementModel(mm: MeasurementModel, m: nat, d: nat) {
    HasShape(mm.H, m, d) && HasShape(mm.R, m, m)
  }

  /** The shapes update needs: a state of dimension d, a measurement model from d to m,
      a measurement of m x 1 and, when one is supplied, a prediction of m x 1 and m x m. */
  predicate UpdateShapes(mean: Matrix, cov: Matrix, measurement: Matrix, mm: MeasurementModel,
                         predictedMeasurement: Option<MeasurementPrediction>) {
    IsState(mean, cov, mean.rows) &&
    IsMeasurementModel(mm, mm.H.rows, mean.rows) &&
    HasShape(measurement, mm.H.rows, 1) &&
    (predictedMeasurement.Some? ==>
       HasShape(predictedMeasurement.value.zHat, mm.H.rows, 1) &&
       HasShape(predictedMeasurement.value.S, mm.H.rows, mm.H.rows))
  }

  // ---------------------------------------------------------------------------
  // KalmanFilter

  /** predict: the motion model's result for (mean, cov, dt), with dt defaulting to 1.0. */
  function Predict(mean: Matrix, cov: Matrix, motionModel: MotionModel, dt: real := 1.0): (r: Gaussian)
    ensures r == motionModel(mean, cov, dt)
  {
    motionModel(mean, cov, dt)
  }

  lemma PredictDefaultStep(mean: Matrix, cov: Matrix, motionModel: MotionModel)
    ensures Predict(mean, cov, motionModel) == motionModel(mean, cov, 1.0)
  {
  }

  /** _z_hat: the expected measurement `H @ mean`, one entry per measured coordinate. */
  function ZHat(mean: Matrix, mm: MeasurementModel): (zHat: Matrix)
    requires mm.H.cols == mean.rows
    ensures HasShape(zHat, mm.H.rows, mean.cols)
  {
    Mul(mm.H, mean)
  }

  /** _innovation_covariance: `S = H @ cov @ H.transpose() + R`, symmetric whenever
      cov and R are. */
  function InnovationCovariance(cov: Matrix, mm: MeasurementModel): (S: Matrix)
    requires IsMeasurementModel(mm, mm.H.rows, cov.rows) && cov.cols == cov.rows
    ensures HasShape(S, mm.H.rows, mm.H.rows)
    ensures Symmetric(cov) && Symmetric(mm.R) ==> Symmetric(S)
  {
    var H := mm.H;
    CongruenceSymmetric(H, cov);
    AddSymmetric(Mul(Mul(H, cov), Transpose(H)), mm.R);
    Add(Mul(Mul(H, cov), Transpose(H)), mm.R)
  }

  /** predict_measurement: the pair (z_hat, S) for the state and the measurement model. */
  function PredictMeasurement(mean: Matrix, cov: Matrix, mm: MeasurementModel): (p: MeasurementPrediction)
    requires IsState(mean, cov, mean.rows) && IsMeasurementModel(mm, mm.H.rows, mean.rows)
    ensures HasShape(p.zHat, mm.H.rows, 1) && HasShape(p.S, mm.H.rows, mm.H.rows)
    ensures Symmetric(cov) && Symmetric(mm.R) ==> Symmetric(p.S)
  {
    MeasurementPrediction(ZHat(mean, mm), InnovationCovariance(cov, mm))
  }

  /** The Joseph-form covariance `(I - W @ H) @ cov @ (I - W @ H).transpose() + W @ R @ W.transpose()`,
      with I sized by the rows of W. It is symmetric whenever cov and R are, whatever W is. */
  function JosephCovariance(W: Matrix, H: Matrix, cov: Matrix, R: Matrix): (P: Matrix)
    requires HasShape(H, W.cols, W.rows) && HasShape(cov, W.rows, W.rows) && HasShape(R, W.cols, W.cols)
    ensures HasShape(P, W.rows, W.rows)
    ensures Symmetric(cov) && Symmetric(R) ==> Symmetric(P)
  {
    var iwh := Sub(Identity(W.rows), Mul(W, H));
    CongruenceSymmetric(iwh, cov);
    CongruenceSymmetric(W, R);
    AddSymmetric(Mul(Mul(iwh, cov), Transpose(iwh)), Mul(Mul(W, R), Transpose(W)));
    Add(Mul(Mul(iwh, cov), Transpose(iwh)), Mul(Mul(W, R), Transpose(W)))
  }

  /** The (z_hat, S) pair update works with: the supplied one, verbatim, or else the one
      computed from the measurement model. */
  function UsedPrediction(mean: Matrix, cov: Matrix, mm: MeasurementModel,
                          predictedMeasurement: Option<MeasurementPrediction>): (p: MeasurementPrediction)
    requires IsState(mean, cov, mean.rows) && IsMeasurementModel(mm, mm.H.rows, mean.rows)
    ensures predictedMeasurement.Some? ==> p == predictedMeasurement.value
    ensures predictedMeasurement.None? ==> p.zHat == Mul(mm.H, mean)
    ensures predictedMeasurement.None? ==> p.S == Add(Mul(Mul(mm.H, cov), Transpose(mm.H)), mm.R)
  {
    match predictedMeasurement
    case Some(p) => p
    case None => MeasurementPrediction(Mul(mm.H, mean), Add(Mul(Mul(mm.H, cov), Transpose(mm.H)), mm.R))
  }

  /** update: the posterior mean and covariance for a measurement. The `zHat` and
      `innovationCovariance` arguments stand for the keyword arguments of the same name that
      the source accepts and never uses. Fails exactly when the innovation covariance in
      use is singular; otherwise the posterior has the prior's shapes, and its covariance
      is symmetric whenever the prior covariance and R are. */
  function Update(mean: Matrix, cov: Matrix, measurement: Matrix, mm: MeasurementModel, inv: Inverter,
                  predictedMeasurement: Option<MeasurementPrediction> := None,
                  zHat: Option<Matrix> := None, innovationCovariance: Option<Matrix> := None)
    : (r: Result<Gaussian, FilterError>)
    requires IsLinalgInv(inv)
    requires UpdateShapes(mean, cov, measurement, mm, predictedMeasurement)
    ensures r.Err? <==> !Invertible(UsedPrediction(mean, cov, mm, predictedMeasurement).S)
    ensures r.Ok? ==> IsState(r.value.mean, r.value.cov, mean.rows)
    ensures r.Ok? && Symmetric(cov) && Symmetric(mm.R) ==> Symmetric(r.value.cov)
  {
    var H := mm.H;
    var R := mm.R;
    var p := UsedPrediction(mean, cov, mm, predictedMeasurement);
    var nu := Sub(measurement, p.zHat);
    match inv(p.S)
    case None => Err(SingularMatrix)
    case Some(sInv) =>
      var W := Mul(Mul(cov, Transpose(H)), sInv);
      var meanPosterior := Add(mean, Mul(W, nu));
      var covPosterior := JosephCovariance(W, H, cov, R);
      Ok(Gaussian(meanPosterior, covPosterior))
  }

  // ---------------------------------------------------------------------------
  // Properties of update

  /** Passing the result of predict_measurement as `predictedMeasurement` gives the same
      posterior as letting update compute it. */
  lemma ReusedPredictionAgrees(mean: Matrix, cov: Matrix, measurement: Matrix, mm: MeasurementModel, inv: Inverter)
    requires IsLinalgInv(inv)
    requires UpdateShapes(mean, cov, measurement, mm, None)
    ensures UpdateShapes(mean, cov, measurement, mm, Some(PredictMeasurement(mean, cov, mm)))
    ensures Update(mean, cov, measurement, mm, inv, Some(PredictMeasurement(mean, cov, mm)))
         == Update(mean, cov, measurement, mm, inv, None)
  {
  }

  /** The `zHat` and `innovationCovariance` keyword arguments never change the result. */
  lemma StrayArgumentsIgnored(mean: Matrix, cov: Matrix, measurement: Matrix, mm: MeasurementModel, inv: Inverter,
                              predictedMeasurement: Option<MeasurementPrediction>,
                              zHat1: Option<Matrix>, innovationCovariance1: Option<Matrix>,
                              zHat2: Option<Matrix>, innovationCovariance2: Option<Matrix>)
    requires IsLinalgInv(inv)
    requires UpdateShapes(mean, cov, measurement, mm, predictedMeasurement)
    ensures Update(mean, cov, measurement, mm, inv, predictedMeasurement, zHat1, innovationCovariance1)
         == Update(mean, cov, measurement, mm, inv, predictedMeasurement, zHat2, innovationCovariance2)
  {
  }

  /** The source's gain `cov @ H.transpose() @ inv(S)` solves `W @ S == cov @ H.transpose()`. */
  lemma GainSolvesNormalEquation(cov: Matrix, H: Matrix, S: Matrix, sInv: Matrix)
    requires cov.cols == H.cols && IsInverse(S, sInv) && S.rows == H.rows
    ensures Mul(Mul(Mul(cov, Transpose(H)), sInv), S) == Mul(cov, Transpose(H))
  {
    var PHt := Mul(cov, Transpose(H));
    MulAssoc(PHt, sInv, S);
    MulIdentityRight(PHt);
  }

  /** When S is invertible, `W @ S` determines W. */
  lemma GainUnique(W1: Matrix, W2: Matrix, S: Matrix)
    requires Invertible(S) && W1.cols == S.rows && W2.cols == S.rows && W1.rows == W2.rows
    requires Mul(W1, S) == Mul(W2, S)
    ensures W1 == W2
  {
    var T :| IsInverse(S, T);
    MulAssoc(W1, S, T);
    MulAssoc(W2, S, T);
    MulIdentityRight(W1);
    MulIdentityRight(W2);
  }

  /** update, characterised without the inverse: for any W with `W @ S == cov @ H.transpose()`
      (the Kalman gain), the posterior is `mean + W @ (measurement - z_hat)` with the
      Joseph-form covariance for W. */
  lemma UpdateWithGain(mean: Matrix, cov: Matrix, measurement: Matrix, mm: MeasurementModel, inv: Inverter,
                       predictedMeasurement: Option<MeasurementPrediction>, W: Matrix)
    requires IsLinalgInv(inv)
    requires UpdateShapes(mean, cov, measurement, mm, predictedMeasurement)
    requires Invertible(UsedPrediction(mean, cov, mm, predictedMeasurement).S)
    requires HasShape(W, mean.rows, mm.H.rows)
    requires Mul(W, UsedPrediction(mean, cov, mm, predictedMeasurement).S) == Mul(cov, Transpose(mm.H))
    ensures Update(mean, cov, measurement, mm, inv, predictedMeasurement)
         == Ok(Gaussian(Add(mean, Mul(W, Sub(measurement, UsedPrediction(mean, cov, mm, predictedMeasurement).zHat))),
                        JosephCovariance(W, mm.H, cov, mm.R)))
  {
    var p := UsedPrediction(mean, cov, mm, predictedMeasurement);
    var sInv := inv(p.S).value;
    var G := Mul(Mul(cov, Transpose(mm.H)), sInv);
    GainSolvesNormalEquation(cov, mm.H, p.S, sInv);
    GainUnique(W, G, p.S);
  }

  /** A perfect measurement (H the identity, R zero) of an invertible covariance moves the
      mean onto the measurement and collapses the covariance to zero. */
  lemma NoiselessIdentityMeasurement(mean: Matrix, cov: Matrix, measurement: Matrix, inv: Inverter)
    requires IsLinalgInv(inv)
    requires IsState(mean, cov, mean.rows) && HasShape(measurement, mean.rows, 1)
    ensures var d := mean.rows;
            UpdateShapes(mean, cov, measurement, MeasurementModel(Identity(d), Zero(d, d)), None) &&
            var r := Update(mean, cov, measurement, MeasurementModel(Identity(d), Zero(d, d)), inv);
            (r.Ok? <==> Invertible(cov)) &&
            (r.Ok? ==> r.value == Gaussian(measurement, Zero(d, d)))
  {
    var d := mean.rows;
    var I, Z := Identity(d), Zero(d, d);
    var mm := MeasurementModel(I, Z);
    // S = I @ cov @ I' + 0 is cov itself
    TransposeIdentity(d);
    MulIdentityLeft(cov);
    MulIdentityRight(cov);
    AddZeroRight(cov);
    assert UsedPrediction(mean, cov, mm, None).S == cov;
    if Invertible(cov) {
      UpdateWithGain(mean, cov, measurement, mm, inv, None, I);
      // the posterior mean: mean + I @ (measurement - I @ mean)
      MulIdentityLeft(mean);
      MulIdentityLeft(Sub(measurement, mean));
      AddSubCancel(mean, measurement);
      // the posterior covariance: (I - I @ I) is zero, and so are both terms
      MulIdentityLeft(I);
      SubSelf(I);
      MulZeroLeft(cov, d);
      TransposeZero(d, d);
      MulZeroLeft(Z, d);
      MulIdentityLeft(Z);
      MulIdentityRight(Z);
      AddZeroRight(Z);
    }
  }

  /** With a gain that solves `W @ S == cov @ H.transpose()` for S = H cov H' + R, the
      Joseph-form covariance equals the short form `(I - W @ H) @ cov`. */
  lemma JosephEqualsShortForm(W: Matrix, H: Matrix, cov: Matrix, R: Matrix)
    requires HasShape(H, W.cols, W.rows) && HasShape(cov, W.rows, W.rows) && HasShape(R, W.cols, W.cols)
    requires Mul(W, Add(Mul(Mul(H, cov), Transpose(H)), R)) == Mul(cov, Transpose(H))
    ensures JosephCovariance(W, H, cov, R) == Mul(Sub(Identity(W.rows), Mul(W, H)), cov)
  {
    var I := Identity(W.rows);
    var X := Sub(I, Mul(W, H));
    var Ht, Wt := Transpose(H), Transpose(W);
    var XP, WR, PHt := Mul(X, cov), Mul(W, R), Mul(cov, Transpose(H));
    // X' = I - H' W'
    TransposeSub(I, Mul(W, H));
    TransposeIdentity(W.rows);
    TransposeMul(W, H);
    // X cov X' = X cov - (X cov H') W'
    MulSubRight(XP, I, Mul(Ht, Wt));
    MulIdentityRight(XP);
    MulAssoc(XP, Ht, Wt);
    // X cov H' = cov H' - W (H cov H')
    MulAssoc(X, cov, Ht);
    MulSubLeft(I, Mul(W, H), PHt);
    MulIdentityLeft(PHt);
    MulAssoc(W, H, PHt);
    MulAssoc(H, cov, Ht);
    // and since W (H cov H' + R) = cov H', that is W R
    MulAddRight(W, Mul(Mul(H, cov), Ht), R);
    SubOfSum(Mul(W, Mul(Mul(H, cov), Ht)), WR, PHt);
    assert Mul(XP, Ht) == WR;
    SubAddCancel(XP, Mul(WR, Wt));
  }
}
