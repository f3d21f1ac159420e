/**
 * The inference model's lifecycle (switching the active model when the
 * sub-application changes) and its base parameter check (finiteness).
 */
module Inference {

  // ----- Parameters: IEEE doubles and their conversion to float -----

  /** A double-precision value: finite, an infinity, or not-a-number. */
  datatype Double = Finite(value: real) | Infinity(negative: bool) | NaN

  /** Largest finite single-precision value, (2 - 2^-23) * 2^127. */
  const FloatMax: real := 340282346638528859811704183484516925440.0

  /**
   * Magnitude from which a double rounds to a float infinity under
   * round-to-nearest-even: FloatMax plus half a unit in the last place,
   * 2^128 - 2^103.
   */
  const FloatOverflow: real := 340282356779733661637539395458142568448.0

  /**
   * `static_cast<float>`: finite values at or beyond the overflow bound
   * become infinities of the same sign; infinities and NaN stay what they
   * are. Rounding of the remaining finite values is not modelled.
   */
  function ToFloat(x: Double): (f: Double)
    ensures f.NaN? <==> x.NaN?
    ensures f.Finite? <==> x.Finite? && -FloatOverflow < x.value < FloatOverflow
    ensures f.Finite? ==> f == x
  {
    match x
    case Finite(v) =>
      if v >= FloatOverflow then Infinity(false)
      else if v <= -FloatOverflow then Infinity(true)
      else x
    case Infinity(_) => x
    case NaN => x
  }

  /** Base check shared by every model: the value is finite once converted to float. */
  function AuthorizedParameterAtIndex(x: Double, index: int): (r: bool)
    ensures r <==> x.Finite? && -FloatOverflow < x.value < FloatOverflow
  {
    ToFloat(x).Finite?
  }

  /** The base check ignores the index. */
  lemma AuthorizedIgnoresIndex(x: Double, i: int, j: int)
    ensures AuthorizedParameterAtIndex(x, i) == AuthorizedParameterAtIndex(x, j)
  {
  }

  /** NaN and infinities are refused; every value a float can hold is accepted. */
  lemma AuthorizedBounds(x: Double, i: int)
    ensures x.NaN? || x.Infinity? ==> !AuthorizedParameterAtIndex(x, i)
    ensures x.Finite? && -FloatMax <= x.value <= FloatMax ==> AuthorizedParameterAtIndex(x, i)
    ensures x.Finite? && (x.value >= FloatOverflow || x.value <= -FloatOverflow) ==> !AuthorizedParameterAtIndex(x, i)
  {
  }

  // ----- Lifecycle -----

  /** The three sub-applications of the calculator's inference app. */
  datatype SubApp = Probability | Test | Interval

  /** Distribution families offered by the probability sub-application. */
  datatype DistributionFamily =
    | Binomial | Uniform | Exponential | Normal | ChiSquared
    | Student | Geometric | Hypergeometric | Poisson | Fisher

  /** Significance tests. */
  datatype TestKind = OneMeanTTest | Homogeneity

  /** Confidence intervals. */
  datatype IntervalKind = OneMeanTInterval | OneMeanZInterval

  /** The active inference model: one variant of a closed sum. */
  datatype Model =
    | Distribution(family: DistributionFamily)
    | SignificanceTest(test: TestKind)
    | ConfidenceInterval(interval: IntervalKind)

  /** The sub-application a model belongs to. */
  function SubAppOf(m: Model): (s: SubApp)
    ensures s == Probability <==> m.Distribution?
    ensures s == Test <==> m.SignificanceTest?
    ensures s == Interval <==> m.ConfidenceInterval?
  {
    match m
    case Distribution(_) => Probability
    case SignificanceTest(_) => Test
    case ConfidenceInterval(_) => Interval
  }

  /** The model each sub-application starts with. */
  function DefaultModel(subApp: SubApp): (m: Model)
    ensures SubAppOf(m) == subApp
  {
    match subApp
    case Probability => Distribution(Binomial)
    case Test => SignificanceTest(OneMeanTTest)
    case Interval => ConfidenceInterval(OneMeanTInterval)
  }

  /** Outcome of a switch: whether it changed the model, and the model afterwards. */
  datatype Switch = Switch(changed: bool, model: Model)

  /**
   * Switching to `subApp`: nothing happens when the current model already
   * belongs to it; otherwise the model is replaced by that sub-application's
   * default.
   */
  function Initialize(current: Model, subApp: SubApp): (r: Switch)
    ensures r.changed <==> SubAppOf(current) != subApp
    ensures !r.changed ==> r.model == current
    ensures SubAppOf(r.model) == subApp
  {
    if SubAppOf(current) == subApp then Switch(false, current)
    else Switch(true, DefaultModel(subApp))
  }

  /** A real switch installs the binomial distribution, the one-mean t test or the one-mean t interval. */
  lemma InitializeInstallsDefault(current: Model, subApp: SubApp)
    requires SubAppOf(current) != subApp
    ensures Initialize(current, subApp).changed
    ensures subApp == Probability ==> Initialize(current, subApp).model == Distribution(Binomial)
    ensures subApp == Test ==> Initialize(current, subApp).model == SignificanceTest(OneMeanTTest)
    ensures subApp == Interval ==> Initialize(current, subApp).model == ConfidenceInterval(OneMeanTInterval)
  {
  }

  /** Switching twice to the same sub-application changes the model at most once. */
  lemma InitializeTwice(current: Model, subApp: SubApp)
    ensures var first := Initialize(current, subApp);
            var second := Initialize(first.model, subApp);
            !second.changed && second.model == first.model
  {
  }

  /** The single storage slot that holds the active model. */
  class InferenceStorage {
    var model: Model

    constructor (m: Model)
      ensures model == m
    {
      model := m;
    }

    function SubApp(): SubApp
      reads this
    {
      SubAppOf(model)
    }
  }

  /**
   * Replaces the model held by `inference` in place when the sub-application
   * changes, and reports whether it did.
   */
  method InitializeInPlace(inference: InferenceStorage, subApp: SubApp) returns (changed: bool)
    modifies inference
    ensures Initialize(old(inference.model), subApp) == Switch(changed, inference.model)
    ensures changed <==> old(inference.SubApp()) != subApp
    ensures !changed ==> inference.model == old(inference.model)
    ensures changed ==> inference.model == DefaultModel(subApp)
    ensures inference.SubApp() == subApp
  {
    if inference.SubApp() == subApp {
      return false;
    }
    inference.model := DefaultModel(subApp);
    changed := true;
  }
}
