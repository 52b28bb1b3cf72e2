/**
 * The create request and its Bean Validation constraints.
 *
 * The source declares the constraints as annotations on the request fields; they are
 * enforced before the service is called. `Valid` states them directly, field by field.
 * `FieldErrors` is the message-per-failing-field map that the validation failure
 * reports, with the exact message text of each annotation.
 */
module Request {
  import opened Wrappers
  import opened Fields
  import opened ChartData

  datatype AnalysisRequest = AnalysisRequest(fields: AnalysisFields, chartData: Option<Json>)

  /** @DecimalMin/@DecimalMax with inclusive bounds: a null value passes. */
  predicate WithinOrAbsent(v: Option<real>, lo: real, hi: real) {
    v.None? || (lo <= v.value && v.value <= hi)
  }

  /** The request's validation constraints. */
  predicate Valid(r: AnalysisRequest) {
    var f := r.fields;
    // @NotNull
    && f.orbitalPeriod.Some?
    && f.transitDuration.Some?
    && f.transitDepth.Some?
    && f.snr.Some?
    && f.planetRadius.Some?
    && f.probability.Some?
    && f.classification.Some?
    && f.confidenceLevel.Some?
    // @DecimalMin("0.0") @DecimalMax("100.0")
    && WithinOrAbsent(f.probability, 0.0, 100.0)
    // @DecimalMin("0.0") @DecimalMax("1.0")
    && WithinOrAbsent(f.accuracy, 0.0, 1.0)
    && WithinOrAbsent(f.f1Score, 0.0, 1.0)
    && WithinOrAbsent(f.precision, 0.0, 1.0)
    && WithinOrAbsent(f.recall, 0.0, 1.0)
    && WithinOrAbsent(f.falsePositiveRate, 0.0, 1.0)
  }

  /** The request's fields, as validation reports them. */
  datatype Field =
    | OrbitalPeriod | TransitDuration | TransitDepth | Snr | PlanetRadius | Probability
    | Accuracy | F1Score | Precision | Recall | FalsePositiveRate
    | Classification | ConfidenceLevel | ChartDataField
  {
    /** The property name a validation error carries. */
    function Name(): string {
      match this
      case OrbitalPeriod => "orbitalPeriod"
      case TransitDuration => "transitDuration"
      case TransitDepth => "transitDepth"
      case Snr => "snr"
      case PlanetRadius => "planetRadius"
      case Probability => "probability"
      case Accuracy => "accuracy"
      case F1Score => "f1Score"
      case Precision => "precision"
      case Recall => "recall"
      case FalsePositiveRate => "falsePositiveRate"
      case Classification => "classification"
      case ConfidenceLevel => "confidenceLevel"
      case ChartDataField => "chartData"
    }
  }

  const AllFields: set<Field> :=
    {OrbitalPeriod, TransitDuration, TransitDepth, Snr, PlanetRadius, Probability,
     Accuracy, F1Score, Precision, Recall, FalsePositiveRate,
     Classification, ConfidenceLevel, ChartDataField}

  function Required<T>(v: Option<T>, message: string): Option<string> {
    if v.None? then Some(message) else None
  }

  function Ranged(v: Option<real>, lo: real, hi: real, message: string): Option<string> {
    if v.Some? && (v.value < lo || hi < v.value) then Some(message) else None
  }

  /**
   * The message the field's constraints give for this request, or None when they hold.
   * A null probability is reported by @NotNull alone, since range checks pass on null.
   */
  function Violation(r: AnalysisRequest, field: Field): Option<string> {
    var f := r.fields;
    match field
    case OrbitalPeriod => Required(f.orbitalPeriod, "Orbital period is required")
    case TransitDuration => Required(f.transitDuration, "Transit duration is required")
    case TransitDepth => Required(f.transitDepth, "Transit depth is required")
    case Snr => Required(f.snr, "SNR is required")
    case PlanetRadius => Required(f.planetRadius, "Planet radius is required")
    case Probability =>
      if f.probability.None? then Some("Probability is required")
      else Ranged(f.probability, 0.0, 100.0, "Probability must be between 0 and 100")
    case Accuracy => Ranged(f.accuracy, 0.0, 1.0, "Accuracy must be between 0 and 1")
    case F1Score => Ranged(f.f1Score, 0.0, 1.0, "F1 score must be between 0 and 1")
    case Precision => Ranged(f.precision, 0.0, 1.0, "Precision must be between 0 and 1")
    case Recall => Ranged(f.recall, 0.0, 1.0, "Recall must be between 0 and 1")
    case FalsePositiveRate =>
      Ranged(f.falsePositiveRate, 0.0, 1.0, "False positive rate must be between 0 and 1")
    case Classification => Required(f.classification, "Classification is required")
    case ConfidenceLevel => Required(f.confidenceLevel, "Confidence level is required")
    case ChartDataField => None
  }

  /** The field a property name denotes, if any. */
  function FieldNamed(name: string): (f: Option<Field>)
    ensures f.Some? ==> f.value.Name() == name
  {
    if name == "orbitalPeriod" then Some(OrbitalPeriod)
    else if name == "transitDuration" then Some(TransitDuration)
    else if name == "transitDepth" then Some(TransitDepth)
    else if name == "snr" then Some(Snr)
    else if name == "planetRadius" then Some(PlanetRadius)
    else if name == "probability" then Some(Probability)
    else if name == "accuracy" then Some(Accuracy)
    else if name == "f1Score" then Some(F1Score)
    else if name == "precision" then Some(Precision)
    else if name == "recall" then Some(Recall)
    else if name == "falsePositiveRate" then Some(FalsePositiveRate)
    else if name == "classification" then Some(Classification)
    else if name == "confidenceLevel" then Some(ConfidenceLevel)
    else if name == "chartData" then Some(ChartDataField)
    else None
  }

  /** Every field is found again under its own name, so no two fields share a name. */
  lemma FieldNamedInverse(field: Field)
    ensures FieldNamed(field.Name()) == Some(field)
  {
    match field
    case OrbitalPeriod =>
    case TransitDuration =>
    case TransitDepth =>
    case Snr =>
    case PlanetRadius =>
    case Probability =>
    case Accuracy =>
    case F1Score =>
    case Precision =>
    case Recall =>
    case FalsePositiveRate =>
    case Classification =>
    case ConfidenceLevel =>
    case ChartDataField =>
  }

  const AllNames: set<string> := set field | field in AllFields :: field.Name()

  /**
   * Every failing field with its message, all of them at once, keyed by the field's
   * property name as the validation failure reports it.
   */
  function FieldErrors(r: AnalysisRequest): (errors: map<string, string>)
    ensures forall field :: field in AllFields ==>
              (field.Name() in errors <==> Violation(r, field).Some?)
    ensures forall field :: field in AllFields && field.Name() in errors ==>
              errors[field.Name()] == Violation(r, field).value
    ensures forall name :: name in errors ==>
              FieldNamed(name).Some? && Violation(r, FieldNamed(name).value).Some?
  {
    forall field | field in AllFields ensures FieldNamed(field.Name()) == Some(field) && field.Name() in AllNames {
      FieldNamedInverse(field);
    }
    map name | name in AllNames && FieldNamed(name).Some? && Violation(r, FieldNamed(name).value).Some?
             :: Violation(r, FieldNamed(name).value).value
  }

  /** The constraints hold exactly when no field reports a violation. */
  lemma ValidIffNoViolation(r: AnalysisRequest)
    ensures Valid(r) <==> forall field :: field in AllFields ==> Violation(r, field).None?
  {
    var f := r.fields;
    if Valid(r) {
      forall field | field in AllFields ensures Violation(r, field).None? {
        match field
        case Probability => assert f.probability.Some?;
        case _ =>
      }
    } else {
      if f.orbitalPeriod.None? { assert Violation(r, OrbitalPeriod).Some?; }
      else if f.transitDuration.None? { assert Violation(r, TransitDuration).Some?; }
      else if f.transitDepth.None? { assert Violation(r, TransitDepth).Some?; }
      else if f.snr.None? { assert Violation(r, Snr).Some?; }
      else if f.planetRadius.None? { assert Violation(r, PlanetRadius).Some?; }
      else if !WithinOrAbsent(f.probability, 0.0, 100.0) || f.probability.None? {
        assert Violation(r, Probability).Some?;
      }
      else if f.classification.None? { assert Violation(r, Classification).Some?; }
      else if f.confidenceLevel.None? { assert Violation(r, ConfidenceLevel).Some?; }
      else if !WithinOrAbsent(f.accuracy, 0.0, 1.0) { assert Violation(r, Accuracy).Some?; }
      else if !WithinOrAbsent(f.f1Score, 0.0, 1.0) { assert Violation(r, F1Score).Some?; }
      else if !WithinOrAbsent(f.precision, 0.0, 1.0) { assert Violation(r, Precision).Some?; }
      else if !WithinOrAbsent(f.recall, 0.0, 1.0) { assert Violation(r, Recall).Some?; }
      else { assert Violation(r, FalsePositiveRate).Some?; }
    }
  }

  /** A request is valid exactly when validation reports no failing field. */
  lemma ValidIffNoFieldErrors(r: AnalysisRequest)
    ensures Valid(r) <==> FieldErrors(r) == map[]
  {
    ValidIffNoViolation(r);
    var errors := FieldErrors(r);
    if Valid(r) {
      assert errors.Keys == {};
    } else {
      var bad :| bad in AllFields && Violation(r, bad).Some?;
      assert bad.Name() in errors;
    }
  }

  /** Each of the eight required fields, when null, makes the request invalid and is reported. */
  lemma MissingRequiredIsInvalid(r: AnalysisRequest, field: Field)
    requires field in {OrbitalPeriod, TransitDuration, TransitDepth, Snr, PlanetRadius,
                       Probability, Classification, ConfidenceLevel}
    requires match field
             case OrbitalPeriod => r.fields.orbitalPeriod.None?
             case TransitDuration => r.fields.transitDuration.None?
             case TransitDepth => r.fields.transitDepth.None?
             case Snr => r.fields.snr.None?
             case PlanetRadius => r.fields.planetRadius.None?
             case Probability => r.fields.probability.None?
             case Classification => r.fields.classification.None?
             case ConfidenceLevel => r.fields.confidenceLevel.None?
             case _ => false
    ensures !Valid(r)
    ensures field.Name() in FieldErrors(r)
  {
  }

  /**
   * Probability is checked against [0, 100] with both ends inclusive: 0 and 100 pass,
   * and a value above 100, such as 150, is rejected with the probability message.
   */
  lemma ProbabilityBoundsInclusive(r: AnalysisRequest, p: real)
    requires Valid(r)
    ensures Valid(r.(fields := r.fields.(probability := Some(p)))) <==> 0.0 <= p <= 100.0
    ensures p > 100.0 ==>
              var bad := r.(fields := r.fields.(probability := Some(p)));
              "probability" in FieldErrors(bad) &&
              FieldErrors(bad)["probability"] == "Probability must be between 0 and 100"
  {
    var bad := r.(fields := r.fields.(probability := Some(p)));
    if p > 100.0 {
      assert Violation(bad, Probability) == Some("Probability must be between 0 and 100");
      assert Probability in AllFields && Probability.Name() == "probability";
    }
  }

  /** Each model metric is accepted when absent, or present within [0, 1] inclusive. */
  lemma MetricBoundsInclusive(r: AnalysisRequest, m: real)
    requires Valid(r)
    ensures Valid(r.(fields := r.fields.(accuracy := Some(m)))) <==> 0.0 <= m <= 1.0
    ensures Valid(r.(fields := r.fields.(f1Score := Some(m)))) <==> 0.0 <= m <= 1.0
    ensures Valid(r.(fields := r.fields.(precision := Some(m)))) <==> 0.0 <= m <= 1.0
    ensures Valid(r.(fields := r.fields.(recall := Some(m)))) <==> 0.0 <= m <= 1.0
    ensures Valid(r.(fields := r.fields.(falsePositiveRate := Some(m)))) <==> 0.0 <= m <= 1.0
  {
  }

  /** Dropping every metric and the chart data never makes a valid request invalid. */
  lemma OptionalFieldsNeverInvalidate(r: AnalysisRequest, chartData: Option<Json>)
    requires Valid(r)
    ensures Valid(AnalysisRequest(
                    r.fields.(accuracy := None, f1Score := None, precision := None,
                              recall := None, falsePositiveRate := None),
                    chartData))
  {
  }

  /**
   * Classification and confidence level are checked for presence only: any label,
   * the empty string included, is accepted.
   */
  lemma LabelsCheckedOnlyForPresence(r: AnalysisRequest, classification: string, confidenceLevel: string)
    requires Valid(r)
    ensures Valid(r.(fields := r.fields.(classification := Some(classification),
                                         confidenceLevel := Some(confidenceLevel))))
    ensures Valid(r.(fields := r.fields.(classification := Some(""), confidenceLevel := Some(""))))
  {
  }

  /** The five physical inputs have no range constraint: any present values are accepted. */
  lemma PhysicalFieldsUnconstrained(r: AnalysisRequest, period: real, duration: real,
                                    depth: real, snr: real, radius: real)
    requires Valid(r)
    ensures Valid(r.(fields := r.fields.(orbitalPeriod := Some(period), transitDuration := Some(duration),
                                         transitDepth := Some(depth), snr := Some(snr),
                                         planetRadius := Some(radius))))
  {
  }
}
