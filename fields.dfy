/**
 * The thirteen data fields an analysis record carries from request to entity to
 * response. Every field is a boxed `Double` or a `String` in the source, so every one
 * may be null (None); the request's validation constraints are what exclude nulls.
 */
module Fields {
  import opened Wrappers

  datatype AnalysisFields = AnalysisFields(
    orbitalPeriod: Option<real>,      // days
    transitDuration: Option<real>,    // hours
    transitDepth: Option<real>,       // percentage
    snr: Option<real>,                // signal-to-noise ratio
    planetRadius: Option<real>,       // Earth radii
    probability: Option<real>,        // exoplanet probability, percent
    accuracy: Option<real>,
    f1Score: Option<real>,
    precision: Option<real>,
    recall: Option<real>,
    falsePositiveRate: Option<real>,
    classification: Option<string>,
    confidenceLevel: Option<string>)
}
