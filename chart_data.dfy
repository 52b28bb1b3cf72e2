/**
 * The chart-data payload and the JSON codec the service uses for it.
 *
 * Jackson's ObjectMapper is a foreign library: it is modelled as an abstract codec,
 * a pair of total functions chosen by the caller. Its one assumed law, that reading back
 * what was written gives the same document, is the predicate RoundTrips, which the
 * lemmas that need it take as a precondition.
 */
module ChartData {
  import opened Wrappers

  /** An open-ended JSON document, opaque to the service. */
  datatype Json =
    | JNull
    | JBool(b: bool)
    | JNumber(n: real)
    | JString(s: string)
    | JArray(items: seq<Json>)
    | JObject(members: seq<(string, Json)>)

  /**
   * The ObjectMapper: `encode` is writeValueAsString (which may throw
   * JsonProcessingException, carried as Failure with its message) and `decode` is
   * readTree (None when the text does not parse).
   */
  datatype Codec = Codec(encode: Json -> Result<string, string>, decode: string -> Option<Json>)

  /** The assumed codec law: every document that encodes is read back unchanged. */
  ghost predicate RoundTrips(codec: Codec) {
    forall j :: codec.encode(j).Success? ==> codec.decode(codec.encode(j).value) == Some(j)
  }

  /**
   * The save path: absent chart data is stored as a null column; present chart data is
   * stored as its encoding, and an encoding failure is reported instead of a value.
   */
  function EncodeChartData(codec: Codec, chartData: Option<Json>): (r: Result<Option<string>, string>)
    ensures chartData.None? ==> r == Success(None)
    ensures chartData.Some? && codec.encode(chartData.value).Success? ==>
              r == Success(Some(codec.encode(chartData.value).value))
    ensures chartData.Some? && codec.encode(chartData.value).Failure? ==> r.Failure?
  {
    match chartData
    case None => Success(None)
    case Some(j) =>
      match codec.encode(j)
      case Success(text) => Success(Some(text))
      case Failure(message) => Failure(message)
  }

  /**
   * The read path: a null column reads as absent chart data, and so does text the codec
   * cannot parse; decoding never fails.
   */
  function DecodeChartData(codec: Codec, stored: Option<string>): (r: Option<Json>)
    ensures stored.None? ==> r.None?
    ensures stored.Some? ==> r == codec.decode(stored.value)
  {
    match stored
    case None => None
    case Some(text) => codec.decode(text)
  }

  /** Under the codec law, what the save path stores, the read path gives back. */
  lemma ChartDataRoundTrip(codec: Codec, chartData: Option<Json>)
    requires RoundTrips(codec)
    requires EncodeChartData(codec, chartData).Success?
    ensures DecodeChartData(codec, EncodeChartData(codec, chartData).value) == chartData
  {
    if chartData.Some? {
      var j := chartData.value;
      assert codec.decode(codec.encode(j).value) == Some(j);
    }
  }

  /** Stored text the codec rejects reads back as absent chart data, not as an error. */
  lemma CorruptChartDataReadsAbsent(codec: Codec, text: string)
    requires codec.decode(text).None?
    ensures DecodeChartData(codec, Some(text)) == None
  {
  }
}
