/**
 * The analysis record: the mutable JPA entity and the row the table holds for it.
 */
module Entity {
  import opened Wrappers
  import opened Fields

  /** LocalDateTime, as an ordered instant; the clock itself is a parameter. */
  type Timestamp = int

  /**
   * A persisted record as the table holds it: the database-generated id, the data
   * fields, the chart-data TEXT column kept verbatim (null when absent), and the
   * non-null, write-once creation time.
   */
  datatype Row = Row(id: int, fields: AnalysisFields, chartData: Option<string>, createdAt: Timestamp)

  /**
   * The entity object the service builds and hands to the store. Before it is
   * persisted its id and creation time are null; persisting sets both in place.
   */
  class ExoplanetAnalysis {
    var id: Option<int>
    var fields: AnalysisFields
    var chartData: Option<string>
    var createdAt: Option<Timestamp>

    /** The builder: data fields and chart-data text set, id and creation time left null. */
    constructor (fields: AnalysisFields, chartData: Option<string>)
      ensures this.fields == fields && this.chartData == chartData
      ensures id.None? && createdAt.None?
    {
      this.id := None;
      this.fields := fields;
      this.chartData := chartData;
      this.createdAt := None;
    }

    /** The @PrePersist callback: stamps the creation time and touches nothing else. */
    method OnCreate(now: Timestamp)
      modifies this`createdAt
      ensures createdAt == Some(now)
    {
      createdAt := Some(now);
    }

    predicate Persisted()
      reads this
    {
      id.Some? && createdAt.Some?
    }

    /** The row this entity reads back as once it is persisted. */
    function AsRow(): (r: Row)
      reads this
      requires Persisted()
      ensures Some(r.id) == id && Some(r.createdAt) == createdAt
      ensures r.fields == fields && r.chartData == chartData
    {
      Row(id.value, fields, chartData, createdAt.value)
    }
  }
}
