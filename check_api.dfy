/** The check API values the check plugins produce: the monitoring state of
    a result and the result itself (`State` and `Result` of the agent-based
    check API). */
module CheckApi {

  /** A monitoring state; its integer is what the monitoring core receives. */
  datatype State = OK | WARN | CRIT | UNKNOWN
  {
    function Int(): (n: int)
      ensures 0 <= n <= 3
    {
      match this
      case OK => 0
      case WARN => 1
      case CRIT => 2
      case UNKNOWN => 3
    }
  }

  /** One result of a check function: a state, the one-line summary and the
      long-output details. */
  datatype CheckFunctionResult = CheckFunctionResult(state: State, summary: string, details: string)

  /** `Result(state=..., summary=...)`: the summary doubles as the details. */
  function SummaryResult(state: State, summary: string): CheckFunctionResult
  {
    CheckFunctionResult(state, summary, summary)
  }

  /** `Result(state=..., notice=...)`: shown only in the details. */
  function NoticeResult(state: State, notice: string): CheckFunctionResult
  {
    CheckFunctionResult(state, "", notice)
  }

  /** A performance-data point passed through from the check function. */
  datatype Metric = Metric(name: string, value: real)

  /** One item a check function yields: a result or a metric. */
  datatype CheckItem = ResultItem(result: CheckFunctionResult) | MetricItem(metric: Metric)
}
