/** The Graylog index failures check: failures reported by Graylog, each with
    a timestamp, an index and a message that is either a structured failure
    message (JSON inside the JSON of the section) or plain text; their
    human-readable rendering; discovery; and the check itself.

    Decoding a message (`json.loads` followed by pydantic's `parse_obj`) is
    a parameter `decode`; `check_levels` and `render.timespan` are
    parameters `checkLevels` and `timespan`. */
module GraylogFailures {
  import opened Wrappers
  import opened Strings
  import opened Collections
  import opened CheckApi

  /** `FailureMessage`: a type and a reason, each optional. */
  datatype FailureMessage = FailureMessage(type_: Option<string>, reason: Option<string>)

  /** The message of a failure after construction. */
  datatype Message = NoMessage | Plain(text: string) | Structured(structured: FailureMessage)

  /** The message as handed to the constructor. */
  datatype RawMessage = RawNone | RawText(text: string) | RawStructured(structured: FailureMessage)

  /** What decoding a text message comes to: not JSON at all, JSON that
      parses as a failure message, or JSON that does not (pydantic raises a
      validation error). */
  datatype Decoded = NotJson | Parsed(message: FailureMessage) | Invalid

  datatype Failure = Failure(timestamp: Option<string>, index: Option<string>, message: Message)

  /** The exception `Failure(...)` raises for JSON that is no failure message. */
  datatype ValidationError = ValidationError

  /** `Failure.__init__`: a text message is replaced by the failure message
      it decodes to; text that is not JSON stays as it is. */
  function MakeFailure(timestamp: Option<string>, index: Option<string>, message: RawMessage,
                       decode: string -> Decoded): (r: Result<Failure, ValidationError>)
    ensures r.Ok? ==> r.value.timestamp == timestamp && r.value.index == index
    ensures message.RawNone? ==> r == Ok(Failure(timestamp, index, NoMessage))
    ensures message.RawStructured? ==> r == Ok(Failure(timestamp, index, Structured(message.structured)))
    ensures message.RawText? ==>
      match decode(message.text)
      case NotJson => r == Ok(Failure(timestamp, index, Plain(message.text)))
      case Parsed(m) => r == Ok(Failure(timestamp, index, Structured(m)))
      case Invalid => r.Err?
  {
    match message
    case RawNone => Ok(Failure(timestamp, index, NoMessage))
    case RawStructured(m) => Ok(Failure(timestamp, index, Structured(m)))
    case RawText(s) =>
      match decode(s)
      case NotJson => Ok(Failure(timestamp, index, Plain(s)))
      case Parsed(m) => Ok(Failure(timestamp, index, Structured(m)))
      case Invalid => Err(ValidationError)
  }

  /** A "Title: value" line for a field that is set, nothing otherwise;
      `title` ends with its colon. */
  function FieldLine(title: string, value: Option<string>): seq<string>
  {
    if value.Some? then [title + value.value] else []
  }

  /** `FailureMessage.to_human_readable` */
  function MessageLines(m: FailureMessage): (r: seq<string>)
    ensures |r| == (if m.type_.Some? then 1 else 0) + (if m.reason.Some? then 1 else 0)
    ensures m.type_.Some? ==> r[0] == "Type: " + m.type_.value
    ensures m.reason.Some? ==> r[|r| - 1] == "Reason: " + m.reason.value
  {
    FieldLine("Type: ", m.type_) + FieldLine("Reason: ", m.reason)
  }

  /** `Failure.to_human_readable`: the text fields as "Title: value" lines
      in field order, a structured message expanded into its own lines. */
  function FailureLines(f: Failure): seq<string>
  {
    FieldLine("Timestamp: ", f.timestamp) + FieldLine("Index: ", f.index)
      + match f.message
        case NoMessage => []
        case Plain(s) => ["Message: " + s]
        case Structured(m) => MessageLines(m)
  }

  /** Every rendered line names its field, so none is empty. */
  lemma FailureLinesNonEmpty(f: Failure)
    ensures forall i :: 0 <= i < |FailureLines(f)| ==> |FailureLines(f)[i]| > 0
  {
  }

  /** A failure renders to lines exactly for the fields that are set. */
  lemma FailureLinesCount(f: Failure)
    ensures |FailureLines(f)| ==
      (if f.timestamp.Some? then 1 else 0) + (if f.index.Some? then 1 else 0)
      + match f.message
        case NoMessage => 0
        case Plain(_) => 1
        case Structured(m) => |MessageLines(m)|
  {
  }

  /** `", ".join(failure.to_human_readable())` */
  function Rendering(f: Failure): string
  {
    Join(", ", FailureLines(f))
  }

  lemma {:induction false} JoinNonEmpty(sep: string, parts: seq<string>)
    requires |parts| > 0 && |parts[0]| > 0
    ensures Join(sep, parts) != ""
  {
    if |parts| > 1 {
      assert |Join(sep, parts)| >= |parts[0]|;
    }
  }

  /** A failure renders as nothing exactly when it has no timestamp, no index
      and no message, or only a structured message without type and reason. */
  lemma RenderingEmpty(f: Failure)
    ensures Rendering(f) == "" <==>
      f.timestamp.None? && f.index.None?
      && (f.message.NoMessage? || f.message == Structured(FailureMessage(None, None)))
  {
    FailureLinesNonEmpty(f);
    if FailureLines(f) != [] {
      JoinNonEmpty(", ", FailureLines(f));
    }
  }

  /** A failure with a plain message, timestamp and index renders as the
      three fields in order. */
  lemma RenderingPlain(timestamp: string, index: string, text: string)
    ensures Rendering(Failure(Some(timestamp), Some(index), Plain(text)))
      == "Timestamp: " + timestamp + ", Index: " + index + ", Message: " + text
  {
    var lines := FailureLines(Failure(Some(timestamp), Some(index), Plain(text)));
    assert FieldLine("Timestamp: ", Some(timestamp)) == ["Timestamp: " + timestamp];
    assert FieldLine("Index: ", Some(index)) == ["Index: " + index];
    assert lines == ["Timestamp: " + timestamp, "Index: " + index, "Message: " + text];
    assert lines[1..] == ["Index: " + index, "Message: " + text];
    assert lines[1..][1..] == ["Message: " + text];
    assert Join(", ", lines[1..]) == "Index: " + index + ", " + "Message: " + text;
    assert ", " + "Index: " == ", Index: ";
    assert ", " + "Message: " == ", Message: ";
  }

  /** The order `sorted` uses on optional strings. Python cannot compare
      `None` with a string; placing `None` first only makes this a total
      order and is never used on comparable keys. */
  function OptLt(a: Option<string>, b: Option<string>): bool
  {
    (a.None? && b.Some?) || (a.Some? && b.Some? && StrLt(a.value, b.value))
  }

  /** Python compares two optional strings only when they are equal or both
      strings. */
  predicate OptComparable(a: Option<string>, b: Option<string>)
  {
    a == b || (a.Some? && b.Some?)
  }

  /** The sort key `(timestamp, index)` in Python's tuple order. */
  function KeyLt(f: Failure, g: Failure): bool
  {
    OptLt(f.timestamp, g.timestamp) || (f.timestamp == g.timestamp && OptLt(f.index, g.index))
  }

  /** Comparing the keys of `f` and `g` raises no `TypeError`: the first
      components that differ are both strings. */
  predicate KeysComparable(f: Failure, g: Failure)
  {
    if f.timestamp != g.timestamp then OptComparable(f.timestamp, g.timestamp)
    else OptComparable(f.index, g.index)
  }

  predicate AllComparable(fs: seq<Failure>)
  {
    forall i, j :: 0 <= i < |fs| && 0 <= j < |fs| ==> KeysComparable(fs[i], fs[j])
  }

  lemma KeyLtOrder()
    ensures StrictOrder(KeyLt)
  {
    StrLtOrder();
    forall f: Failure ensures !KeyLt(f, f) {}
    forall f: Failure, g: Failure, h: Failure | KeyLt(f, g) && KeyLt(g, h) ensures KeyLt(f, h) {
      if f.timestamp.Some? && g.timestamp.Some? && h.timestamp.Some? {
        if StrLt(f.timestamp.value, g.timestamp.value) && StrLt(g.timestamp.value, h.timestamp.value) {
          StrLtTransitive(f.timestamp.value, g.timestamp.value, h.timestamp.value);
        }
      }
      if f.timestamp == g.timestamp == h.timestamp && f.index.Some? && g.index.Some? && h.index.Some? {
        if StrLt(f.index.value, g.index.value) && StrLt(g.index.value, h.index.value) {
          StrLtTransitive(f.index.value, g.index.value, h.index.value);
        }
      }
    }
  }

  /** The failures sorted by `(timestamp, index)`, stably. */
  function SortedFailures(fs: seq<Failure>): (r: seq<Failure>)
    ensures multiset(r) == multiset(fs)
    ensures Sorted(KeyLt, r)
  {
    KeyLtOrder();
    InsertionSortSorted(KeyLt, fs);
    InsertionSort(KeyLt, fs)
  }

  /** The failures whose sort key is `(timestamp, index)`. */
  function KeyIs(timestamp: Option<string>, index: Option<string>): Failure -> bool
  {
    (f: Failure) => f.timestamp == timestamp && f.index == index
  }

  /** The sort is stable, as Python's `sorted` is: failures with equal
      `(timestamp, index)` keep their order. */
  lemma SortedFailuresStable(fs: seq<Failure>, timestamp: Option<string>, index: Option<string>)
    ensures Filter(SortedFailures(fs), KeyIs(timestamp, index)) == Filter(fs, KeyIs(timestamp, index))
  {
    KeyLtOrder();
    StrLtOrder();
    InsertionSortStable(KeyLt, KeyIs(timestamp, index), fs);
  }

  /** The non-empty renderings, in order. */
  function NonEmptyRenderings(fs: seq<Failure>): (r: seq<string>)
    ensures |r| <= |fs|
    ensures forall d :: d in r ==> d != "" && exists f :: f in fs && Rendering(f) == d
    ensures forall f :: f in fs && Rendering(f) != "" ==> Rendering(f) in r
  {
    if |fs| == 0 then []
    else
      var rest := NonEmptyRenderings(fs[1..]);
      assert forall f :: f in fs[1..] ==> f in fs;
      assert forall f :: f in fs ==> f == fs[0] || f in fs[1..];
      (if Rendering(fs[0]) != "" then [Rendering(fs[0])] else []) + rest
  }

  /** The number of distinct indices that are set. */
  function IndexCount(fs: seq<Failure>): nat
  {
    |set i | 0 <= i < |fs| && fs[i].index.Some? :: fs[i].index.value|
  }

  /** `_failure_results`: nothing when no failure renders to anything;
      otherwise a summary with the number of affected indices and a notice
      with the renderings, sorted by `(timestamp, index)`, one per line. */
  function FailureResults(fs: seq<Failure>): (r: seq<CheckFunctionResult>)
    requires AllComparable(fs)
    ensures r == [] <==> forall f :: f in fs ==> Rendering(f) == ""
    ensures r != [] ==> (|r| == 2
      && r[0] == SummaryResult(OK, "Affected indices: " + NatToString(IndexCount(fs))
                                   + ", see service details for further information")
      && r[1] == NoticeResult(OK, Join("\n", NonEmptyRenderings(SortedFailures(fs)))))
  {
    var details := NonEmptyRenderings(SortedFailures(fs));
    assert forall f :: f in fs <==> f in SortedFailures(fs) by {
      assert forall f :: f in fs <==> f in multiset(fs);
    }
    if details == [] then []
    else
      assert details[0] in details;
      [SummaryResult(OK, "Affected indices: " + NatToString(IndexCount(fs))
                         + ", see service details for further information"),
       NoticeResult(OK, Join("\n", details))]
  }

  /** The index count never exceeds the number of failures, and failures
      that all name the same index count it once. */
  lemma IndexCountBounds(fs: seq<Failure>, index: string)
    ensures IndexCount(fs) <= |fs|
    ensures |fs| > 0 && (forall i :: 0 <= i < |fs| ==> fs[i].index == Some(index)) ==> IndexCount(fs) == 1
  {
    IndexCountAtMost(fs);
    var s := set i | 0 <= i < |fs| && fs[i].index.Some? :: fs[i].index.value;
    if |fs| > 0 && (forall i :: 0 <= i < |fs| ==> fs[i].index == Some(index)) {
      assert s == {index} by {
        assert fs[0].index.value in s;
      }
    }
  }

  lemma {:induction false} IndexCountAtMost(fs: seq<Failure>)
    ensures IndexCount(fs) <= |fs|
  {
    if |fs| > 0 {
      var init := fs[..|fs| - 1];
      IndexCountAtMost(init);
      var s := set i | 0 <= i < |fs| && fs[i].index.Some? :: fs[i].index.value;
      var s' := set i | 0 <= i < |init| && init[i].index.Some? :: init[i].index.value;
      var last := fs[|fs| - 1];
      var extra := if last.index.Some? then {last.index.value} else {};
      assert s <= s' + extra by {
        forall v | v in s ensures v in s' + extra {
          var i :| 0 <= i < |fs| && fs[i].index.Some? && fs[i].index.value == v;
          if i < |fs| - 1 { assert init[i] == fs[i]; }
        }
      }
      assert |s' + extra| <= |s'| + |extra|;
      SubsetCard(s, s' + extra);
    }
  }

  lemma SubsetCard(a: set<string>, b: set<string>)
    requires a <= b
    ensures |a| <= |b|
  {
    assert b == a + (b - a);
  }

  /** The section: the failures, the total number of failures, the number
      of failures in the observed period and that period's length. */
  datatype Section = Section(failures: Option<seq<Failure>>, total: Option<int>, count: Option<int>, dsParamSince: real)

  /** `discover`: one service (without item) when failures are reported. */
  function Discover(section: Section): (r: nat)
    ensures r == 1 <==> section.failures.Some?
    ensures r == 0 <==> section.failures.None?
  {
    if section.failures.None? then 0 else 1
  }

  /** `params.get(key)`: no levels when the key is missing. */
  function Levels(params: map<string, Option<(int, int)>>, key: string): Option<(int, int)>
  {
    if key in params then params[key] else None
  }

  /** `check_levels(value, levels_upper, metric_name, label)`. */
  type CheckLevels = (int, Option<(int, int)>, Option<string>, string) -> seq<CheckItem>

  function Wrap(rs: seq<CheckFunctionResult>): seq<CheckItem>
  {
    seq(|rs|, i requires 0 <= i < |rs| => ResultItem(rs[i]))
  }

  /** What `check` yields for the total: the levels on the total under
      the "failures" parameter, with the "failures" metric. */
  function TotalLevels(params: map<string, Option<(int, int)>>, total: int, checkLevels: CheckLevels): seq<CheckItem>
  {
    checkLevels(total, Levels(params, "failures"), Some("failures"), "Total number of failures")
  }

  /** What `check` yields for the count of the observed period: the levels
      under the "failures_last" parameter, without a metric. */
  function CountLevels(params: map<string, Option<(int, int)>>, count: int, since: real,
                       checkLevels: CheckLevels, timespan: real -> string): seq<CheckItem>
  {
    checkLevels(count, Levels(params, "failures_last"), None, "Failures in last " + timespan(since))
  }

  /** The sort inside `_failure_results` is reached only with a non-zero
      count, and only then must the keys be comparable. */
  predicate ReachesSort(section: Section)
  {
    section.failures.Some? && section.total.Some? && section.count.Some? && section.count.value != 0
  }

  /** `check` */
  function Check(params: map<string, Option<(int, int)>>, section: Section,
                 checkLevels: CheckLevels, timespan: real -> string): (r: seq<CheckItem>)
    requires ReachesSort(section) ==> AllComparable(section.failures.value)
    ensures section.failures.None? || section.total.None? ==> r == []
    ensures section.failures.Some? && section.total.Some? && section.count.None? ==>
      r == TotalLevels(params, section.total.value, checkLevels)
    ensures section.failures.Some? && section.total.Some? && section.count == Some(0) ==>
      r == TotalLevels(params, section.total.value, checkLevels)
           + CountLevels(params, 0, section.dsParamSince, checkLevels, timespan)
    ensures ReachesSort(section) ==>
      r == TotalLevels(params, section.total.value, checkLevels)
           + CountLevels(params, section.count.value, section.dsParamSince, checkLevels, timespan)
           + Wrap(FailureResults(section.failures.value))
  {
    if section.failures.None? || section.total.None? then []
    else
      var totalItems := TotalLevels(params, section.total.value, checkLevels);
      if section.count.None? then totalItems
      else
        var countItems := CountLevels(params, section.count.value, section.dsParamSince, checkLevels, timespan);
        if section.count.value == 0 then totalItems + countItems
        else totalItems + countItems + Wrap(FailureResults(section.failures.value))
  }
}
