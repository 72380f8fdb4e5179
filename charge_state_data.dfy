/**
 * The API response and the per-charge-state series the success handler pulls
 * out of it: entry i of the dataset is the response field named "<i>+".
 */
module ChargeStateData {
  import opened Wrappers
  import opened Labels

  /** The decoded JSON reply: number_of_ch_states, labels, and every other field by name. */
  datatype Response = Response(numberOfChStates: int, labels: seq<real>, fields: map<string, seq<real>>)

  /** How many series the handler's loop `for (i = 0; i < n; i++)` reads. */
  function SeriesCount(n: int): nat {
    if n > 0 then n else 0
  }

  /** `result[i + '+']`: the field's values, or None when the reply has no such field. */
  function FieldFor(result: Response, i: nat): Option<seq<real>> {
    if Label(i) in result.fields then Some(result.fields[Label(i)]) else None
  }

  /** data_from_API as the success handler leaves it. */
  function Dataset(result: Response): seq<Option<seq<real>>> {
    seq(SeriesCount(result.numberOfChStates), i requires 0 <= i => FieldFor(result, i))
  }

  /** The Bokeh data source the handler hands to the re-render: x holds the labels, column i series i. */
  datatype DataSource = DataSource(x: seq<real>, columns: map<int, Option<seq<real>>>)

  /**
   * The dataset has one entry per charge state, entry i is the reply's "<i>+"
   * field, and it is present whenever the reply carries that field.
   */
  lemma DatasetEntries(result: Response)
    ensures |Dataset(result)| == SeriesCount(result.numberOfChStates)
    ensures result.numberOfChStates <= 0 ==> Dataset(result) == []
    ensures forall i :: 0 <= i < |Dataset(result)| ==>
      (Dataset(result)[i].Some? <==> Label(i) in result.fields) &&
      (Dataset(result)[i].Some? ==> Dataset(result)[i].value == result.fields[Label(i)])
  {}

  /** The reply with two charge states: the dataset has two series and series 1 is the "1+" field. */
  lemma TwoStateReply()
    ensures var result := Response(2, [1.0, 2.0, 3.0], map["0+" := [0.1, 0.2, 0.3], "1+" := [0.4, 0.5, 0.6]]);
      |Dataset(result)| == 2 &&
      Dataset(result)[0] == Some([0.1, 0.2, 0.3]) &&
      Dataset(result)[1] == Some([0.4, 0.5, 0.6])
  {
    assert Label(0) == "0+";
    assert Label(1) == "1+";
  }
}
