/**
 * The advanced-options panel of the load-test form: three editable row lists
 * (HTTP headers, thresholds, environment variables) and a show/hide flag. Every
 * edit replaces the list and emits the new list to the parent, which is
 * modelled as the method's result.
 */
module AdvancedOptions {
  import opened Lists
  import opened LoadModels

  const EmptyKeyValue := KeyValue("", "")
  const EmptyThreshold := Threshold("", "")

  /** `updated[index] = {...updated[index], ...}` for an index inside the list. */
  function ReplaceRow<T>(rows: seq<T>, index: nat, row: T): (r: seq<T>)
    requires index < |rows|
    ensures |r| == |rows| && r[index] == row
    ensures forall j :: 0 <= j < |rows| && j != index ==> r[j] == rows[j]
  {
    rows[index := row]
  }

  class AdvancedOptionsComponent {
    var showAdvanced: bool
    var headers: seq<KeyValue>
    var thresholds: seq<Threshold>
    var environmentVariables: seq<KeyValue>

    constructor()
      ensures !showAdvanced && headers == [EmptyKeyValue] && thresholds == [EmptyThreshold]
      ensures environmentVariables == [EmptyKeyValue]
    {
      showAdvanced := false;
      headers := [EmptyKeyValue];
      thresholds := [EmptyThreshold];
      environmentVariables := [EmptyKeyValue];
    }

    method ToggleAdvanced()
      modifies this`showAdvanced
      ensures showAdvanced == !old(showAdvanced)
    {
      showAdvanced := !showAdvanced;
    }

    method AddHeader() returns (emitted: seq<KeyValue>)
      modifies this`headers
      ensures headers == old(headers) + [EmptyKeyValue] && emitted == headers
    {
      headers := headers + [EmptyKeyValue];
      emitted := headers;
    }

    method RemoveHeader(index: int) returns (emitted: seq<KeyValue>)
      modifies this`headers
      ensures headers == RemoveIndex(old(headers), index) && emitted == headers
    {
      headers := RemoveIndex(headers, index);
      emitted := headers;
    }

    /**
     * The update methods write row `index` only when it names an element: a
     * negative index names none in JavaScript, so the rows stay as they were.
     */
    method UpdateHeaderKey(index: int, value: string) returns (emitted: seq<KeyValue>)
      requires index < |headers|
      modifies this`headers
      ensures |headers| == |old(headers)| && emitted == headers
      ensures 0 <= index ==> headers[index] == KeyValue(value, old(headers)[index].value)
      ensures forall j :: 0 <= j < |headers| && j != index ==> headers[j] == old(headers)[j]
    {
      if 0 <= index {
        headers := ReplaceRow(headers, index, headers[index].(key := value));
      }
      emitted := headers;
    }

    method UpdateHeaderValue(index: int, value: string) returns (emitted: seq<KeyValue>)
      requires index < |headers|
      modifies this`headers
      ensures |headers| == |old(headers)| && emitted == headers
      ensures 0 <= index ==> headers[index] == KeyValue(old(headers)[index].key, value)
      ensures forall j :: 0 <= j < |headers| && j != index ==> headers[j] == old(headers)[j]
    {
      if 0 <= index {
        headers := ReplaceRow(headers, index, headers[index].(value := value));
      }
      emitted := headers;
    }

    method AddThreshold() returns (emitted: seq<Threshold>)
      modifies this`thresholds
      ensures thresholds == old(thresholds) + [EmptyThreshold] && emitted == thresholds
    {
      thresholds := thresholds + [EmptyThreshold];
      emitted := thresholds;
    }

    method RemoveThreshold(index: int) returns (emitted: seq<Threshold>)
      modifies this`thresholds
      ensures thresholds == RemoveIndex(old(thresholds), index) && emitted == thresholds
    {
      thresholds := RemoveIndex(thresholds, index);
      emitted := thresholds;
    }

    method UpdateThresholdMetric(index: int, value: string) returns (emitted: seq<Threshold>)
      requires index < |thresholds|
      modifies this`thresholds
      ensures |thresholds| == |old(thresholds)| && emitted == thresholds
      ensures 0 <= index ==> thresholds[index] == Threshold(value, old(thresholds)[index].condition)
      ensures forall j :: 0 <= j < |thresholds| && j != index ==> thresholds[j] == old(thresholds)[j]
    {
      if 0 <= index {
        thresholds := ReplaceRow(thresholds, index, thresholds[index].(metric := value));
      }
      emitted := thresholds;
    }

    method UpdateThresholdCondition(index: int, value: string) returns (emitted: seq<Threshold>)
      requires index < |thresholds|
      modifies this`thresholds
      ensures |thresholds| == |old(thresholds)| && emitted == thresholds
      ensures 0 <= index ==> thresholds[index] == Threshold(old(thresholds)[index].metric, value)
      ensures forall j :: 0 <= j < |thresholds| && j != index ==> thresholds[j] == old(thresholds)[j]
    {
      if 0 <= index {
        thresholds := ReplaceRow(thresholds, index, thresholds[index].(condition := value));
      }
      emitted := thresholds;
    }

    method AddEnvironmentVariable() returns (emitted: seq<KeyValue>)
      modifies this`environmentVariables
      ensures environmentVariables == old(environmentVariables) + [EmptyKeyValue] && emitted == environmentVariables
    {
      environmentVariables := environmentVariables + [EmptyKeyValue];
      emitted := environmentVariables;
    }

    method RemoveEnvironmentVariable(index: int) returns (emitted: seq<KeyValue>)
      modifies this`environmentVariables
      ensures environmentVariables == RemoveIndex(old(environmentVariables), index) && emitted == environmentVariables
    {
      environmentVariables := RemoveIndex(environmentVariables, index);
      emitted := environmentVariables;
    }

    method UpdateEnvVarKey(index: int, value: string) returns (emitted: seq<KeyValue>)
      requires index < |environmentVariables|
      modifies this`environmentVariables
      ensures |environmentVariables| == |old(environmentVariables)| && emitted == environmentVariables
      ensures 0 <= index ==> environmentVariables[index] == KeyValue(value, old(environmentVariables)[index].value)
      ensures forall j :: 0 <= j < |environmentVariables| && j != index ==> environmentVariables[j] == old(environmentVariables)[j]
    {
      if 0 <= index {
        environmentVariables := ReplaceRow(environmentVariables, index, environmentVariables[index].(key := value));
      }
      emitted := environmentVariables;
    }

    method UpdateEnvVarValue(index: int, value: string) returns (emitted: seq<KeyValue>)
      requires index < |environmentVariables|
      modifies this`environmentVariables
      ensures |environmentVariables| == |old(environmentVariables)| && emitted == environmentVariables
      ensures 0 <= index ==> environmentVariables[index] == KeyValue(old(environmentVariables)[index].key, value)
      ensures forall j :: 0 <= j < |environmentVariables| && j != index ==> environmentVariables[j] == old(environmentVariables)[j]
    {
      if 0 <= index {
        environmentVariables := ReplaceRow(environmentVariables, index, environmentVariables[index].(value := value));
      }
      emitted := environmentVariables;
    }
  }

  /** Adding a row and removing it again gives the list back. */
  lemma AddThenRemoveLast<T>(rows: seq<T>, row: T)
    ensures RemoveIndex(rows + [row], |rows|) == rows
  {
    assert (rows + [row])[..|rows|] == rows;
  }

  /** Replacing a row by itself changes nothing, and a second replacement at the same place overrides the first. */
  lemma ReplaceRowLaws<T>(rows: seq<T>, index: nat, a: T, b: T)
    requires index < |rows|
    ensures ReplaceRow(rows, index, rows[index]) == rows
    ensures ReplaceRow(ReplaceRow(rows, index, a), index, b) == ReplaceRow(rows, index, b)
  {
  }
}
