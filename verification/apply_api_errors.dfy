/**
 * `applyApiErrorsToForm`: copies the first backend error of every field of
 * an error response into a react-hook-form form, one `setError` call per
 * field, the `_global` field going to the form's `root`.
 */
module ApplyApiErrors {
  import opened Js

  /** One `setError(target, {type, message})` call. */
  datatype SetErrorCall = SetErrorCall(target: string, errorType: string, message: JsValue)

  /** How a call ended: it returned a boolean after making `calls`, or threw before making any. */
  datatype ApplyOutcome = Returned(handled: bool, calls: seq<SetErrorCall>) | Threw

  /** Where a backend field's error is shown in the form. */
  function Target(field: string): (r: string)
    ensures field == "_global" ==> r == "root"
    ensures field != "_global" ==> r == field
  {
    if field == "_global" then "root" else field
  }

  /** A field is reported when its value is an array whose first element is truthy. */
  predicate Reported(value: JsValue)
  {
    value.Arr? && |value.elems| > 0 && Truthy(value.elems[0])
  }

  /** The call made for a reported field: its first error, as the message of a "server" error. */
  function CallFor(entry: (string, JsValue)): SetErrorCall
    requires Reported(entry.1)
  {
    SetErrorCall(Target(entry.0), "server", entry.1.elems[0])
  }

  /** The calls made for a list of entries, in entry order, skipping the unreported ones. */
  function ExpectedCalls(entries: seq<(string, JsValue)>): (calls: seq<SetErrorCall>)
    ensures |calls| <= |entries|
    ensures forall k :: 0 <= k < |calls| ==> calls[k].errorType == "server"
  {
    if entries == [] then []
    else
      var last := entries[|entries| - 1];
      ExpectedCalls(entries[..|entries| - 1]) + (if Reported(last.1) then [CallFor(last)] else [])
  }

  /** The guard: an object with an `errors` property whose `typeof` is "object" (which `null` passes). */
  predicate HasErrorsObject(err: JsValue)
  {
    TypeOf(err) == "object" && err != Null && HasKey(err, "errors")
    && TypeOf(Lookup(err.props, "errors")) == "object"
  }

  /**
   * `applyApiErrorsToForm(err, setError)`. Without an `errors` object it
   * returns false and calls nothing; with `errors: null` it throws in
   * `Object.entries`; otherwise it reports every field, in order, and
   * returns true.
   */
  method ApplyApiErrorsToForm(err: JsValue) returns (outcome: ApplyOutcome)
    ensures !HasErrorsObject(err) ==> outcome == Returned(false, [])
    ensures HasErrorsObject(err) && Lookup(err.props, "errors") == Null ==> outcome == Threw
    ensures HasErrorsObject(err) && Lookup(err.props, "errors") != Null ==>
              outcome == Returned(true, ExpectedCalls(Entries(Lookup(err.props, "errors"))))
  {
    if !(TypeOf(err) == "object" && err != Null && HasKey(err, "errors")
         && TypeOf(Lookup(err.props, "errors")) == "object") {
      return Returned(false, []);
    }
    var apiErrors := Lookup(err.props, "errors");
    if apiErrors == Null {
      return Threw;
    }
    var entries := Entries(apiErrors);
    var calls := [];
    for k := 0 to |entries|
      invariant calls == ExpectedCalls(entries[..k])
    {
      assert entries[..k + 1][..k] == entries[..k];
      var (field, fieldErrors) := entries[k];
      if !(fieldErrors.Arr? && |fieldErrors.elems| > 0 && Truthy(fieldErrors.elems[0])) {
        continue;
      }
      var target := if field == "_global" then "root" else field;
      calls := calls + [SetErrorCall(target, "server", fieldErrors.elems[0])];
    }
    assert entries[..|entries|] == entries;
    return Returned(true, calls);
  }

  /** A call is made exactly for each reported entry, with that entry's target and first error. */
  lemma {:induction false} ExpectedCallsMembership(entries: seq<(string, JsValue)>, c: SetErrorCall)
    ensures c in ExpectedCalls(entries) <==>
              exists j :: 0 <= j < |entries| && Reported(entries[j].1) && CallFor(entries[j]) == c
  {
    if entries != [] {
      var n := |entries| - 1;
      var prefix := entries[..n];
      var last := entries[n];
      var tail := if Reported(last.1) then [CallFor(last)] else [];
      assert ExpectedCalls(entries) == ExpectedCalls(prefix) + tail;
      ExpectedCallsMembership(prefix, c);
      if c in ExpectedCalls(prefix) {
        var j :| 0 <= j < n && Reported(prefix[j].1) && CallFor(prefix[j]) == c;
        assert entries[j] == prefix[j];
      } else if c in tail {
        assert Reported(entries[n].1) && CallFor(entries[n]) == c;
      }
      if exists j :: 0 <= j < |entries| && Reported(entries[j].1) && CallFor(entries[j]) == c {
        var j :| 0 <= j < |entries| && Reported(entries[j].1) && CallFor(entries[j]) == c;
        if j < n {
          assert entries[j] == prefix[j];
        } else {
          assert c in tail;
        }
      }
    }
  }

  /** No two keys are sent to the same form field: distinct keys, and not both `_global` and `root`. */
  predicate TargetsDistinct(entries: seq<(string, JsValue)>)
  {
    forall i, j :: 0 <= i < j < |entries| ==> Target(entries[i].0) != Target(entries[j].0)
  }

  /**
   * When the keys of the errors object are distinct and it does not hold
   * both `_global` and `root`, every form field receives at most one
   * `setError` call.
   */
  lemma {:induction false} AtMostOneCallPerField(entries: seq<(string, JsValue)>)
    requires DistinctKeys(entries)
    requires forall i, j :: 0 <= i < |entries| && 0 <= j < |entries| && entries[i].0 == "_global" ==> entries[j].0 != "root"
    ensures forall k1, k2 :: 0 <= k1 < k2 < |ExpectedCalls(entries)| ==>
              ExpectedCalls(entries)[k1].target != ExpectedCalls(entries)[k2].target
  {
    assert TargetsDistinct(entries);
    DistinctCalls(entries);
  }

  /** The last entry's target differs from the target of every call made for the entries before it. */
  lemma LastTargetFresh(entries: seq<(string, JsValue)>)
    requires entries != [] && TargetsDistinct(entries)
    ensures var prefix := entries[..|entries| - 1];
            forall c :: c in ExpectedCalls(prefix) ==> c.target != Target(entries[|entries| - 1].0)
  {
    var n := |entries| - 1;
    var prefix := entries[..n];
    forall c | c in ExpectedCalls(prefix)
      ensures c.target != Target(entries[n].0)
    {
      ExpectedCallsMembership(prefix, c);
      var j :| 0 <= j < |prefix| && Reported(prefix[j].1) && CallFor(prefix[j]) == c;
      assert prefix[j] == entries[j];
    }
  }

  lemma {:induction false} DistinctCalls(entries: seq<(string, JsValue)>)
    requires TargetsDistinct(entries)
    ensures forall k1, k2 :: 0 <= k1 < k2 < |ExpectedCalls(entries)| ==>
              ExpectedCalls(entries)[k1].target != ExpectedCalls(entries)[k2].target
  {
    if entries != [] {
      var n := |entries| - 1;
      var last := entries[n];
      var prefix := entries[..n];
      assert TargetsDistinct(prefix);
      DistinctCalls(prefix);
      var before := ExpectedCalls(prefix);
      var calls := ExpectedCalls(entries);
      if !Reported(last.1) {
        assert calls == before;
      } else {
        LastTargetFresh(entries);
        assert calls == before + [CallFor(last)];
        forall k1, k2 | 0 <= k1 < k2 < |calls|
          ensures calls[k1].target != calls[k2].target
        {
          assert calls[k1] == before[k1];
          if k2 < |before| {
            assert calls[k2] == before[k2];
          } else {
            assert before[k1] in before;
          }
        }
      }
    }
  }
}
