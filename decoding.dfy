/** Deserialising what a cache read returned, as both services do:
    a nil value or a value that is not a serialised entity raises. */
module Decoding {
  import opened Wrappers

  /** Why a query raises instead of returning: the upstream fetch gave no
      data, a key held nil (`DeserializeObject(null)` throws), or a value
      was not a serialised entity. */
  datatype Fault = UpstreamUnavailable | MissingValue | MalformedValue

  /** `Select(v => JsonConvert.DeserializeObject<T>(v))`, enumerated to the
      end: it succeeds when every value is present and decodes, with one
      entity per value in order, and otherwise raises for the first value
      that does not. */
  function DecodeEach<T>(values: seq<Option<string>>, decode: string -> Option<T>)
    : (r: Result<seq<T>, Fault>)
    ensures r.Success? <==> forall k :: 0 <= k < |values| ==> values[k].Some? && decode(values[k].value).Some?
    ensures r.Success? ==>
      && |r.value| == |values|
      && forall k :: 0 <= k < |values| ==> decode(values[k].value) == Some(r.value[k])
    ensures r.Failure? ==>
      exists k :: && 0 <= k < |values|
                  && (forall j :: 0 <= j < k ==> values[j].Some? && decode(values[j].value).Some?)
                  && r.error == (if values[k].None? then MissingValue else MalformedValue)
    decreases |values|
  {
    if values == [] then Success([])
    else if values[0].None? then Failure(MissingValue)
    else match decode(values[0].value)
      case None => Failure(MalformedValue)
      case Some(x) =>
        match DecodeEach(values[1..], decode)
        case Failure(e) => Failure(e)
        case Success(xs) => Success([x] + xs)
  }

  /** Decoding one value at a time stops at the first value that is missing
      or malformed, with the fault `DecodeEach` gives the whole sequence. */
  lemma {:induction false} DecodeEachStops<T>(values: seq<Option<string>>, decode: string -> Option<T>, k: nat, xs: seq<T>)
    requires k < |values| && DecodeEach(values[..k], decode) == Success(xs)
    requires values[k].None? || decode(values[k].value).None?
    ensures DecodeEach(values, decode) == Failure(if values[k].None? then MissingValue else MalformedValue)
    decreases k
  {
    if k > 0 {
      assert values[..k][0] == values[0];
      assert values[..k][1..] == values[1..][..k - 1];
      DecodeEachStops(values[1..], decode, k - 1, xs[1..]);
    }
  }

  /** A value that decodes extends the decoded prefix by its entity. */
  lemma DecodeEachExtends<T>(values: seq<Option<string>>, decode: string -> Option<T>, k: nat, xs: seq<T>)
    requires k < |values| && DecodeEach(values[..k], decode) == Success(xs)
    requires values[k].Some? && decode(values[k].value).Some?
    ensures DecodeEach(values[..k + 1], decode) == Success(xs + [decode(values[k].value).value])
  {
    var r1 := DecodeEach(values[..k + 1], decode);
    assert forall j :: 0 <= j < k ==> values[..k][j] == values[j] == values[..k + 1][j];
    assert values[..k + 1][k] == values[k];
    assert r1.Success?;
    assert r1.value == xs + [decode(values[k].value).value];
  }

  /** Values that are all present and all decode give their entities. */
  lemma DecodeEachAll<T>(values: seq<Option<string>>, decode: string -> Option<T>, items: seq<T>)
    requires |values| == |items|
    requires forall k :: 0 <= k < |values| ==> values[k].Some? && decode(values[k].value) == Some(items[k])
    ensures DecodeEach(values, decode) == Success(items)
  {
    var r := DecodeEach(values, decode);
    assert r.Success?;
    assert r.value == items;
  }
}
