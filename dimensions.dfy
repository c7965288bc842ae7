/** parseDimension and getWH: image width and height from decimal path parameters. */
module Dimensions {
  import opened Wrappers
  import opened Decimal
  import opened Utils
  import Params

  const MaxDimension: int := 512

  /** errInvalidDimension, the one error both functions report. */
  datatype DimensionError = InvalidDimension

  /** parseDimension: an Atoi failure or a value <= 0 is rejected; anything larger than 512 is capped. */
  function ParseDimension(raw: string): (r: Result<int, DimensionError>)
    ensures r.Success? <==> Atoi(raw).Some? && Atoi(raw).value > 0
    ensures r.Success? ==> 1 <= r.value <= MaxDimension
    ensures r.Success? ==> r.value == if Atoi(raw).value <= MaxDimension then Atoi(raw).value else MaxDimension
  {
    match Atoi(raw)
    case None => Failure(InvalidDimension)
    case Some(v) =>
      if v <= 0 then Failure(InvalidDimension)
      else Success(Clamp(v, 1, MaxDimension))
  }

  /** getWH: width from parameter "w", then height from "h"; the first failure is returned. */
  function GetWH(params: map<string, string>): (r: Result<(int, int), DimensionError>)
    ensures r.Success? <==> ParseDimension(Params.Lookup(params, "w")).Success? && ParseDimension(Params.Lookup(params, "h")).Success?
    ensures r.Success? ==> r.value == (ParseDimension(Params.Lookup(params, "w")).value, ParseDimension(Params.Lookup(params, "h")).value)
    ensures r.Success? ==> 1 <= r.value.0 <= MaxDimension && 1 <= r.value.1 <= MaxDimension
  {
    match ParseDimension(Params.Lookup(params, "w"))
    case Failure(e) => Failure(e)
    case Success(w) =>
      match ParseDimension(Params.Lookup(params, "h"))
      case Failure(e) => Failure(e)
      case Success(h) => Success((w, h))
  }

  /** An invalid width decides the outcome: the height parameter makes no difference. */
  lemma WidthFailureIgnoresHeight(p: map<string, string>, q: map<string, string>)
    requires Params.Lookup(p, "w") == Params.Lookup(q, "w")
    requires ParseDimension(Params.Lookup(p, "w")).Failure?
    ensures GetWH(p) == GetWH(q) == Failure(InvalidDimension)
  {
  }

  lemma ParseDimensionExamples()
    ensures ParseDimension("0") == Failure(InvalidDimension)
    ensures ParseDimension("-5") == Failure(InvalidDimension)
    ensures ParseDimension("") == Failure(InvalidDimension)
    ensures ParseDimension("32") == Success(32)
    ensures ParseDimension("9999") == Success(512)
  {
    assert AllDigits("0") && AllDigits("5");
    assert "-5"[1..] == "5";
    assert "32"[..1] == "3";
    assert "9999"[..3] == "999" && "999"[..2] == "99" && "99"[..1] == "9";
  }
}
