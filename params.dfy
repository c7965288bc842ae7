/**
 * getUint8Param, parseRGB and parseRGBA from image_utils.go: colour channels read from named
 * path parameters. The request's parameters are a map; an absent name reads as "", as
 * Fiber's c.Params does.
 */
module Params {
  import opened Wrappers
  import opened Colours
  import opened Decimal
  import opened Utils

  /** c.Params(name). */
  function Lookup(params: map<string, string>, name: string): string
  {
    if name in params then params[name] else ""
  }

  /** strconv's *NumError as Atoi returns it; `num` is the text that failed (syntax and range errors are not told apart). */
  datatype NumError = NumError(num: string)

  /**
   * getUint8Param: "" reads as "0"; text Atoi rejects is an error; otherwise uint8(v), the low
   * 8 bits of v, which the clamp to [0, 255] then leaves as it is.
   */
  function GetUint8Param(params: map<string, string>, name: string): (r: Result<uint8, NumError>)
    ensures Lookup(params, name) == "" ==> r == Success(0)
    ensures Lookup(params, name) != "" ==> (r.Success? <==> Atoi(Lookup(params, name)).Some?)
    ensures r.Failure? ==> r.error == NumError(Lookup(params, name))
    ensures r.Success? && Lookup(params, name) != "" ==> (Atoi(Lookup(params, name)).value - r.value) % 256 == 0
  {
    var raw := if Lookup(params, name) == "" then "0" else Lookup(params, name);
    match Atoi(raw)
    case None => Failure(NumError(raw))
    case Some(v) =>
      var c := Clamp(ToUint8(v), 0, 255);
      Success(c)
  }

  /** The clamp on the truncated value never fires: the result is exactly uint8(v). */
  lemma GetUint8ParamTruncates(params: map<string, string>, name: string)
    requires Atoi(Lookup(params, name)).Some?
    ensures GetUint8Param(params, name) == Success(ToUint8(Atoi(Lookup(params, name)).value))
  {
  }

  /** Out-of-range channels wrap around instead of saturating: 300 gives 44, 256 gives 0, -1 gives 255. */
  lemma GetUint8ParamWraps()
    ensures GetUint8Param(map["r" := "300"], "r") == Success(44)
    ensures GetUint8Param(map["r" := "256"], "r") == Success(0)
    ensures GetUint8Param(map["r" := "-1"], "r") == Success(255)
  {
    var p300, p256, m1 := map["r" := "300"], map["r" := "256"], map["r" := "-1"];
    AtoiExamples();
    GetUint8ParamTruncates(p300, "r");
    GetUint8ParamTruncates(p256, "r");
    GetUint8ParamTruncates(m1, "r");
  }

  /** An absent or empty parameter is channel 0; text that is not a decimal integer is an error. */
  lemma GetUint8ParamDefaults()
    ensures GetUint8Param(map[], "r") == Success(0)
    ensures GetUint8Param(map["r" := ""], "r") == Success(0)
    ensures GetUint8Param(map["r" := "abc"], "r") == Failure(NumError("abc"))
  {
  }

  /**
   * parseRGB: fills R, then G, then B of a fresh color.RGBA, stopping at the first parameter
   * that fails; alpha becomes 255 only when all three succeed. On failure the partly filled
   * colour is returned with the error.
   */
  method ParseRgb(params: map<string, string>, r: string, g: string, b: string) returns (rgb: RGBA, err: Option<NumError>)
    ensures var R, G, B := GetUint8Param(params, r), GetUint8Param(params, g), GetUint8Param(params, b);
      && (err.None? <==> R.Success? && G.Success? && B.Success?)
      && (err.None? ==> rgb == RGBA(R.value, G.value, B.value, 255))
      && (R.Failure? ==> err == Some(R.error) && rgb == Transparent)
      && (R.Success? && G.Failure? ==> err == Some(G.error) && rgb == RGBA(R.value, 0, 0, 0))
      && (R.Success? && G.Success? && B.Failure? ==> err == Some(B.error) && rgb == RGBA(R.value, G.value, 0, 0))
  {
    rgb := Transparent;
    var rr := GetUint8Param(params, r);
    rgb := rgb.(r := rr.GetOr(0));
    if rr.Failure? {
      return rgb, Some(rr.error);
    }
    var gg := GetUint8Param(params, g);
    rgb := rgb.(g := gg.GetOr(0));
    if gg.Failure? {
      return rgb, Some(gg.error);
    }
    var bb := GetUint8Param(params, b);
    rgb := rgb.(b := bb.GetOr(0));
    if bb.Failure? {
      return rgb, Some(bb.error);
    }
    rgb := rgb.(a := 255);
    err := None;
  }

  /**
   * parseRGBA: parseRGB, then alpha from parameter a. A failure among r, g, b returns before a is
   * read, and a failing a leaves alpha 0.
   */
  method ParseRgba(params: map<string, string>, r: string, g: string, b: string, a: string) returns (rgb: RGBA, err: Option<NumError>)
    ensures var R, G, B, A := GetUint8Param(params, r), GetUint8Param(params, g), GetUint8Param(params, b), GetUint8Param(params, a);
      && (err.None? <==> R.Success? && G.Success? && B.Success? && A.Success?)
      && (err.None? ==> rgb == RGBA(R.value, G.value, B.value, A.value))
      && (R.Failure? ==> err == Some(R.error) && rgb == Transparent)
      && (R.Success? && G.Failure? ==> err == Some(G.error) && rgb == RGBA(R.value, 0, 0, 0))
      && (R.Success? && G.Success? && B.Failure? ==> err == Some(B.error) && rgb == RGBA(R.value, G.value, 0, 0))
      && (R.Success? && G.Success? && B.Success? && A.Failure? ==> err == Some(A.error) && rgb == RGBA(R.value, G.value, B.value, 0))
  {
    rgb, err := ParseRgb(params, r, g, b);
    if err.Some? {
      return rgb, err;
    }
    var aa := GetUint8Param(params, a);
    rgb := rgb.(a := aa.GetOr(0));
    if aa.Failure? {
      return rgb, Some(aa.error);
    }
  }
}
