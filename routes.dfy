/**
 * The colour assembly of the /rgb and /rgba handlers in main.go. Their parameters come from
 * Fiber's c.ParamsInt, whose behaviour is not part of this model: it is the parameter
 * `paramsInt`, giving each name's integer or the error the handler returns.
 */
module Routes {
  import opened Wrappers
  import opened Colours

  /** main.go's getUint8Param: the integer of the parameter, truncated by uint8(v). */
  function Uint8Param<E>(paramsInt: string -> Result<int, E>, name: string): (r: Result<uint8, E>)
    ensures paramsInt(name).Failure? ==> r == Failure(paramsInt(name).error)
    ensures paramsInt(name).Success? ==> r.Success? && (paramsInt(name).value - r.value) % 256 == 0
  {
    match paramsInt(name)
    case Failure(e) => Failure(e)
    case Success(v) => Success(ToUint8(v))
  }

  /** GET /:w/:h/rgb/:r/:g/:b: r, g, b in that order, the first failure returned, alpha 255. */
  function RgbRouteColour<E>(paramsInt: string -> Result<int, E>): (c: Result<RGBA, E>)
    ensures var R, G, B := Uint8Param(paramsInt, "r"), Uint8Param(paramsInt, "g"), Uint8Param(paramsInt, "b");
      && (c.Success? <==> R.Success? && G.Success? && B.Success?)
      && (c.Success? ==> c.value == RGBA(R.value, G.value, B.value, 255))
      && (R.Failure? ==> c == Failure(R.error))
      && (R.Success? && G.Failure? ==> c == Failure(G.error))
      && (R.Success? && G.Success? && B.Failure? ==> c == Failure(B.error))
  {
    match Uint8Param(paramsInt, "r")
    case Failure(e) => Failure(e)
    case Success(r) =>
      match Uint8Param(paramsInt, "g")
      case Failure(e) => Failure(e)
      case Success(g) =>
        match Uint8Param(paramsInt, "b")
        case Failure(e) => Failure(e)
        case Success(b) => Success(RGBA(r, g, b, 255))
  }

  /** GET /:w/:h/rgba/:r/:g/:b/:a: as /rgb, then a, which becomes the alpha. */
  function RgbaRouteColour<E>(paramsInt: string -> Result<int, E>): (c: Result<RGBA, E>)
    ensures var A := Uint8Param(paramsInt, "a");
      && (c.Success? <==> RgbRouteColour(paramsInt).Success? && A.Success?)
      && (c.Success? ==> c.value == RgbRouteColour(paramsInt).value.(a := A.value))
      && (RgbRouteColour(paramsInt).Failure? ==> c == RgbRouteColour(paramsInt))
      && (RgbRouteColour(paramsInt).Success? && A.Failure? ==> c == Failure(A.error))
  {
    match Uint8Param(paramsInt, "r")
    case Failure(e) => Failure(e)
    case Success(r) =>
      match Uint8Param(paramsInt, "g")
      case Failure(e) => Failure(e)
      case Success(g) =>
        match Uint8Param(paramsInt, "b")
        case Failure(e) => Failure(e)
        case Success(b) =>
          match Uint8Param(paramsInt, "a")
          case Failure(e) => Failure(e)
          case Success(a) => Success(RGBA(r, g, b, a))
  }

  /** A failure among r, g, b is the /rgba handler's failure too, and the a parameter is never consulted. */
  lemma RgbaStopsBeforeAlpha<E>(p: string -> Result<int, E>, q: string -> Result<int, E>)
    requires p("r") == q("r") && p("g") == q("g") && p("b") == q("b")
    requires RgbRouteColour(p).Failure?
    ensures RgbaRouteColour(p) == RgbaRouteColour(q) == RgbRouteColour(p)
  {
  }
}
