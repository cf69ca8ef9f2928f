/** The HTTP error a FastAPI handler raises (`HTTPException`). */
module Http {

  /** `HTTPException(status_code=status, detail=detail)`. */
  datatype HttpError = HttpError(status: int, detail: string)

  /** `str()` of an `HTTPException`: Starlette renders it as "<status>: <detail>". */
  function Render(e: HttpError): (s: string)
    ensures |s| == |IntToString(e.status)| + 2 + |e.detail|
    ensures s[..|IntToString(e.status)|] == IntToString(e.status)
    ensures s[|IntToString(e.status)|..] == ": " + e.detail
  {
    IntToString(e.status) + ": " + e.detail
  }

  /** Decimal rendering of an integer, as Python's `str(int)`. */
  function IntToString(n: int): (s: string)
    ensures |s| > 0
    ensures n < 0 <==> s[0] == '-'
    decreases if n < 0 then 1 - n else n
  {
    if n < 0 then "-" + NatToString(-n) else NatToString(n)
  }

  function NatToString(n: nat): (s: string)
    ensures |s| > 0 && '0' <= s[0] <= '9'
    ensures forall i :: 0 <= i < |s| ==> '0' <= s[i] <= '9'
  {
    if n < 10 then [Digit(n)] else NatToString(n / 10) + [Digit(n % 10)]
  }

  function Digit(d: nat): (c: char)
    requires d < 10
    ensures '0' <= c <= '9'
  {
    "0123456789"[d]
  }

  /** The two statuses the handlers render into a detail text. */
  lemma RenderedStatuses(detail: string)
    ensures Render(HttpError(404, detail)) == "404: " + detail
    ensures Render(HttpError(502, detail)) == "502: " + detail
  {
    assert NatToString(40) == NatToString(4) + [Digit(0)];
    assert NatToString(404) == NatToString(40) + [Digit(4)];
    assert NatToString(50) == NatToString(5) + [Digit(0)];
    assert NatToString(502) == NatToString(50) + [Digit(2)];
  }
}
