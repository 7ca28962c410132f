/** The two boolean encoders of raspi_src/scpi_util.py, with decoders as their partners. */
module ScpiUtil {
  import opened Wrappers

  /** SCPI property form of a bool: "ON" or "OFF". */
  function BoolOnOff(state: bool): (r: string)
    ensures r == "ON" || r == "OFF"
    ensures r == "ON" <==> state
  {
    if state then "ON" else "OFF"
  }

  /** SCPI flag form of a bool: 1 or 0. */
  function BoolInt(state: bool): (r: int)
    ensures 0 <= r <= 1
    ensures r == 1 <==> state
  {
    if state then 1 else 0
  }

  /** Reads back what BoolOnOff writes; any other text is rejected. */
  function ParseOnOff(s: string): (r: Option<bool>)
    ensures r.Some? <==> s == "ON" || s == "OFF"
  {
    if s == "ON" then Some(true) else if s == "OFF" then Some(false) else None
  }

  /** Reads back what BoolInt writes; any other number is rejected. */
  function ParseInt(n: int): (r: Option<bool>)
    ensures r.Some? <==> 0 <= n <= 1
  {
    if n == 1 then Some(true) else if n == 0 then Some(false) else None
  }

  lemma OnOffRoundTrip(state: bool)
    ensures ParseOnOff(BoolOnOff(state)) == Some(state)
  {
  }

  lemma OnOffDecodeSound(s: string, state: bool)
    requires ParseOnOff(s) == Some(state)
    ensures BoolOnOff(state) == s
  {
  }

  lemma OnOffInjective(a: bool, b: bool)
    requires BoolOnOff(a) == BoolOnOff(b)
    ensures a == b
  {
  }

  lemma IntRoundTrip(state: bool)
    ensures ParseInt(BoolInt(state)) == Some(state)
  {
  }

  lemma IntDecodeSound(n: int, state: bool)
    requires ParseInt(n) == Some(state)
    ensures BoolInt(state) == n
  {
  }

  /** Both encoders say the same thing about the same bool. */
  lemma EncodersAgree(state: bool)
    ensures BoolOnOff(state) == "ON" <==> BoolInt(state) == 1
    ensures ParseOnOff(BoolOnOff(state)) == ParseInt(BoolInt(state))
  {
  }
}
