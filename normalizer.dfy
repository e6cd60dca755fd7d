/**
 * The response normalizer: the server nests the human-readable explanation
 * either inside `data` or at the top level; `MapResponse` picks it from the
 * place the reply's shape calls for (uup-game-service.ts, lines 154-174).
 */
module Normalizer {
  import opened Wrappers

  /**
   * The parts of a reply's `data` object the normalizer reads. A key missing
   * from `data` reads as `None` (JavaScript's undefined).
   */
  datatype Payload = Payload(reason: Option<string>, message: Option<string>)

  /** A reply as sent: `data == None` means the reply carries no `data` key. */
  datatype RawEnvelope = RawEnvelope(success: bool, message: Option<string>, data: Option<Payload>)

  /** The uniform shape every service call hands back. */
  datatype ServerResponse = ServerResponse(success: bool, message: Option<string>, data: Option<Payload>)

  function MapResponse(raw: RawEnvelope): (r: ServerResponse)
    ensures r.success == raw.success && r.data == raw.data
    ensures raw.data.None? ==> r.message == raw.message
    ensures raw.data.Some? && !raw.success ==> r.message == raw.data.value.reason
    ensures raw.data.Some? && raw.success ==> r.message == raw.data.value.message
  {
    if !raw.success then
      ServerResponse(raw.success, if raw.data.Some? then raw.data.value.reason else raw.message, raw.data)
    else
      ServerResponse(raw.success, if raw.data.Some? then raw.data.value.message else raw.message, raw.data)
  }

  /**
   * The two failure conventions agree: a failure explained at the top level
   * and one explained by `data.reason` normalize to the same message.
   */
  lemma FailureConventionsAgree(m: Option<string>)
    ensures MapResponse(RawEnvelope(false, m, None)).message
         == MapResponse(RawEnvelope(false, None, Some(Payload(m, None)))).message
    ensures !MapResponse(RawEnvelope(false, m, None)).success
  {
  }

  /**
   * Once a reply carries `data`, the top-level message is ignored whatever the
   * outcome: the explanation comes from `data` alone.
   */
  lemma DataShadowsTopLevelMessage(success: bool, m1: Option<string>, m2: Option<string>, p: Payload)
    ensures MapResponse(RawEnvelope(success, m1, Some(p))) == MapResponse(RawEnvelope(success, m2, Some(p)))
  {
  }
}
