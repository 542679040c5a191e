/**
 * The outcome of one call to the hosted model. The call itself (client, model name,
 * prompt, options, transport) is not modelled; an operation receives its outcome.
 */
module ModelReply {
  import opened Wrappers

  /**
   * `Failed` when `generateContent` throws. Otherwise `text` is `response.text`, with ""
   * standing for both an empty and a missing text, and `mapUri` is the first grounding
   * chunk's map URI (`response.candidates?.[0]?.groundingMetadata?.groundingChunks?.[0]?.maps?.uri`).
   */
  datatype Reply = Failed | Answered(text: string, mapUri: Option<string>)

  /** `response.text || fallback`. */
  function TextOr(text: string, fallback: string): string {
    if text != "" then text else fallback
  }
}
