/**
 * Colour selection for the chat embeds: `logToDiscord` (bot.js:190-215) and,
 * for comparison, the webhook logger `sendWebhookLog` (bot.js:12-32).
 */
module Embeds {

  /** The `color` argument as JavaScript sees it: a string, a number, or anything else. */
  datatype ColorArg = Named(name: string) | Code(value: int) | Unset

  const GREEN: int := 0x00FF00
  const YELLOW: int := 0xFFFF00
  const RED: int := 0xFF0000
  const WHITE: int := 0xFFFFFF

  /** The three colour names both loggers know. */
  const KnownNames: set<string> := {"GREEN", "YELLOW", "RED"}

  /** Embed colour chosen by `logToDiscord`: known names map to fixed values, a number is used as is, everything else is white. */
  function EmbedColor(c: ColorArg): (r: int)
    ensures c == Named("GREEN") ==> r == 0x00FF00
    ensures c == Named("YELLOW") ==> r == 0xFFFF00
    ensures c == Named("RED") ==> r == 0xFF0000
    ensures c.Named? && c.name !in KnownNames ==> r == 0xFFFFFF
    ensures c.Code? ==> r == c.value
    ensures c.Unset? ==> r == 0xFFFFFF
    ensures c.Named? ==> (r == WHITE <==> c.name !in KnownNames)
  {
    match c
    case Named(name) =>
      if name == "GREEN" then GREEN
      else if name == "YELLOW" then YELLOW
      else if name == "RED" then RED
      else WHITE
    case Code(value) => value
    case Unset => WHITE
  }

  /** Colour chosen by `sendWebhookLog`: anything that is not GREEN or YELLOW falls back to red. */
  function WebhookColor(name: string): (r: int)
    ensures name == "GREEN" ==> r == 0x00FF00
    ensures name == "YELLOW" ==> r == 0xFFFF00
    ensures r == 0xFF0000 <==> name != "GREEN" && name != "YELLOW"
  {
    if name == "GREEN" then GREEN
    else if name == "YELLOW" then YELLOW
    else RED
  }

  /** The two loggers agree on the known names and disagree on every other name. */
  lemma LoggersAgreeOnKnownNames(name: string)
    ensures name in KnownNames ==> EmbedColor(Named(name)) == WebhookColor(name)
    ensures name !in KnownNames ==> EmbedColor(Named(name)) == WHITE && WebhookColor(name) == RED
  {
  }
}
