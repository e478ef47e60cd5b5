/**
  The shapes of a forwarding rule's JSON columns (`filters`, `options`, `twitter_config`),
  shared by the database, the settings layer and the forward engine. A key that the JSON
  may lack is an `Option`, so that the source's KeyError paths can be modelled.
 */
module RuleData {

  import opened Wrappers

  /** The `target_type` value of a rule that relays to a Telegram group (any other value posts to Twitter). */
  const TelegramGroupTarget := "Telegram群组"

  /** `filters`: `{'keywords': [...], 'regex': '...'}`. */
  datatype Filters = Filters(keywords: Option<seq<string>>, regex: Option<string>)

  /** `options['delay']`: `{'enabled': bool, 'value': seconds}`. */
  datatype Delay = Delay(enabled: bool, seconds: int)

  /** `options`: `{'delay': {...}, 'media_forward': bool}`. */
  datatype Options = Options(delay: Option<Delay>, mediaForward: Option<bool>)

  /** `twitter_config`: a dict with (normally) the keys `template` and `hashtags`. */
  type TwitterConfig = map<string, string>

  const TemplateKey := "template"
  const HashtagsKey := "hashtags"
}
