/**
  The pure parts of core/forward.py: the text a message is judged by, the rule filter of
  check_filters, the tweet text built from a rule's `twitter_config`, and the excerpt kept
  in the forward log.
 */
module MessageFilters {

  import opened Wrappers
  import opened Strings
  import opened RuleData

  /**
    A Telegram message as the engine reads it: the chat it arrived in, its text and caption
    (None when absent) and whether it carries media.
   */
  datatype Message = Message(chatId: int, text: Option<string>, caption: Option<string>, hasMedia: bool)

  /** `s or ...`: a present, non-empty string. */
  predicate Truthy(s: Option<string>) { s.Some? && s.value != "" }

  /** `message.text or message.caption or ""`. */
  function SourceText(m: Message): (t: string)
    ensures Truthy(m.text) ==> t == m.text.value
    ensures !Truthy(m.text) && Truthy(m.caption) ==> t == m.caption.value
    ensures !Truthy(m.text) && !Truthy(m.caption) ==> t == ""
  {
    if Truthy(m.text) then m.text.value else if Truthy(m.caption) then m.caption.value else ""
  }

  /** `any(k in text for k in keywords)`. */
  function AnyKeywordIn(keywords: seq<string>, text: string): (r: bool)
    ensures r <==> exists i :: 0 <= i < |keywords| && Contains(text, keywords[i])
    decreases |keywords|
  {
    if |keywords| == 0 then false
    else if Contains(text, keywords[0]) then true
    else
      var rest := AnyKeywordIn(keywords[1..], text);
      assert forall i :: 1 <= i < |keywords| ==> keywords[i] == keywords[1..][i - 1];
      rest
  }

  /**
    check_filters: a message passes iff both filter keys are present, some keyword occurs in
    its text (or the keyword list is empty) and the regex matches (or is empty). A missing
    key or a regex that does not compile is an exception, which makes the check fail.
    `regexSearch(pattern, text)` is `re.search`: None when the pattern is invalid.
   */
  function CheckFilters(filters: Filters, m: Message, regexSearch: (string, string) -> Option<bool>): (r: bool)
    ensures r <==>
      && filters.keywords.Some? && filters.regex.Some?
      && (|filters.keywords.value| == 0 || exists i :: 0 <= i < |filters.keywords.value| && Contains(SourceText(m), filters.keywords.value[i]))
      && (filters.regex.value == "" || regexSearch(filters.regex.value, SourceText(m)) == Some(true))
  {
    var text := SourceText(m);
    match filters.keywords
    case None => false
    case Some(keywords) =>
      if |keywords| > 0 && !AnyKeywordIn(keywords, text) then false
      else
        match filters.regex
        case None => false
        case Some(pattern) =>
          if pattern != "" then
            match regexSearch(pattern, text)
            case None => false
            case Some(found) => found
          else true
  }

  /** With no keywords and no regex every message passes, whatever its text. */
  lemma EmptyFiltersPassEverything(m: Message, regexSearch: (string, string) -> Option<bool>)
    ensures CheckFilters(Filters(Some([]), Some("")), m, regexSearch)
  {
  }

  /** A keyword that occurs in the message text is enough to pass a filter without regex. */
  lemma KeywordInTextPasses(keywords: seq<string>, i: nat, m: Message, regexSearch: (string, string) -> Option<bool>)
    requires i < |keywords| && Contains(SourceText(m), keywords[i])
    ensures CheckFilters(Filters(Some(keywords), Some("")), m, regexSearch)
  {
  }

  // ---------------------------------------------------------------------------
  // Tweet text

  const TemplateTextField := "{text}"
  const TemplateLinkField := "{link}"

  /**
    `template.format(text=..., link=...)`, simplified to the two fields the engine passes:
    each `{text}` and `{link}` is replaced, every other character is kept.
   */
  function FillTemplate(template: string, text: string, link: string): string
    decreases |template|
  {
    if |template| == 0 then ""
    else if |template| >= 6 && template[..6] == TemplateTextField then text + FillTemplate(template[6..], text, link)
    else if |template| >= 6 && template[..6] == TemplateLinkField then link + FillTemplate(template[6..], text, link)
    else [template[0]] + FillTemplate(template[1..], text, link)
  }

  predicate NoBrace(s: string)
  {
    forall i :: 0 <= i < |s| ==> s[i] != '{'
  }

  /** A part of the template without `{` is copied as it is. */
  lemma {:induction false} FillKeepsPlainPrefix(a: string, b: string, text: string, link: string)
    requires NoBrace(a)
    ensures FillTemplate(a + b, text, link) == a + FillTemplate(b, text, link)
    decreases |a|
  {
    if |a| == 0 {
      assert a + b == b;
    } else {
      assert (a + b)[0] == a[0];
      assert (a + b)[1..] == a[1..] + b;
      FillKeepsPlainPrefix(a[1..], b, text, link);
    }
  }

  /** A template without fields is the tweet text as it is. */
  lemma PlainTemplateUnchanged(template: string, text: string, link: string)
    requires NoBrace(template)
    ensures FillTemplate(template, text, link) == template
  {
    FillKeepsPlainPrefix(template, "", text, link);
    assert template + "" == template;
  }

  /** `{text}` and `{link}` are replaced by the message text and the link. */
  lemma FieldsAreSubstituted(a: string, b: string, text: string, link: string)
    requires NoBrace(a)
    ensures FillTemplate(a + TemplateTextField + b, text, link) == a + text + FillTemplate(b, text, link)
    ensures FillTemplate(a + TemplateLinkField + b, text, link) == a + link + FillTemplate(b, text, link)
  {
    FillKeepsPlainPrefix(a, TemplateTextField + b, text, link);
    FillKeepsPlainPrefix(a, TemplateLinkField + b, text, link);
    assert (TemplateTextField + b)[..6] == TemplateTextField && (TemplateTextField + b)[6..] == b;
    assert (TemplateLinkField + b)[..6] == TemplateLinkField && (TemplateLinkField + b)[6..] == b;
    assert a + TemplateTextField + b == a + (TemplateTextField + b);
    assert a + TemplateLinkField + b == a + (TemplateLinkField + b);
  }

  const TelegramLinkPrefix := "https://t.me/"

  /** `"https://t.me/" + str(message.chat_id)`. */
  function TelegramLink(chatId: int): (l: string)
    ensures |l| > |TelegramLinkPrefix| && l[..|TelegramLinkPrefix|] == TelegramLinkPrefix
    ensures ParseInt(l[|TelegramLinkPrefix|..]) == Some(chatId)
  {
    IntToStringRoundTrip(chatId);
    var l := TelegramLinkPrefix + IntToString(chatId);
    assert l[|TelegramLinkPrefix|..] == IntToString(chatId);
    l
  }

  /** `"\n\n" + hashtags` appended to the text. */
  const HashtagSeparator := "\n\n"

  /**
    The tweet text of forward_to_twitter: the template (when non-empty) filled with the
    message text and link, then the hashtags (when non-empty) after a blank line. A missing
    `twitter_config`, template key or hashtags key raises, which is None here.
   */
  function ComposeTweet(config: Option<TwitterConfig>, m: Message): (r: Option<string>)
    ensures r.None? <==> config.None? || TemplateKey !in config.value || HashtagsKey !in config.value
    ensures r.Some? && config.value[TemplateKey] == "" ==>
      |r.value| >= |SourceText(m)| && r.value[..|SourceText(m)|] == SourceText(m)
    ensures r.Some? && config.value[HashtagsKey] == "" && config.value[TemplateKey] == "" ==> r.value == SourceText(m)
    ensures r.Some? ==>
      r.value == (if config.value[TemplateKey] != "" then FillTemplate(config.value[TemplateKey], SourceText(m), TelegramLink(m.chatId))
                  else SourceText(m))
                 + (if config.value[HashtagsKey] != "" then HashtagSeparator + config.value[HashtagsKey] else "")
  {
    match config
    case None => None
    case Some(c) =>
      if TemplateKey !in c then None
      else
        var text := SourceText(m);
        var body := if c[TemplateKey] != "" then FillTemplate(c[TemplateKey], text, TelegramLink(m.chatId)) else text;
        if HashtagsKey !in c then None
        else
          var tail := if c[HashtagsKey] != "" then HashtagSeparator + c[HashtagsKey] else "";
          assert body + "" == body;
          Some(body + tail)
  }

  /** The template `{text} {link}` puts the message text, a space and the chat link in the tweet. */
  lemma TemplateCarriesTextAndLink(m: Message)
    ensures ComposeTweet(Some(map[TemplateKey := TemplateTextField + " " + TemplateLinkField, HashtagsKey := ""]), m) ==
            Some(SourceText(m) + " " + TelegramLink(m.chatId))
  {
    var body := SourceText(m) + " " + TelegramLink(m.chatId);
    FillTextSpaceLink(SourceText(m), TelegramLink(m.chatId));
    assert body + "" == body;
  }

  lemma FillTextSpaceLink(text: string, link: string)
    ensures FillTemplate(TemplateTextField + " " + TemplateLinkField, text, link) == text + " " + link
  {
    var rest := " " + TemplateLinkField;
    var t := TemplateTextField + rest;
    assert TemplateTextField + " " + TemplateLinkField == t;
    assert t[..6] == TemplateTextField && t[6..] == rest;
    assert FillTemplate(t, text, link) == text + FillTemplate(rest, text, link);
    assert rest[..6][0] == ' ' && rest[1..] == TemplateLinkField;
    assert FillTemplate(rest, text, link) == [' '] + FillTemplate(TemplateLinkField, text, link);
    assert TemplateLinkField[..6][1] != TemplateTextField[1];
    assert FillTemplate(TemplateLinkField, text, link) == link + FillTemplate("", text, link);
  }

  /** Non-empty hashtags always end the tweet, after a blank line. */
  lemma HashtagsEndTheTweet(config: TwitterConfig, m: Message)
    requires TemplateKey in config && HashtagsKey in config && config[HashtagsKey] != ""
    ensures var r := ComposeTweet(Some(config), m);
            var tags := HashtagSeparator + config[HashtagsKey];
            r.Some? && |r.value| >= |tags| && r.value[|r.value| - |tags|..] == tags
  {
    var r := ComposeTweet(Some(config), m);
    var body := if config[TemplateKey] != "" then FillTemplate(config[TemplateKey], SourceText(m), TelegramLink(m.chatId))
                else SourceText(m);
    assert r.value == body + (HashtagSeparator + config[HashtagsKey]);
  }

  // ---------------------------------------------------------------------------
  // Forward log excerpt

  const ExcerptLength := 100

  /** `message.text[:100] if message.text else ''`. */
  function Excerpt(text: Option<string>): (e: string)
    ensures |e| <= ExcerptLength
    ensures Truthy(text) ==> |e| <= |text.value| && e == text.value[..|e|]
    ensures Truthy(text) ==> |e| == if |text.value| <= ExcerptLength then |text.value| else ExcerptLength
    ensures !Truthy(text) ==> e == ""
  {
    if Truthy(text) then (if |text.value| <= ExcerptLength then text.value else text.value[..ExcerptLength]) else ""
  }
}
