/** The two language-model helpers of app/tools/utils.py that the research
    pipeline uses: `translate_to_english` and `detect_language`. The model
    itself is a parameter `llm` that maps a chat request to its reply. */
module Llm {
  import opened Basics
  import opened PyStr

  /** The closed set of labels `detect_language` can return. */
  datatype Lang = En | Es | Unknown {
    /** The label as the source spells it. */
    function Code(): string {
      match this
      case En => "en"
      case Es => "es"
      case Unknown => "unknown"
    }
  }

  const TranslatorInstruction: string :=
    "You are a translator. Translate the following text to English, maintaining key terms and context."
  const DetectorInstruction: string :=
    "You are a language detector. Respond with only 'en' for English or 'es' for Spanish."

  function TranslationRequest(text: string): Chat {
    Chat(TranslatorInstruction, "Translate to English: " + text)
  }

  function DetectionRequest(text: string): Chat {
    Chat(DetectorInstruction, "Detect language: " + text)
  }

  /** `translate_to_english`: the model's reply with its surrounding
      whitespace removed, or the input itself when the call fails. */
  function TranslateToEnglish(text: string, llm: Chat -> LlmReply): (r: string)
    ensures llm(TranslationRequest(text)).Err? ==> r == text
    ensures llm(TranslationRequest(text)).Ok? ==>
              && (r != [] ==> !IsSpace(r[0]) && !IsSpace(r[|r| - 1]))
              && exists i :: TrimmedAt(llm(TranslationRequest(text)).value, r, i)
  {
    match llm(TranslationRequest(text))
    case Ok(answer) => Strip(answer)
    case Err(_) => text
  }

  /** The label mapping of `detect_language`: strip, lower-case, keep `en`
      and `es`, and turn anything else (or a failed call) into `unknown`. */
  function LabelOf(reply: LlmReply): Lang {
    match reply
    case Err(_) => Unknown
    case Ok(answer) =>
      var code := Lower(Strip(answer));
      if code == "en" then En else if code == "es" then Es else Unknown
  }

  /** `detect_language`: never fails, always one of the three labels. */
  function DetectLanguage(text: string, llm: Chat -> LlmReply): Lang {
    LabelOf(llm(DetectionRequest(text)))
  }

  /** Upper-case one ASCII lower-case letter. */
  function UpperChar(c: char): char
    requires 'a' <= c <= 'z'
  {
    (c as int - 'a' as int + 'A' as int) as char
  }

  /** The two-letter strings that lower-case to the two-letter code `code`. */
  function Casings(code: string): set<string>
    requires code == "en" || code == "es"
  {
    var a, b := code[0], code[1];
    {[a, b], [UpperChar(a), b], [a, UpperChar(b)], [UpperChar(a), UpperChar(b)]}
  }

  /** `s.lower() == code` for a two-letter lower-case `code` holds exactly for
      the four casings of `code`. */
  lemma LowerIsCode(s: string, code: string)
    requires code == "en" || code == "es"
    ensures Lower(s) == code <==> s in Casings(code)
  {
    if Lower(s) == code {
      assert |s| == 2;
      assert LowerChar(s[0]) == code[0] && LowerChar(s[1]) == code[1];
      assert s == [s[0], s[1]];
    }
    if s in Casings(code) {
      assert |s| == 2;
      assert Lower(s) == [LowerChar(s[0]), LowerChar(s[1])];
    }
  }

  /** A reply is labelled English exactly when, once stripped, it is `en` in
      any letter case; likewise for Spanish; every other reply, and every
      failed call, is `unknown`. */
  lemma LabelOfCharacterized(reply: LlmReply)
    ensures LabelOf(reply) == En <==> reply.Ok? && Strip(reply.value) in Casings("en")
    ensures LabelOf(reply) == Es <==> reply.Ok? && Strip(reply.value) in Casings("es")
    ensures LabelOf(reply) == Unknown <==>
              reply.Err? || Strip(reply.value) !in Casings("en") + Casings("es")
  {
    if reply.Ok? {
      var t := Strip(reply.value);
      LowerIsCode(t, "en");
      LowerIsCode(t, "es");
    }
  }

  /** `detect_language(text)` answers `en` exactly when the model's reply,
      once stripped, is `en` in any letter case, and likewise `es`; any other
      reply, and a failed call, gives `unknown`. */
  lemma DetectLanguageCharacterized(text: string, llm: Chat -> LlmReply)
    ensures var reply := llm(DetectionRequest(text));
            && (DetectLanguage(text, llm) == En <==>
                  reply.Ok? && Strip(reply.value) in Casings("en"))
            && (DetectLanguage(text, llm) == Es <==>
                  reply.Ok? && Strip(reply.value) in Casings("es"))
  {
    LabelOfCharacterized(llm(DetectionRequest(text)));
  }
}
