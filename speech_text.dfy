/** The strings the speech service composes: the text `TextToSpeech` speaks for any
    argument, after command substitution and the optional language-model rewrite; the
    greeting, which is the one text the service passes to `TextToSpeech`, when a
    recognition session starts; and the line it logs after a keyword-spotting pass.
    The remote completion call is replaced by its outcome, passed in as a value. */
module SpeechText {
  import opened PatternMatcher

  datatype Option<T> = None | Some(value: T)

  /** The settings the service reads: the bot's identity, the two canned replies and
      the completion-service endpoint and key. The endpoint and key are those of the
      application settings, copied in when the service is constructed. An unset (null)
      string is "". */
  datatype Config = Config(
    personName: string,
    status: string,
    blocker: string,
    openAiEndpoint: string,
    openAiKey: string)

  /** The values the settings hold before anything assigns them. Constructing the
      service replaces the empty endpoint and key with the application settings'. */
  const Defaults: Config := Config("Apple", "No status updates for me", "No blockers for me", "", "")

  /** The trigger whose presence selects the status reply. */
  const UpdateTrigger: string := "cat"
  /** The trigger whose presence selects the blocker reply. */
  const BlockerTrigger: string := "dog"

  /** Placed between the spoken text and its error annotation. */
  const Separator: string := "  "
  const UnreachableMessage: string := "I am sorry, I cannot reach gpt model"
  const NotSetMessage: string := "I am sorry, the gpt variables are not set"

  /** What the remote completion call yields: the first completion's text, or a failure
      of any kind (an exception raised anywhere in building or making the call). */
  datatype Completion = Completed(content: string) | Failed

  /** The rewrite is attempted only when both the key and the endpoint are set. */
  predicate RewriteConfigured(cfg: Config)
  {
    cfg.openAiKey != "" && cfg.openAiEndpoint != ""
  }

  // ---------------------------------------------------------------------------
  // Command substitution

  /** The update trigger is tested first; only when it does not match is the blocker
      trigger tested. */
  function SubstituteCommand(text: string, cfg: Config): string
  {
    if IsSubsequence(UpdateTrigger, text) then cfg.status
    else if IsSubsequence(BlockerTrigger, text) then cfg.blocker
    else text
  }

  /** The letters c, a, t at increasing positions, however far apart, select the status
      reply, whatever else the text contains (the blocker trigger included). */
  lemma ScatteredUpdateTriggerSelectsStatus(text: string, cfg: Config, i: int, j: int, k: int)
    requires 0 <= i < j < k < |text|
    requires text[i] == 'c' && text[j] == 'a' && text[k] == 't'
    ensures SubstituteCommand(text, cfg) == cfg.status
  {
    EmbeddingIsSubsequence([i, j, k], UpdateTrigger, text);
  }

  /** A found three-letter trigger sits at three increasing positions of the text. */
  lemma TriggerPositions(trigger: string, text: string)
    requires |trigger| == 3 && IsSubsequence(trigger, text)
    ensures exists i, j, k :: 0 <= i < j < k < |text| &&
              text[i] == trigger[0] && text[j] == trigger[1] && text[k] == trigger[2]
  {
    var idx := Embedding(trigger, text);
    assert text[idx[0]] == trigger[0] && text[idx[1]] == trigger[1] && text[idx[2]] == trigger[2];
  }

  /** Conversely, a text with no c, a, t at increasing positions never gets the status
      reply: it goes on to the blocker test. */
  lemma NoUpdateTriggerSkipsStatus(text: string, cfg: Config)
    requires forall i, j, k :: 0 <= i < j < k < |text| ==>
               !(text[i] == 'c' && text[j] == 'a' && text[k] == 't')
    ensures SubstituteCommand(text, cfg) == (if IsSubsequence(BlockerTrigger, text) then cfg.blocker else text)
  {
    assert UpdateTrigger[0] == 'c' && UpdateTrigger[1] == 'a' && UpdateTrigger[2] == 't';
    if IsSubsequence(UpdateTrigger, text) {
      TriggerPositions(UpdateTrigger, text);
    }
  }

  /** A text with neither c, a, t nor d, o, g at increasing positions is kept as it is. */
  lemma NoTriggerKeepsText(text: string, cfg: Config)
    requires forall i, j, k :: 0 <= i < j < k < |text| ==>
               !(text[i] == 'c' && text[j] == 'a' && text[k] == 't')
    requires forall i, j, k :: 0 <= i < j < k < |text| ==>
               !(text[i] == 'd' && text[j] == 'o' && text[k] == 'g')
    ensures SubstituteCommand(text, cfg) == text
  {
    NoUpdateTriggerSkipsStatus(text, cfg);
    assert BlockerTrigger[0] == 'd' && BlockerTrigger[1] == 'o' && BlockerTrigger[2] == 'g';
    if IsSubsequence(BlockerTrigger, text) {
      TriggerPositions(BlockerTrigger, text);
    }
  }

  /** Without the update trigger, the letters d, o, g at increasing positions select the
      blocker reply. */
  lemma ScatteredBlockerTriggerSelectsBlocker(text: string, cfg: Config, i: int, j: int, k: int)
    requires !IsSubsequence(UpdateTrigger, text)
    requires 0 <= i < j < k < |text|
    requires text[i] == 'd' && text[j] == 'o' && text[k] == 'g'
    ensures SubstituteCommand(text, cfg) == cfg.blocker
  {
    EmbeddingIsSubsequence([i, j, k], BlockerTrigger, text);
  }

  /** A text that lacks a letter of each trigger is spoken as it is. */
  lemma TextKeptWithoutTriggerLetters(text: string, cfg: Config)
    requires 'c' !in text || 'a' !in text || 't' !in text
    requires 'd' !in text || 'o' !in text || 'g' !in text
    ensures SubstituteCommand(text, cfg) == text
  {
    assert UpdateTrigger[0] == 'c' && UpdateTrigger[1] == 'a' && UpdateTrigger[2] == 't';
    assert BlockerTrigger[0] == 'd' && BlockerTrigger[1] == 'o' && BlockerTrigger[2] == 'g';
    if IsSubsequence(UpdateTrigger, text) {
      FoundCharactersOccur(UpdateTrigger, text);
    }
    if IsSubsequence(BlockerTrigger, text) {
      FoundCharactersOccur(BlockerTrigger, text);
    }
  }

  /** "I have an update" is not a command: it has no 'c' and no 'g'. */
  lemma UpdateSentenceIsNotACommand(cfg: Config)
    ensures SubstituteCommand("I have an update", cfg) == "I have an update"
  {
    TextKeptWithoutTriggerLetters("I have an update", cfg);
  }

  /** Each trigger lacks a letter in `reply`, so `reply` is left as it is. */
  predicate TriggerFree(reply: string)
  {
    ('c' !in reply || 'a' !in reply || 't' !in reply) &&
    ('d' !in reply || 'o' !in reply || 'g' !in reply)
  }

  /** When substitution leaves each canned reply as it is, substituting twice is
      substituting once. */
  lemma SubstitutionIdempotent(text: string, cfg: Config)
    requires SubstituteCommand(cfg.status, cfg) == cfg.status
    requires SubstituteCommand(cfg.blocker, cfg) == cfg.blocker
    ensures SubstituteCommand(SubstituteCommand(text, cfg), cfg) == SubstituteCommand(text, cfg)
  {
  }

  /** The converse: when substituting twice is substituting once for every text, each
      canned reply is left as it is, as the triggers themselves show. */
  lemma IdempotentSubstitutionKeepsReplies(cfg: Config)
    requires forall text :: SubstituteCommand(SubstituteCommand(text, cfg), cfg) == SubstituteCommand(text, cfg)
    ensures SubstituteCommand(cfg.status, cfg) == cfg.status
    ensures SubstituteCommand(cfg.blocker, cfg) == cfg.blocker
  {
    assert UpdateTrigger[0] == 'c' && UpdateTrigger[1] == 'a' && UpdateTrigger[2] == 't';
    ScatteredUpdateTriggerSelectsStatus(UpdateTrigger, cfg, 0, 1, 2);
    assert SubstituteCommand(SubstituteCommand(UpdateTrigger, cfg), cfg) == SubstituteCommand(UpdateTrigger, cfg);
    assert BlockerTrigger[0] == 'd' && BlockerTrigger[1] == 'o' && BlockerTrigger[2] == 'g';
    LackingCharacterNotFound(UpdateTrigger, BlockerTrigger, 'c');
    ScatteredBlockerTriggerSelectsBlocker(BlockerTrigger, cfg, 0, 1, 2);
    assert SubstituteCommand(SubstituteCommand(BlockerTrigger, cfg), cfg) == SubstituteCommand(BlockerTrigger, cfg);
  }

  /** A reply lacking a letter of each trigger is left as it is by substitution, so
      replies of that kind make substitution idempotent. */
  lemma TriggerFreeSubstitutionIdempotent(text: string, cfg: Config)
    requires TriggerFree(cfg.status) && TriggerFree(cfg.blocker)
    ensures SubstituteCommand(SubstituteCommand(text, cfg), cfg) == SubstituteCommand(text, cfg)
  {
    TextKeptWithoutTriggerLetters(cfg.status, cfg);
    TextKeptWithoutTriggerLetters(cfg.blocker, cfg);
    SubstitutionIdempotent(text, cfg);
  }

  /** The default status reply qualifies: it has no 'c' and no 'g'. */
  lemma DefaultStatusTriggerFree()
    ensures TriggerFree(Defaults.status)
  {
    assert 'c' !in Defaults.status && 'g' !in Defaults.status;
  }

  /** The default blocker reply qualifies: it has no 'a' and no 'g'. */
  lemma DefaultBlockerTriggerFree()
    ensures TriggerFree(Defaults.blocker)
  {
    assert 'a' !in Defaults.blocker && 'g' !in Defaults.blocker;
  }

  // ---------------------------------------------------------------------------
  // Rewrite and error annotation

  /** The text after the rewrite step and its error annotation ("" when there is none). */
  datatype Rewritten = Rewritten(text: string, errorMessage: string)

  function Rewrite(base: string, cfg: Config, outcome: Completion): Rewritten
  {
    if RewriteConfigured(cfg) then
      match outcome
      case Completed(s) => Rewritten(s, "")
      case Failed => Rewritten(base, UnreachableMessage)
    else
      Rewritten(base, NotSetMessage)
  }

  /** The annotation, when there is one, follows the text after the separator. */
  function Annotate(r: Rewritten): string
  {
    if r.errorMessage == "" then r.text else r.text + Separator + r.errorMessage
  }

  /** The text `TextToSpeech` speaks when it is given `raw`. */
  function SpokenText(raw: string, cfg: Config, outcome: Completion): string
  {
    Annotate(Rewrite(SubstituteCommand(raw, cfg), cfg, outcome))
  }

  /** Without both a key and an endpoint the completion is never consulted: what is
      spoken is the substituted text followed by the "not set" annotation, whatever the
      outcome. */
  lemma UnconfiguredIgnoresCompletion(raw: string, cfg: Config, o1: Completion, o2: Completion)
    requires !RewriteConfigured(cfg)
    ensures SpokenText(raw, cfg, o1) == SpokenText(raw, cfg, o2)
    ensures SpokenText(raw, cfg, o1) == SubstituteCommand(raw, cfg) + "  " + NotSetMessage
  {
  }

  /** A successful completion is spoken exactly, with no annotation. */
  lemma CompletionReplacesText(raw: string, cfg: Config, s: string)
    requires RewriteConfigured(cfg)
    ensures SpokenText(raw, cfg, Completed(s)) == s
  {
  }

  /** A failed completion keeps the substituted text and adds the "cannot reach"
      annotation. */
  lemma FailedCompletionAnnotates(raw: string, cfg: Config)
    requires RewriteConfigured(cfg)
    ensures SpokenText(raw, cfg, Failed) == SubstituteCommand(raw, cfg) + "  " + UnreachableMessage
  {
  }

  /** Every spoken text is either a completion spoken as it came back or the substituted text
      followed by two spaces and one of the two annotations, and the annotation is present
      exactly when no completion was used. */
  lemma SpokenTextShape(raw: string, cfg: Config, outcome: Completion)
    ensures var base := SubstituteCommand(raw, cfg);
            var spoken := SpokenText(raw, cfg, outcome);
            (RewriteConfigured(cfg) && outcome.Completed? && spoken == outcome.content) ||
            (!(RewriteConfigured(cfg) && outcome.Completed?) &&
             (spoken == base + Separator + UnreachableMessage || spoken == base + Separator + NotSetMessage))
  {
  }

  /** The spoken text as `TextToSpeech` builds it, step by step, calling the matcher. */
  method ComposeSpokenText(text: string, cfg: Config, outcome: Completion) returns (finalText: string)
    ensures finalText == SpokenText(text, cfg, outcome)
  {
    var current := text;
    var isUpdate := ContainsPattern(current, UpdateTrigger);
    if isUpdate {
      current := cfg.status;
    } else {
      var isBlocker := ContainsPattern(current, BlockerTrigger);
      if isBlocker {
        current := cfg.blocker;
      }
    }
    var errorMessage := "";
    if cfg.openAiKey != "" && cfg.openAiEndpoint != "" {
      match outcome
      case Completed(s) =>
        current := s;
      case Failed =>
        errorMessage := UnreachableMessage;
    } else {
      errorMessage := NotSetMessage;
    }
    finalText := current;
    if errorMessage != "" {
      finalText := finalText + Separator + errorMessage;
    }
  }

  // ---------------------------------------------------------------------------
  // Greeting

  /** The greeting spoken when a recognition session starts. */
  function Greeting(personName: string): string
  {
    "Hello, My name is " + personName + " bot. I am here on " + personName + "'s behalf"
  }

  /** The greeting names the person twice, at fixed places, around fixed words. */
  lemma GreetingNamesPersonTwice(personName: string)
    ensures |Greeting(personName)| == 2 * |personName| + 46
    ensures Greeting(personName)[..18] == "Hello, My name is "
    ensures Greeting(personName)[18..18 + |personName|] == personName
    ensures Greeting(personName)[18 + |personName|..37 + |personName|] == " bot. I am here on "
    ensures Greeting(personName)[37 + |personName|..37 + 2 * |personName|] == personName
    ensures Greeting(personName)[37 + 2 * |personName|..] == "'s behalf"
  {
  }

  /** Different names give different greetings. */
  lemma GreetingInjective(a: string, b: string)
    requires Greeting(a) == Greeting(b)
    ensures a == b
  {
    GreetingNamesPersonTwice(a);
    GreetingNamesPersonTwice(b);
  }

  /** With the default identity "Apple" the greeting is this exact sentence. */
  lemma DefaultGreeting()
    ensures Greeting(Defaults.personName) == "Hello, My name is Apple bot. I am here on Apple's behalf"
  {
  }

  /** The greeting is passed to `TextToSpeech`, so it goes through command
      substitution. With the default name it holds no 'c' and no 'd', so substitution
      keeps it as it is. */
  lemma DefaultGreetingKept(cfg: Config)
    ensures SubstituteCommand(Greeting(Defaults.personName), cfg) == Greeting(Defaults.personName)
  {
    var g := Greeting(Defaults.personName);
    assert 'c' !in g && 'd' !in g;
    TextKeptWithoutTriggerLetters(g, cfg);
  }

  /** With the default name, and the key or the endpoint empty, the greeting is spoken
      followed by two spaces and the "not set" annotation, whatever the completion
      would have been. */
  lemma DefaultGreetingSpoken(cfg: Config, outcome: Completion)
    requires cfg.personName == Defaults.personName && !RewriteConfigured(cfg)
    ensures SpokenText(Greeting(cfg.personName), cfg, outcome)
         == Greeting(cfg.personName) + Separator + NotSetMessage
  {
    DefaultGreetingKept(cfg);
  }

  /** No greeting is ever spoken word for word except when the completion service is
      configured and returns exactly that greeting: an annotated text ends with the
      annotation, never with the greeting's closing "'s behalf". */
  lemma GreetingSpokenOnlyAsCompletion(personName: string, cfg: Config, outcome: Completion)
    requires SpokenText(Greeting(personName), cfg, outcome) == Greeting(personName)
    ensures RewriteConfigured(cfg) && outcome == Completed(Greeting(personName))
  {
    var g := Greeting(personName);
    var base := SubstituteCommand(g, cfg);
    var notSet, unreachable := base + Separator + NotSetMessage, base + Separator + UnreachableMessage;
    assert g[|g| - 1] == 'f';
    assert notSet[|notSet| - 1] == 't' && unreachable[|unreachable| - 1] == 'l';
  }

  /** A name can complete the update trigger with the template's own letters: for
      "Marcia" the 'c' and last 'a' of the name and the 't' of "bot" select the status
      reply, so the status reply is spoken instead of the greeting. */
  lemma GreetingCanSelectStatus(cfg: Config)
    ensures SubstituteCommand(Greeting("Marcia"), cfg) == cfg.status
  {
    var g := Greeting("Marcia");
    assert g[21] == 'c' && g[23] == 'a' && g[27] == 't';
    ScatteredUpdateTriggerSelectsStatus(g, cfg, 21, 23, 27);
  }

  // ---------------------------------------------------------------------------
  // Keyword-spotting log line

  const KeywordRecognizedPrefix: string := "Keyword recognized: "
  const NoMatchPrefix: string := "No match found: "

  /** The outcome of one keyword-spotting pass: whether the keyword was recognized, and
      the text the recognizer returned. */
  datatype KeywordResult = KeywordResult(recognized: bool, text: string)

  /** The line logged after a keyword-spotting pass. */
  function KeywordLogLine(r: KeywordResult): string
  {
    (if r.recognized then KeywordRecognizedPrefix else NoMatchPrefix) + r.text
  }

  /** Reads a keyword log line back; None for a line of any other form. */
  function ParseKeywordLogLine(line: string): Option<KeywordResult>
  {
    var n, m := |KeywordRecognizedPrefix|, |NoMatchPrefix|;
    if n <= |line| && line[..n] == KeywordRecognizedPrefix then
      Some(KeywordResult(true, line[n..]))
    else if m <= |line| && line[..m] == NoMatchPrefix then
      Some(KeywordResult(false, line[m..]))
    else
      None
  }

  /** A log line records the outcome and the recognized text without loss. */
  lemma KeywordLogLineRoundTrip(r: KeywordResult)
    ensures ParseKeywordLogLine(KeywordLogLine(r)) == Some(r)
  {
    var line := KeywordLogLine(r);
    if r.recognized {
      assert line[..|KeywordRecognizedPrefix|] == KeywordRecognizedPrefix;
      assert line[|KeywordRecognizedPrefix|..] == r.text;
    } else {
      assert line[0] == 'N' != KeywordRecognizedPrefix[0];
      assert line[..|NoMatchPrefix|] == NoMatchPrefix;
      assert line[|NoMatchPrefix|..] == r.text;
    }
  }

  /** Every line that reads back is the log line of what it reads back to. */
  lemma ParseKeywordLogLineSound(line: string, r: KeywordResult)
    requires ParseKeywordLogLine(line) == Some(r)
    ensures KeywordLogLine(r) == line
  {
  }
}
