/**
 * The string helpers of utils.py: `truncate_text`, `sanitize_agent_name`,
 * `handle_error` and `format_agent_info`.
 */
module Utils {
  import opened Values
  import opened Text

  // ---------------------------------------------------------------- truncate_text

  /**
   * `text[:stop]` with Python's slice rules: a prefix of `text`, as long as `stop`
   * when that is in range, counted from the end when `stop` is negative, clamped at both ends.
   */
  function SliceTo(text: string, stop: int): (r: string)
    ensures IsPrefix(r, text)
    ensures 0 <= stop <= |text| ==> |r| == stop
    ensures |text| < stop ==> r == text
    ensures -|text| <= stop < 0 ==> |r| == |text| + stop
    ensures stop < -|text| ==> r == []
  {
    if 0 <= stop then text[..if stop < |text| then stop else |text|]
    else text[..if |text| + stop < 0 then 0 else |text| + stop]
  }

  /** The default `max_length` of `truncate_text`. */
  const DefaultMaxLength: int := 100

  /** `truncate_text(text, max_length)`. */
  function TruncateText(text: string, maxLength: int): (r: string)
    ensures |text| <= maxLength ==> r == text
    ensures maxLength < |text| ==> 3 <= |r| && IsPrefix(r[..|r| - 3], text) && r[|r| - 3..] == "..."
    ensures maxLength < |text| && 3 <= maxLength ==> |r| == maxLength
    ensures |r| <= maxLength <==> |text| <= maxLength || 3 <= maxLength
  {
    if |text| <= maxLength then text
    else SliceTo(text, maxLength - 3) + "..."
  }

  /** `truncate_text(text)` with the default limit: at most 100 characters. */
  function TruncateTextDefault(text: string): (r: string)
    ensures |r| <= DefaultMaxLength
    ensures |text| <= DefaultMaxLength <==> r == text
  {
    TruncateText(text, DefaultMaxLength)
  }

  // ---------------------------------------------------------- sanitize_agent_name

  /** The class `[a-zA-Z0-9_]`. */
  predicate IsWordChar(c: char) { IsAlnum(c) || c == '_' }

  /** `re.sub(r'[^a-zA-Z0-9_]', '', s)`: keep the word characters, in order. */
  function KeepWordChars(s: string): (r: string)
    ensures |r| <= |s|
    ensures forall i :: 0 <= i < |r| ==> IsWordChar(r[i])
    ensures forall c :: c in r <==> c in s && IsWordChar(c)
  {
    if s == [] then []
    else if IsWordChar(s[0]) then [s[0]] + KeepWordChars(s[1..])
    else KeepWordChars(s[1..])
  }

  /** The filter works character by character: it distributes over concatenation. */
  lemma {:induction false} KeepWordCharsAppend(a: string, b: string)
    ensures KeepWordChars(a + b) == KeepWordChars(a) + KeepWordChars(b)
    decreases |a|
  {
    if a != [] {
      KeepWordCharsAppend(a[1..], b);
      assert (a + b)[1..] == a[1..] + b;
    } else {
      assert a + b == b;
    }
  }

  /** A single character is kept exactly when it is a word character. */
  lemma KeepWordCharsSingle(c: char)
    ensures KeepWordChars([c]) == if IsWordChar(c) then [c] else []
  {
    assert [c][1..] == [];
  }

  /** A text of word characters only is left alone by the filter. */
  lemma {:induction false} KeepWordCharsFixed(s: string)
    requires forall i :: 0 <= i < |s| ==> IsWordChar(s[i])
    ensures KeepWordChars(s) == s
  {
    if s != [] {
      KeepWordCharsFixed(s[1..]);
      assert s == [s[0]] + s[1..];
    }
  }

  /** The name before the final `or 'DefaultAgent'`. */
  function Prefixed(name: string): (r: string)
    ensures r == KeepWordChars(name) || r == "Agent" + KeepWordChars(name)
  {
    var kept := KeepWordChars(name);
    var lettered := if kept != [] && !IsLetter(kept[0]) then "Agent" + kept else kept;
    if |lettered| < 3 then "Agent" + lettered else lettered
  }

  /** `sanitize_agent_name(name)`. */
  function SanitizeAgentName(name: string): (r: string)
    ensures forall i :: 0 <= i < |r| ==> IsWordChar(r[i])
    ensures 3 <= |r| && IsLetter(r[0])
    ensures KeepWordChars(name) == [] ==> r == "Agent"
  {
    var p := Prefixed(name);
    if p != [] then p else "DefaultAgent"
  }

  /** The `'DefaultAgent'` fallback is never taken: the name is non-empty before it. */
  lemma DefaultAgentUnreachable(name: string)
    ensures Prefixed(name) != []
    ensures SanitizeAgentName(name) == Prefixed(name)
  {
  }

  /**
   * The valid characters of the input survive, in order, at the end of the
   * sanitised name; `"Agent"` is put in front exactly when they do not already
   * form a name of three or more characters starting with a letter, and never twice.
   */
  lemma SanitizeKeepsWordChars(name: string)
    ensures var kept := KeepWordChars(name);
      SanitizeAgentName(name) == (if 3 <= |kept| && IsLetter(kept[0]) then kept else "Agent" + kept)
  {
  }

  /** Sanitising a sanitised name changes nothing. */
  lemma SanitizeIdempotent(name: string)
    ensures SanitizeAgentName(SanitizeAgentName(name)) == SanitizeAgentName(name)
  {
    var r := SanitizeAgentName(name);
    KeepWordCharsFixed(r);
  }

  /** A name that is already valid comes back unchanged. */
  lemma SanitizeValid(name: string)
    requires forall i :: 0 <= i < |name| ==> IsWordChar(name[i])
    requires 3 <= |name| && IsLetter(name[0])
    ensures SanitizeAgentName(name) == name
  {
    KeepWordCharsFixed(name);
  }

  // ------------------------------------------------------------------ handle_error

  // Each message is split after its first word so that its leading characters stay visible to the verifier.
  const ApiMessage: string := "\U{274C} API" + " connection issue. Please check your GEMINI_API_KEY."
  const TimeoutMessage: string := "\U{23F0} Request" + " timed out. Please try again."
  const ParseMessage: string := "\U{1F527} Data" + " parsing error. The system will retry automatically."
  const GenericPrefix: string := "\U{274C} An" + " error occurred: "

  /** The API case: `"API"` as written, or `"key"` in any case. */
  predicate MentionsApi(message: string)
  {
    Contains(message, "API") || Contains(Lower(message), "key")
  }

  /** `handle_error(error)` on `str(error) == message`; the logging is left out. */
  function HandleError(message: string): (r: string)
    ensures r == ApiMessage || r == TimeoutMessage || r == ParseMessage || r == GenericPrefix + message
  {
    if MentionsApi(message) then ApiMessage
    else if Contains(Lower(message), "timeout") then TimeoutMessage
    else if Contains(Lower(message), "json") then ParseMessage
    else GenericPrefix + message
  }

  /** The fixed messages are never mistaken for the generic one. */
  lemma FixedMessagesAreNotGeneric(message: string)
    ensures ApiMessage != GenericPrefix + message
    ensures TimeoutMessage != GenericPrefix + message
    ensures ParseMessage != GenericPrefix + message
  {
    var g := GenericPrefix + message;
    assert g[3] == GenericPrefix[3] == 'n';
    assert ApiMessage[3] == 'P';
    assert g[0] == GenericPrefix[0] == '\U{274C}';
    assert TimeoutMessage[0] == '\U{23F0}';
    assert ParseMessage[0] == '\U{1F527}';
  }

  /** The error text is echoed exactly when no keyword matches. */
  lemma HandleErrorEchoesIff(message: string)
    ensures HandleError(message) == GenericPrefix + message <==>
      !MentionsApi(message) && !Contains(Lower(message), "timeout") && !Contains(Lower(message), "json")
  {
    FixedMessagesAreNotGeneric(message);
  }

  /** The API case wins over the others, and the timeout case over the parse case. */
  lemma HandleErrorPriority(message: string)
    ensures MentionsApi(message) ==> HandleError(message) == ApiMessage
    ensures Contains(Lower(message), "timeout") && !MentionsApi(message) ==> HandleError(message) == TimeoutMessage
    ensures Contains(Lower(message), "json") && !Contains(Lower(message), "timeout") && !MentionsApi(message)
      ==> HandleError(message) == ParseMessage
  {
  }

  // ------------------------------------------------------------- format_agent_info

  /** The four-line card `format_agent_info` returns, from the four shown fields. */
  function Card(name: string, taskType: string, description: string, createdBy: string): string
  {
    "\n\U{1F916} Agent: " + name +
    "\n\U{1F4CB} Type: " + taskType +
    "\n\U{1F4DD} Description: " + description +
    "\n\U{1F464} Created by: " + createdBy + "\n"
  }

  /** The four keys `format_agent_info` reads, with their defaults. */
  function CardDefaults(): Dict
  {
    map["name" := Str("Unknown"), "description" := Str("No description"),
        "task_type" := Str("general"), "created_by" := Str("Unknown")]
  }

  /** `format_agent_info(agent)`. */
  function FormatAgentInfo(agent: Dict): string
  {
    Card(Show(GetOr(agent, "name", Str("Unknown"))),
         Show(GetOr(agent, "task_type", Str("general"))),
         Show(GetOr(agent, "description", Str("No description"))),
         Show(GetOr(agent, "created_by", Str("Unknown"))))
  }

  /** Missing keys are shown with their defaults: filling them in first changes nothing. */
  lemma FormatUsesDefaults(agent: Dict)
    ensures FormatAgentInfo(agent) == FormatAgentInfo(CardDefaults() + agent)
    ensures FormatAgentInfo(map[]) == Card("Unknown", "general", "No description", "Unknown")
  {
  }

  /** Keys other than the four shown do not affect the card. */
  lemma FormatIgnoresOtherKeys(agent: Dict, key: string, v: Value)
    requires key !in CardDefaults()
    ensures FormatAgentInfo(agent[key := v]) == FormatAgentInfo(agent)
  {
  }
}
