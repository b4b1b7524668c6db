/** Configuration checks of the council: the module-level settings
    (`OPENCODE_API_KEY`, `COUNCIL_MODELS`, `CHAIRMAN_MODEL`, `MIN_COUNCIL_MODELS`)
    are parameters here. */
module Config {
  import opened Wrappers
  import opened PyStr

  /** `MIN_COUNCIL_MODELS`. */
  const MinCouncilModels: int := 2

  /** The shipped `COUNCIL_MODELS` and `CHAIRMAN_MODEL`. */
  const DefaultCouncil: seq<string> := ["gpt-5.2", "claude-sonnet-4-5", "gemini-3-pro", "qwen3-coder", "gpt-5.1-codex"]
  const DefaultChairman: Option<string> := Some("gpt-5.2")

  const ApiKeyMessage := "OPENCODE_API_KEY is not set. Please configure your API key in .env file."
  const EmptyCouncilMessage := "COUNCIL_MODELS is empty. At least 2 council models are required."
  const ChairmanMessage := "CHAIRMAN_MODEL is not set. A chairman model is required to synthesize the final response."

  /** The message for a council that is too small, naming the minimum and the size. */
  function TooFewMessage(minimum: int, count: nat): (m: string)
    ensures |m| >= 12 + |NatToString(count)|
    ensures m[|m| - 12..] == " configured."
    ensures m[|m| - 12 - |NatToString(count)|..|m| - 12] == NatToString(count)
    ensures StartsWith(m, "At least " + IntToString(minimum))
  {
    var front := "At least " + IntToString(minimum)
                 + " council models are required for meaningful peer review, but only ";
    var m := front + NatToString(count) + " configured.";
    assert |" configured."| == 12;
    assert m[|front|..|front| + |NatToString(count)|] == NatToString(count);
    var head := "At least " + IntToString(minimum);
    assert m == head + (" council models are required for meaningful peer review, but only "
                        + NatToString(count) + " configured.");
    assert m[..|head|] == head;
    m
  }

  /** The `(is_valid, error_message)` pair. */
  datatype Validation = Validation(isValid: bool, message: string)

  /** `validate_config`: the checks in order (API key, then an empty council, then
      its size, then the chairman); the first that fails decides the message. */
  function ValidateConfig(apiKey: Option<string>, council: seq<string>, chairman: Option<string>, minimum: int)
    : (r: Validation)
    ensures r.isValid <==> Truthy(apiKey) && council != [] && |council| >= minimum && Truthy(chairman)
    ensures r.isValid <==> r.message == ""
  {
    if !Truthy(apiKey) then Validation(false, ApiKeyMessage)
    else if council == [] then Validation(false, EmptyCouncilMessage)
    else if |council| < minimum then Validation(false, TooFewMessage(minimum, |council|))
    else if !Truthy(chairman) then Validation(false, ChairmanMessage)
    else Validation(true, "")
  }

  /** The three fixed messages differ from each other, so each names its check. */
  lemma MessagesDistinct()
    ensures ApiKeyMessage != EmptyCouncilMessage && ApiKeyMessage != ChairmanMessage
    ensures EmptyCouncilMessage != ChairmanMessage
  {
  }

  /** Which check reports: a missing or empty key whatever else is set; with a key,
      an empty council by its own message, not the size message; then a council
      below the minimum; then a missing chairman. */
  lemma FirstFailingCheckWins(apiKey: Option<string>, council: seq<string>, chairman: Option<string>, minimum: int)
    ensures var r := ValidateConfig(apiKey, council, chairman, minimum);
            && (!Truthy(apiKey) ==> r == Validation(false, ApiKeyMessage))
            && (Truthy(apiKey) && council == [] ==> r == Validation(false, EmptyCouncilMessage))
            && ((Truthy(apiKey) && council != [] && |council| < minimum)
                  ==> r == Validation(false, TooFewMessage(minimum, |council|)))
            && ((Truthy(apiKey) && council != [] && |council| >= minimum && !Truthy(chairman))
                  ==> r == Validation(false, ChairmanMessage))
  {
  }

  /** With a positive minimum, such as `MinCouncilModels`, the empty-council
      check is subsumed: the configuration is valid exactly when the key is set,
      the council reaches the minimum and the chairman is set. */
  lemma ValidIffWithPositiveMinimum(apiKey: Option<string>, council: seq<string>, chairman: Option<string>, minimum: int)
    requires minimum >= 1
    ensures ValidateConfig(apiKey, council, chairman, minimum) == Validation(true, "")
            <==> Truthy(apiKey) && |council| >= minimum && Truthy(chairman)
  {
  }

  /** The size message reports the council size: the digits just before
      " configured." read back to it. */
  lemma TooFewMessageReportsCount(minimum: int, count: nat)
    ensures var m := TooFewMessage(minimum, count);
            DecimalValue(m[|m| - 12 - |NatToString(count)|..|m| - 12]) == count
  {
    NatToStringRoundTrip(count);
  }

  /** The size message reports the minimum too: for a minimum that is not
      negative, the digits right after "At least " read back to it. */
  lemma TooFewMessageReportsMinimum(minimum: int, count: nat)
    requires minimum >= 0
    ensures var m := TooFewMessage(minimum, count);
            && 9 + |NatToString(minimum)| <= |m|
            && DecimalValue(m[9..9 + |NatToString(minimum)|]) == minimum
  {
    NatToStringRoundTrip(minimum);
    var m := TooFewMessage(minimum, count);
    var head := "At least " + NatToString(minimum);
    assert m[..|head|] == head;
    assert m[9..9 + |NatToString(minimum)|] == head[9..];
  }

  /** With the shipped council of five and its chairman, and the minimum of 2,
      the configuration is valid exactly when the API key is set, and otherwise
      it is the key message that is reported. */
  lemma DefaultConfigValid(apiKey: Option<string>)
    ensures ValidateConfig(apiKey, DefaultCouncil, DefaultChairman, MinCouncilModels)
            == if Truthy(apiKey) then Validation(true, "") else Validation(false, ApiKeyMessage)
  {
    assert |DefaultCouncil| == 5;
  }

  /** What `get_config_info` reports. */
  datatype ConfigInfo = ConfigInfo(
    councilModels: seq<string>,
    councilModelsCount: nat,
    chairmanModel: Option<string>,
    minRequiredModels: int,
    isValid: bool)

  /** `get_config_info`: the settings, the council's size and the validity flag of
      `validate_config`. */
  function GetConfigInfo(apiKey: Option<string>, council: seq<string>, chairman: Option<string>, minimum: int)
    : (r: ConfigInfo)
    ensures r.councilModels == council && r.councilModelsCount == |council|
    ensures r.chairmanModel == chairman && r.minRequiredModels == minimum
    ensures r.isValid == ValidateConfig(apiKey, council, chairman, minimum).isValid
    ensures r.isValid <==> Truthy(apiKey) && council != [] && |council| >= minimum && Truthy(chairman)
  {
    ConfigInfo(council, |council|, chairman, minimum, ValidateConfig(apiKey, council, chairman, minimum).isValid)
  }
}
