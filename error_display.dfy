/** `getErrorSolutions`: the list of suggestions the error dialog shows for
    an error message, chosen by words in the lower-cased message. */
module ErrorDisplay {
  import opened Wrappers
  import opened JsString

  datatype Icon = ErrorIcon | CheckIcon | RefreshIcon | HelpIcon

  /** What a suggestion's button does when clicked. */
  datatype Effect = OpenUrl(url: string) | CallRetry

  /** A button: its `label` (a reserved word in Dafny, hence `caption`) and its click. */
  datatype Action = Action(caption: string, effect: Effect)

  datatype Solution = Solution(title: string, description: string, icon: Icon, action: Option<Action>)

  const CheckDiscordTitle: string := "Vérifier Discord"
  const RefreshTitle: string := "Rafraîchir l'application"
  const DiscordMissingTitle: string := "Discord non détecté"
  const ConnectionTitle: string := "Problème de connexion"
  const UnexpectedTitle: string := "Erreur inattendue"
  const HelpTitle: string := "Besoin d'aide ?"
  const DocumentationUrl: string := "https://github.com/votre-repo/richify/wiki"

  const CheckDiscordText: string := "Assurez-vous que Discord est en cours d'exécution et que vous êtes connecté."
  const RefreshText: string := "Actualisez la liste des applications et la connexion Discord."
  const DiscordMissingText: string := "Discord doit être en cours d'exécution pour utiliser Rich Presence."
  const ConnectionText: string := "Vérifiez votre connexion Internet et réessayez."
  const UnexpectedText: string := "Une erreur inattendue s'est produite. Voici quelques solutions possibles."
  const HelpText: string := "Si le problème persiste, consultez notre documentation ou contactez le support."

  const OpenDiscord: Action := Action("Ouvrir Discord", OpenUrl("discord://"))
  const Retry: Action := Action("Rafraîchir", CallRetry)
  const OpenDocumentation: Action := Action("Documentation", OpenUrl(DocumentationUrl))

  const CheckDiscord: Solution := Solution(CheckDiscordTitle, CheckDiscordText, CheckIcon, Some(OpenDiscord))
  const DiscordMissing: Solution := Solution(DiscordMissingTitle, DiscordMissingText, ErrorIcon, None)
  const ConnectionProblem: Solution := Solution(ConnectionTitle, ConnectionText, ErrorIcon, None)
  const Unexpected: Solution := Solution(UnexpectedTitle, UnexpectedText, ErrorIcon, None)
  const Help: Solution := Solution(HelpTitle, HelpText, HelpIcon, Some(OpenDocumentation))

  /** The two suggestions every list shows: check Discord (with a button
      opening it), and refresh (with a button only when there is a retry
      callback). */
  function CommonSolutions(hasRetry: bool): (cs: seq<Solution>)
    ensures |cs| == 2 && cs[0].title == CheckDiscordTitle && cs[1].title == RefreshTitle
    ensures cs[0].action == Some(OpenDiscord)
    ensures cs[1].action.Some? <==> hasRetry
    ensures hasRetry ==> cs[1].action == Some(Retry)
  {
    [CheckDiscord, Solution(RefreshTitle, RefreshText, RefreshIcon, if hasRetry then Some(Retry) else None)]
  }

  /** `getErrorSolutions(error, onRetry)`: a diagnosis chosen by what the
      lower-cased message mentions, the two common entries, and a help entry
      for an unrecognised message. */
  function GetErrorSolutions(error: string, hasRetry: bool): (ss: seq<Solution>)
    ensures |ss| == 3 || |ss| == 4
    ensures ss[0].action.None?
  {
    var lower := ToLower(error);
    if Contains(lower, "discord") then [DiscordMissing] + CommonSolutions(hasRetry)
    else if Contains(lower, "connection") then [ConnectionProblem] + CommonSolutions(hasRetry)
    else [Unexpected] + CommonSolutions(hasRetry) + [Help]
  }

  function Titles(ss: seq<Solution>): (ts: seq<string>)
    ensures |ts| == |ss| && forall k :: 0 <= k < |ss| ==> ts[k] == ss[k].title
  {
    seq(|ss|, k requires 0 <= k < |ss| => ss[k].title)
  }

  /** A message mentioning Discord, in any case, gets the Discord
      suggestions, even when it also mentions the connection. */
  lemma DiscordErrors(error: string, hasRetry: bool)
    requires Contains(ToLower(error), "discord")
    ensures Titles(GetErrorSolutions(error, hasRetry)) == [DiscordMissingTitle, CheckDiscordTitle, RefreshTitle]
  {
  }

  /** Otherwise a message mentioning the connection gets the connection
      suggestions. */
  lemma ConnectionErrors(error: string, hasRetry: bool)
    requires !Contains(ToLower(error), "discord") && Contains(ToLower(error), "connection")
    ensures Titles(GetErrorSolutions(error, hasRetry)) == [ConnectionTitle, CheckDiscordTitle, RefreshTitle]
  {
  }

  /** Any other message gets four suggestions, from the unexpected error to
      the help entry, whose button opens the documentation. */
  lemma OtherErrors(error: string, hasRetry: bool)
    requires !Contains(ToLower(error), "discord") && !Contains(ToLower(error), "connection")
    ensures var ss := GetErrorSolutions(error, hasRetry);
      && Titles(ss) == [UnexpectedTitle, CheckDiscordTitle, RefreshTitle, HelpTitle]
      && ss[3].action == Some(OpenDocumentation) && OpenDocumentation.effect == OpenUrl(DocumentationUrl)
  {
  }

  /** In every list: the first entry is the diagnosis and has no button,
      the two common entries follow it in order, the refresh entry has a
      button exactly when a retry callback is given, and the list has three
      or four entries. */
  lemma SolutionsShape(error: string, hasRetry: bool)
    ensures var ss := GetErrorSolutions(error, hasRetry);
      && (|ss| == 3 || |ss| == 4)
      && ss[0].action.None? && ss[0].icon == ErrorIcon
      && ss[1..3] == CommonSolutions(hasRetry)
      && (ss[2].action.Some? <==> hasRetry)
      && (|ss| == 4 <==> !Contains(ToLower(error), "discord") && !Contains(ToLower(error), "connection"))
  {
    var ss := GetErrorSolutions(error, hasRetry);
    var cs := CommonSolutions(hasRetry);
    var lower := ToLower(error);
    if Contains(lower, "discord") || Contains(lower, "connection") {
      assert ss == [ss[0]] + cs;
    } else {
      assert ss == [ss[0]] + cs + [ss[3]];
    }
    assert ss[1..3] == cs;
  }

  /** The retry callback is reachable from exactly one button, and only
      when it is given. */
  lemma RetryOnlyWhenGiven(error: string, hasRetry: bool)
    ensures var ss := GetErrorSolutions(error, hasRetry);
      forall k :: 0 <= k < |ss| && ss[k].action.Some? && ss[k].action.value.effect == CallRetry
        ==> k == 2 && hasRetry
  {
    SolutionsShape(error, hasRetry);
    var ss := GetErrorSolutions(error, hasRetry);
    assert |ss| == 4 ==> ss[3] == Help;
  }
}
