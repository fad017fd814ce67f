/**
 * The command whitelist a limbo applies to its players' chat
 * (`SimpleLimboHandler.onChat`), and the messages that report a dispatched
 * command's failure. Chat that is not a command is ignored; a command is
 * dispatched only when its root word is on the limbo's command list.
 */
module ChatFilter {
  import opened Util
  import opened Text

  const CommandsDisabledMessage: string := "&cCommands are disabled in this limbo."
  const NotAvailableMessage: string := "&cThis command is not available here."
  const AuthPluginMessage: string :=
    "&cThis command requires a backend server connection. &7Auth plugins like JPremium may not work in limbo. Consider using LimboAuth instead."
  const CommandFailedPrefix: string := "&cCommand failed: "

  /** What `onChat` does with one chat line, besides marking activity. */
  datatype ChatOutcome =
    | Ignored
    | Rejected(message: string)
    | Dispatch(commandLine: string)

  /** The chat line is a command with something after the slash: not null,
      not blank, starts with "/", and non-empty once trimmed. */
  predicate IsCommand(chat: Option<string>) {
    chat.Some? && !IsBlank(chat.value) && StartsWith(chat.value, "/")
    && Trim(chat.value[1..]) != []
  }

  /** The text after the slash, trimmed: what is dispatched. */
  function CommandLine(chat: string): (line: string)
    requires StartsWith(chat, "/")
    ensures line == [] || (!IsTrimmable(line[0]) && !IsTrimmable(line[|line| - 1]))
  {
    Trim(chat[1..])
  }

  /** `commandLine.split("\\s+")[0].toLowerCase()`. */
  function CommandRoot(line: string): (root: string)
    ensures |root| <= |line|
    ensures root == Lower(line[..|root|])
    ensures |root| < |line| ==> IsRegexSpace(line[|root|])
  {
    Lower(FirstToken(line))
  }

  /** `allowedCommands.stream().anyMatch(cmd -> cmd.toLowerCase().equals(root))`,
      as the left-to-right search the stream performs. */
  function AnyMatches(allowed: seq<string>, root: string): (b: bool)
    ensures b <==> exists k :: 0 <= k < |allowed| && Lower(allowed[k]) == root
  {
    if allowed == [] then false
    else if Lower(allowed[0]) == root then true
    else
      var b := AnyMatches(allowed[1..], root);
      assert b ==> exists k :: 0 <= k < |allowed| && Lower(allowed[k]) == root by {
        if b {
          var k :| 0 <= k < |allowed[1..]| && Lower(allowed[1..][k]) == root;
          assert Lower(allowed[k + 1]) == root;
        }
      }
      assert (exists k :: 0 <= k < |allowed| && Lower(allowed[k]) == root) ==> b by {
        if exists k :: 0 <= k < |allowed| && Lower(allowed[k]) == root {
          var k :| 0 <= k < |allowed| && Lower(allowed[k]) == root;
          assert k != 0;
          assert Lower(allowed[1..][k - 1]) == root;
        }
      }
      b
  }

  /** The decision `onChat` takes on one chat line given the limbo's command list. */
  function Decide(chat: Option<string>, allowed: seq<string>): (r: ChatOutcome)
    ensures !IsCommand(chat) ==> r == Ignored
    ensures IsCommand(chat) && allowed == [] ==> r == Rejected(CommandsDisabledMessage)
    ensures IsCommand(chat) && allowed != [] && !AnyMatches(allowed, CommandRoot(CommandLine(chat.value))) ==>
      r == Rejected(NotAvailableMessage)
    ensures r.Dispatch? <==>
      IsCommand(chat) && AnyMatches(allowed, CommandRoot(CommandLine(chat.value)))
    ensures r.Dispatch? ==> r.commandLine == CommandLine(chat.value)
    ensures r.Rejected? ==> r.message == CommandsDisabledMessage || r.message == NotAvailableMessage
  {
    if !IsCommand(chat) then Ignored
    else
      var line := CommandLine(chat.value);
      if allowed == [] then Rejected(CommandsDisabledMessage)
      else if !AnyMatches(allowed, CommandRoot(line)) then Rejected(NotAvailableMessage)
      else Dispatch(line)
  }

  /** The case of a whitelist entry does not matter: two lists that agree
      entry by entry ignoring case decide every chat line alike. */
  lemma {:induction false} WhitelistIgnoresCase(chat: Option<string>, a: seq<string>, b: seq<string>)
    requires |a| == |b|
    requires forall k :: 0 <= k < |a| ==> EqualsIgnoreCase(a[k], b[k])
    ensures Decide(chat, a) == Decide(chat, b)
  {
    if IsCommand(chat) {
      var root := CommandRoot(CommandLine(chat.value));
      assert AnyMatches(a, root) == AnyMatches(b, root) by {
        if AnyMatches(a, root) {
          var k :| 0 <= k < |a| && Lower(a[k]) == root;
          assert Lower(b[k]) == root;
        }
        if AnyMatches(b, root) {
          var k :| 0 <= k < |b| && Lower(b[k]) == root;
          assert Lower(a[k]) == root;
        }
      }
    }
  }

  /** A slash followed by text with no trimmable character at either end is
      a command, and that text is its command line. */
  lemma SlashCommand(rest: string)
    requires rest != [] && !IsTrimmable(rest[0]) && !IsTrimmable(rest[|rest| - 1])
    ensures IsCommand(Some("/" + rest)) && CommandLine("/" + rest) == rest
  {
    var chat := "/" + rest;
    assert chat[1..] == rest;
    assert !IsBlank(chat) by {
      assert chat[0] == '/';
      assert !IsJavaWhitespace(chat[0]);
    }
  }

  /** A command is dispatched exactly when some allowed entry equals its first
      word ignoring case, whatever case the player typed it in. */
  lemma DispatchIffRootAllowed(chat: Option<string>, allowed: seq<string>)
    requires IsCommand(chat)
    ensures Decide(chat, allowed).Dispatch? <==>
      exists k :: 0 <= k < |allowed| && EqualsIgnoreCase(allowed[k], FirstToken(CommandLine(chat.value)))
  {
    var token := FirstToken(CommandLine(chat.value));
    if exists k :: 0 <= k < |allowed| && EqualsIgnoreCase(allowed[k], token) {
      var k :| 0 <= k < |allowed| && EqualsIgnoreCase(allowed[k], token);
      assert Lower(allowed[k]) == CommandRoot(CommandLine(chat.value));
    }
    if Decide(chat, allowed).Dispatch? {
      var k :| 0 <= k < |allowed| && Lower(allowed[k]) == CommandRoot(CommandLine(chat.value));
      assert EqualsIgnoreCase(allowed[k], token);
    }
  }

  /** With no allowed commands, "/help me" is refused as disabled. */
  lemma ExampleNoCommands()
    ensures Decide(Some("/help me"), []) == Rejected(CommandsDisabledMessage)
  {
    SlashCommand("help me");
    assert "/help me" == "/" + "help me";
  }

  /** With "help" allowed, "/help me" is dispatched with its argument. */
  lemma ExampleHelpWithArgument()
    ensures Decide(Some("/help me"), ["help"]) == Dispatch("help me")
  {
    SlashCommand("help me");
    assert "/help me" == "/" + "help me";
    assert CommandRoot("help me") == "help" by {
      assert FirstToken("help me") == "help";
    }
    assert AnyMatches(["help"], "help");
  }

  /** With "help" allowed, "/HELP" is dispatched as typed. */
  lemma ExampleUpperCaseRoot()
    ensures Decide(Some("/HELP"), ["help"]) == Dispatch("HELP")
  {
    SlashCommand("HELP");
    assert "/HELP" == "/" + "HELP";
    assert CommandRoot("HELP") == "help";
    assert AnyMatches(["help"], "help");
  }

  /** With "help" allowed, "/other" is refused as not available. */
  lemma ExampleOtherRefused()
    ensures Decide(Some("/other"), ["help"]) == Rejected(NotAvailableMessage)
  {
    SlashCommand("other");
    assert "/other" == "/" + "other";
    assert CommandRoot("other") == "other";
    assert !AnyMatches(["help"], "other") by {
      assert "help" != "other";
    }
  }

  /** Chat that does not start with "/" is ignored. */
  lemma ExampleChatIgnored()
    ensures Decide(Some("hello /help"), ["help"]) == Ignored
  {
    assert !StartsWith("hello /help", "/") by {
      assert "hello /help"[0] != "/"[0];
    }
  }

  /** The failure a dispatched command completes with: whether the exception,
      or the exception's cause, is a `NullPointerException`, and its message. */
  datatype Failure = Failure(isNullPointer: bool, causeIsNullPointer: bool, message: Option<string>)

  /** The message the `whenComplete` callback sends the player; none on success. */
  function CompletionMessage(failure: Option<Failure>): (r: Option<string>)
    ensures failure.None? <==> r.None?
    ensures failure.Some? && (failure.value.isNullPointer || failure.value.causeIsNullPointer) ==>
      r == Some(AuthPluginMessage)
    ensures failure.Some? && !failure.value.isNullPointer && !failure.value.causeIsNullPointer ==>
      r.Some? && StartsWith(r.value, CommandFailedPrefix)
      && r.value[|CommandFailedPrefix|..] == failure.value.message.GetOr("null")
  {
    match failure
    case None => None
    case Some(f) =>
      if f.isNullPointer || f.causeIsNullPointer then Some(AuthPluginMessage)
      else Some(CommandFailedPrefix + f.message.GetOr("null"))
  }
}
