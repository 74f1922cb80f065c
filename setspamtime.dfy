/**
 * commands/admin/setspamtime.js: set `config.messageCooldown` from an
 * argument of the form `Nsec` (1..60 seconds) or `Nmin` (1..10 minutes).
 * The command authorizes on its own, against the owner id and the trust
 * file, whose entries are given as the ids with a truthy entry (none when
 * the file is missing or unreadable).
 */
module SetSpamTime {
  import opened Wrappers
  import opened Store
  import Js
  import Client
  import MessageHandler

  datatype SpamError = Unauthorized | Usage | BadSeconds | BadMinutes | BadFormat

  predicate Authorized(config: Client.Config, author: UserId, trustFile: set<UserId>) {
    author == config.ownerId || author in trustFile
  }

  /**
   * The parse of the lower-cased argument: a `sec` or `min` ending selects the
   * unit, the first occurrence of the unit word is cut out, and parseInt of
   * the rest must land in range.
   */
  function Parse(arg: string): Result<nat, SpamError> {
    var input := Js.Lower(arg);
    if Js.EndsWith(input, "sec") then
      var n := Js.ParseInt(Js.ReplaceFirst(input, "sec"));
      if n.None? || n.value < 1 || n.value > 60 then Failure(BadSeconds) else Success(n.value as nat)
    else if Js.EndsWith(input, "min") then
      var n := Js.ParseInt(Js.ReplaceFirst(input, "min"));
      if n.None? || n.value < 1 || n.value > 10 then Failure(BadMinutes) else Success(n.value as nat * 60)
    else Failure(BadFormat)
  }

  /** The command's answer: the new cooldown in seconds, or why it was refused. */
  function Run(config: Client.Config, author: UserId, trustFile: set<UserId>, args: seq<string>): Result<nat, SpamError> {
    if !Authorized(config, author, trustFile) then Failure(Unauthorized)
    else if |args| == 0 || args[0] == "" then Failure(Usage)
    else Parse(args[0])
  }

  /** execute: an accepted value replaces `messageCooldown` and nothing else; a refusal changes nothing. */
  method Execute(bot: Client.Bot, author: UserId, trustFile: set<UserId>, args: seq<string>)
    returns (r: Result<nat, SpamError>)
    modifies bot
    ensures r == Run(old(bot.config), author, trustFile, args)
    ensures bot.config == (if r.Success? then old(bot.config).(messageCooldown := Some(r.value as int)) else old(bot.config))
    ensures bot.boost == old(bot.boost) && bot.timers == old(bot.timers)
    ensures bot.commands == old(bot.commands) && bot.adminCommands == old(bot.adminCommands)
  {
    r := Run(bot.config, author, trustFile, args);
    if r.Success? {
      bot.config := bot.config.(messageCooldown := Some(r.value as int));
    }
  }

  // ---- lemmas ----

  /** Every accepted cooldown lies between 1 second and 10 minutes, and only an authorized caller gets one. */
  lemma AcceptedBounds(config: Client.Config, author: UserId, trustFile: set<UserId>, args: seq<string>)
    ensures var r := Run(config, author, trustFile, args);
      r.Success? ==> 1 <= r.value <= 600 && Authorized(config, author, trustFile) && |args| > 0
  {
  }

  /** The argument is case-insensitive. */
  lemma CaseInsensitive(arg: string)
    ensures Parse(arg) == Parse(Js.Lower(arg))
  {
    assert Js.Lower(Js.Lower(arg)) == Js.Lower(arg);
  }

  /** `Nsec` for N in 1..60 is N seconds. */
  lemma Seconds(n: nat)
    requires 1 <= n <= 60
    ensures Parse(Js.DecimalString(n) + "sec") == Success(n)
  {
    var d := Js.DecimalString(n);
    Js.DecimalStringDigits(n);
    Js.LowerOfDigitsAnd(d, "sec");
    Js.ReplaceFirstAfterDigits(d, "sec");
    Js.ParseIntDecimal(n, "");
    assert d + "" == d;
  }

  /** `Nmin` for N in 1..10 is 60 N seconds. */
  lemma Minutes(n: nat)
    requires 1 <= n <= 10
    ensures Parse(Js.DecimalString(n) + "min") == Success(60 * n)
  {
    var d := Js.DecimalString(n);
    Js.DecimalStringDigits(n);
    Js.LowerOfDigitsAnd(d, "min");
    Js.ReplaceFirstAfterDigits(d, "min");
    Js.ParseIntDecimal(n, "");
    assert d + "" == d;
    assert !Js.EndsWith(d + "min", "sec");
  }

  /**
   * Only the first `sec` is cut out: "5sec5sec" reads as "55sec" and is
   * accepted as 55 seconds.
   */
  lemma FirstSuffixOnly()
    ensures Parse("5sec5sec") == Success(55)
  {
    FirstSecLowered();
    FirstSecCut();
    FiftyFiveSecParsed();
  }

  /** The argument is already lower case and ends in "sec". */
  lemma FirstSecLowered()
    ensures Js.Lower("5sec5sec") == "5sec5sec" && Js.EndsWith("5sec5sec", "sec")
  {
    var input := "5sec5sec";
    Js.LowerOfDigitsAnd("5", "sec5sec");
    assert "5" + "sec5sec" == input;
    assert input[|input| - 3..] == "sec";
  }

  /** The parseInt step of FirstSuffixOnly: "55sec" reads as 55. */
  lemma FiftyFiveSecParsed()
    ensures Js.ParseInt("55sec") == Some(55)
  {
    Js.ParseIntDecimal(55, "sec");
    FiftyFiveRendered();
    assert Js.DecimalString(55) + "sec" == "55sec";
  }

  /** The rendering step of FiftyFiveSecParsed: `${55}` is "55". */
  lemma FiftyFiveRendered()
    ensures Js.DecimalString(55) == "55"
  {
    var five := Js.DigitChar(5);
    assert five == '5';
    assert Js.DecimalString(5) == [five];
    assert Js.DecimalString(55) == Js.DecimalString(5) + [Js.DigitChar(5)];
  }

  /** The `replace` step of FirstSuffixOnly: the first "sec" follows the leading digit. */
  lemma FirstSecCut()
    ensures Js.ReplaceFirst("5sec5sec", "sec") == "55sec"
  {
    var input := "5sec5sec";
    assert input[..3] != "sec" by { assert input[0] == '5'; }
    assert input[1..] == "sec5sec";
    assert Js.ReplaceFirst("sec5sec", "sec") == "5sec" by {
      assert "sec5sec"[..3] == "sec";
      assert "sec5sec"[3..] == "5sec";
    }
    assert [input[0]] + "5sec" == "55sec";
  }

  /** A seconds count past 60 is refused, and the stored value stays as it was. */
  lemma TooManySeconds(n: nat)
    requires n > 60
    ensures Parse(Js.DecimalString(n) + "sec") == Failure(BadSeconds)
  {
    var d := Js.DecimalString(n);
    Js.DecimalStringDigits(n);
    Js.LowerOfDigitsAnd(d, "sec");
    Js.ReplaceFirstAfterDigits(d, "sec");
    Js.ParseIntDecimal(n, "");
    assert d + "" == d;
  }

  /**
   * The value written is `messageCooldown`, while the reward gate reads
   * `messageRewardCooldown`: setting it leaves every reward decision as it was.
   */
  lemma RewardGateUnaffected(config: Client.Config, v: int, last: map<UserId, nat>, msg: MessageHandler.Message, now: nat)
    ensures MessageHandler.Skips(last, config.(messageCooldown := Some(v)), msg, now) ==
            MessageHandler.Skips(last, config, msg, now)
  {
  }
}
