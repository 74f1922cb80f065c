/**
 * commands/admin/setmessagesneeded.js: set `config.coinsPerMessages` from a
 * numeric argument whose parseInt lies in 1..100. The argument must pass
 * `isNaN` (Number conversion of the whole text) and is then read by
 * parseInt, so a text Number accepts but parseInt cannot read, such as
 * ".5", passes both checks with NaN, which is stored (None here; it is
 * written to config.json as null).
 */
module SetMessagesNeeded {
  import opened Wrappers
  import opened Store
  import Js
  import Client
  import SetSpamTime

  datatype NeededError = Unauthorized | Usage | OutOfRange

  /** The command's answer: the value stored (None for NaN), or why it was refused. */
  function Run(config: Client.Config, author: UserId, trustFile: set<UserId>, args: seq<string>): Result<Option<int>, NeededError> {
    if !SetSpamTime.Authorized(config, author, trustFile) then Failure(Unauthorized)
    else if |args| == 0 || args[0] == "" || Js.IsNaNString(args[0]) then Failure(Usage)
    else
      var n := Js.ParseInt(args[0]);
      // Both comparisons are false for NaN.
      if n.Some? && (n.value < 1 || n.value > 100) then Failure(OutOfRange)
      else Success(n)
  }

  /** execute: an accepted value replaces `coinsPerMessages` and nothing else; a refusal changes nothing. */
  method Execute(bot: Client.Bot, author: UserId, trustFile: set<UserId>, args: seq<string>)
    returns (r: Result<Option<int>, NeededError>)
    modifies bot
    ensures r == Run(old(bot.config), author, trustFile, args)
    ensures bot.config == (if r.Success? then old(bot.config).(coinsPerMessages := r.value) else old(bot.config))
    ensures bot.boost == old(bot.boost) && bot.timers == old(bot.timers)
    ensures bot.commands == old(bot.commands) && bot.adminCommands == old(bot.adminCommands)
  {
    r := Run(bot.config, author, trustFile, args);
    if r.Success? {
      bot.config := bot.config.(coinsPerMessages := r.value);
    }
  }

  // ---- lemmas ----

  /** A stored number lies in 1..100, and only an authorized caller with a numeric argument stores anything. */
  lemma AcceptedBounds(config: Client.Config, author: UserId, trustFile: set<UserId>, args: seq<string>)
    ensures var r := Run(config, author, trustFile, args);
      r.Success? ==>
        SetSpamTime.Authorized(config, author, trustFile) && |args| > 0 && !Js.IsNaNString(args[0]) &&
        (r.value.Some? ==> 1 <= r.value.value <= 100)
  {
  }

  /** A plain decimal number is accepted exactly when it lies in 1..100. */
  lemma Decimal(config: Client.Config, n: nat)
    ensures Run(config, config.ownerId, {}, [Js.DecimalString(n)]) ==
      (if 1 <= n <= 100 then Success(Some(n)) else Failure(OutOfRange))
  {
    var d := Js.DecimalString(n);
    Js.DecimalStringDigits(n);
    DigitsNumeric(d);
    Js.ParseIntDecimal(n, "");
    assert d + "" == d;
  }

  /** A fraction is cut to its integer part: `n.f` is accepted as n when n lies in 1..100. */
  lemma Fraction(config: Client.Config, n: nat, f: nat)
    requires 1 <= n <= 100
    ensures Run(config, config.ownerId, {}, [Js.DecimalString(n) + "." + Js.DecimalString(f)]) == Success(Some(n))
  {
    var arg := Js.DecimalString(n) + "." + Js.DecimalString(f);
    assert arg == Js.DecimalString(n) + ("." + Js.DecimalString(f));
    Js.DecimalStringDigits(n);
    Js.DecimalStringDigits(f);
    FractionNumeric(Js.DecimalString(n), Js.DecimalString(f));
    Js.ParseIntDecimal(n, "." + Js.DecimalString(f));
  }

  /** ".5" passes the numeric check, parseInt reads NaN from it, and NaN is stored. */
  lemma LeadingPointStoresNaN(config: Client.Config)
    ensures Run(config, config.ownerId, {}, [".5"]) == Success(None)
  {
    var s := ".5";
    assert Js.TrimStart(s) == s by {
      assert !Js.IsSpace(s[0]);
    }
    assert Js.TrimEnd(s) == s by {
      assert !Js.IsSpace(s[|s| - 1]);
    }
    assert Js.DigitPrefixLen(s) == 0;
    assert s[1..] == "5";
    assert Js.DigitPrefixLen("5") == 1 by {
      assert "5"[1..] == "";
    }
    assert "5"[1..] == "";
    assert Js.IsUnsignedDecimal(s);
    assert Js.ParseInt(s) == None;
  }

  /** A run of digits is a number. */
  lemma DigitsNumeric(d: string)
    requires |d| > 0 && Js.AllDigits(d)
    ensures !Js.IsNaNString(d)
  {
    Js.TrimUnchanged(d);
    Js.DigitPrefixOfDigits(d, "");
    assert d + "" == d;
    assert d[|d|..] == "";
  }

  /** Digits, a point and more digits form a number. */
  lemma FractionNumeric(d: string, f: string)
    requires |d| > 0 && |f| > 0 && Js.AllDigits(d) && Js.AllDigits(f)
    ensures !Js.IsNaNString(d + "." + f)
  {
    var s := d + "." + f;
    assert s[0] == d[0] && s[|s| - 1] == f[|f| - 1];
    Js.TrimUnchanged(s);
    assert s == d + ("." + f);
    Js.DigitPrefixOfDigits(d, "." + f);
    assert s[|d|..] == "." + f;
    assert s[|d|..][1..] == f;
    Js.DigitPrefixOfDigits(f, "");
    assert f + "" == f;
    assert s[|d|..][1 + |f|..] == "";
    assert Js.IsUnsignedDecimal(s);
  }
}
