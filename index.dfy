/**
 * index.js, the `messageCreate` handler: ignore bots, ensure the author's
 * row, parse a prefixed message into a command name and arguments, try the
 * admin collection first (with the owner/trusted decision and the
 * unauthorized-attempt log), then the regular one, each behind the command
 * cooldown; every message that is not answered on the admin path then goes
 * to the reward handler. What a command does when it runs is modelled in its
 * own module; here it is the parameter `exec`, a function from the state the
 * command finds to the state it leaves and the error it threw, if any.
 */
module Index {
  import opened Wrappers
  import opened Store
  import Js
  import Client
  import Supabase
  import MessageHandler
  import CooldownHandler

  /** What the handler did with a message. */
  datatype Dispatch =
    | Ignored
    | NotACommand
    | UnknownCommand
    | CooldownBlocked
    | Denied(ownerOnlyText: bool)
    | RanAdmin(name: string, args: seq<string>, threw: bool)
    | RanCommand(name: string, args: seq<string>, threw: bool)

  /** What `await command.execute(client, message, args)` did: the state it left and the message of what it threw. */
  datatype Ran = Ran(after: Client.State, error: Option<string>)

  /** A prefixed message's outcome: the decision, the new state and the new cooldown map. */
  datatype Routed = Routed(d: Dispatch, state: Client.State, expirations: map<string, nat>)

  /**
   * Lines 120-122: drop the prefix, trim, split on runs of spaces; the first
   * piece lower-cased is the command name and the rest are the arguments.
   */
  function ParseCommand(content: string, prefix: string): (string, seq<string>) {
    var parts := Js.SplitSpaces(Js.Trim(Js.Slice(content, |prefix|)));
    Js.SplitSpacesLength(Js.Trim(Js.Slice(content, |prefix|)));
    (Js.Lower(parts[0]), parts[1..])
  }

  /**
   * The parse of lines 120-122 as the handler runs it: the name is the
   * trimmed text up to its first space, lower-cased; every argument is a
   * non-empty piece without a space, and there are none exactly when the
   * trimmed text has no space.
   */
  method Parse(content: string, prefix: string) returns (name: string, args: seq<string>)
    ensures (name, args) == ParseCommand(content, prefix)
    ensures var t := Js.Trim(Js.Slice(content, |prefix|));
      name == Js.Lower(t[..Js.IndexOf(t, ' ')]) && (args == [] <==> ' ' !in t) &&
      forall k :: 0 <= k < |args| ==> args[k] != [] && ' ' !in args[k]
  {
    var parsed := ParseCommand(content, prefix);
    ParseCommandShape(content, prefix);
    name, args := parsed.0, parsed.1;
  }

  /** Lines 142-148: an owner-only command needs the owner, any other the owner or a trusted user. */
  predicate Authorized(ownerOnly: bool, isOwner: bool, isTrusted: bool) {
    if ownerOnly then isOwner else isOwner || isTrusted
  }

  function UnauthorizedEntry(id: UserId, name: string, args: seq<string>, now: nat): LogEntry {
    LogEntry("unauthorized_command", id,
      Supabase.DetailsText([("command", Supabase.Text(name)), ("args", Supabase.Text(Js.JoinSpaces(args)))]), now)
  }

  function ErrorEntry(id: UserId, name: string, args: seq<string>, errText: string, now: nat): LogEntry {
    LogEntry("error", id,
      Supabase.DetailsText([("command", Supabase.Text(name)), ("args", Supabase.Text(Js.JoinSpaces(args))),
                            ("error", Supabase.Text(errText))]), now)
  }

    /** The state with one more log row when the insert succeeds. */
  function Logged(s: Client.State, e: LogEntry, up: bool): Client.State {
    if up then s.(logs := s.logs + [e]) else s
  }

  /** A command that got past its gates: its effect, then the 'error' row when it threw (lines 158-178 and 202-224). */
  function Executed(s: Client.State, exec: Client.State -> Ran, id: UserId, name: string, args: seq<string>,
                    now: nat, logUp: bool): Client.State
  {
    var r := exec(s);
    if r.error.Some? then Logged(r.after, ErrorEntry(id, name, args, r.error.value, now), logUp) else r.after
  }

  /** The cooldown gate of lines 151-153 and 198-200, then the command. */
  function Gated(s: Client.State, exp: map<string, nat>, c: Client.Command, id: UserId, name: string,
                 args: seq<string>, now: nat, logUp: bool, exec: Client.State -> Ran, admin: bool): Routed
  {
    var key := CooldownHandler.CooldownKey(id, c.name);
    var checked := CooldownHandler.Checked(exp, key, c.cooldown, now);
    if c.cooldown > 0 && CooldownHandler.Blocks(exp, key, now) then Routed(CooldownBlocked, s, checked)
    else
      var threw := exec(s).error.Some?;
      Routed(if admin then RanAdmin(name, args, threw) else RanCommand(name, args, threw),
             Executed(s, exec, id, name, args, now, logUp), checked)
  }

  /** The admin path of lines 126-195, with the trust lookup succeeding when `trustUp`. */
  function AdminRun(s: Client.State, exp: map<string, nat>, c: Client.Command, id: UserId, name: string,
                    args: seq<string>, now: nat, trustUp: bool, logUp: bool, exec: Client.State -> Ran): Routed
  {
    var trusted := trustUp && id in s.trusted;
    if Authorized(c.ownerOnly, id == s.config.ownerId, trusted) then Gated(s, exp, c, id, name, args, now, logUp, exec, true)
    else Routed(Denied(c.ownerOnly && trusted), Logged(s, UnauthorizedEntry(id, name, args, now), logUp), exp)
  }

  /** Lines 124-228: the admin collection first, then the regular one, and nothing for an unknown name. */
  function RouteRun(s: Client.State, exp: map<string, nat>, admin: map<string, Client.Command>,
                    regular: map<string, Client.Command>, id: UserId, name: string, args: seq<string>, now: nat,
                    trustUp: bool, logUp: bool, exec: Client.State -> Ran): Routed
  {
    if name in admin then AdminRun(s, exp, admin[name], id, name, args, now, trustUp, logUp, exec)
    else if name in regular then Gated(s, exp, regular[name], id, name, args, now, logUp, exec, false)
    else Routed(UnknownCommand, s, exp)
  }

  /** `await command.execute(client, message, args)`: the client and its store take the state the command leaves. */
  method ExecuteCommand(bot: Client.Bot, exec: Client.State -> Ran) returns (error: Option<string>)
    modifies bot, bot.db
    ensures bot.Snapshot() == exec(old(bot.Snapshot())).after
    ensures error == exec(old(bot.Snapshot())).error
    ensures bot.commands == old(bot.commands) && bot.adminCommands == old(bot.adminCommands)
  {
    var r := exec(bot.Snapshot());
    bot.db.users := r.after.users;
    bot.db.trusted := r.after.trusted;
    bot.db.settings := r.after.settings;
    bot.db.boostRow := r.after.boostRow;
    bot.db.logs := r.after.logs;
    bot.config := r.after.config;
    bot.boost := r.after.boost;
    bot.timers := r.after.timers;
    error := r.error;
  }

  /** The cooldown check, then the command, whose throw is logged as 'error'. */
  method RunGated(bot: Client.Bot, cds: CooldownHandler.CommandCooldowns, c: Client.Command, id: UserId, name: string,
                  args: seq<string>, now: nat, logUp: bool, exec: Client.State -> Ran, admin: bool)
    returns (d: Dispatch)
    modifies bot, bot.db, cds
    ensures var r := Gated(old(bot.Snapshot()), old(cds.expirations), c, id, name, args, now, logUp, exec, admin);
      d == r.d && bot.Snapshot() == r.state && cds.expirations == r.expirations
    ensures bot.commands == old(bot.commands) && bot.adminCommands == old(bot.adminCommands)
  {
    var blocked := cds.Check(id, c, now);
    if blocked {
      return CooldownBlocked;
    }
    var error := ExecuteCommand(bot, exec);
    if error.Some? {
      var _ := bot.db.LogAction("error", id,
        [("command", Supabase.Text(name)), ("args", Supabase.Text(Js.JoinSpaces(args))), ("error", Supabase.Text(error.value))],
        now, logUp);
    }
    d := if admin then RanAdmin(name, args, error.Some?) else RanCommand(name, args, error.Some?);
  }

  /**
   * The admin path, lines 126-195: decide authorization from the owner id and
   * the trust lookup (`trustUp`); a denied author gets the unauthorized log
   * row (`logUp`) and the cooldown map is not consulted; an authorized one
   * passes the cooldown check and the command runs, a throw being logged.
   */
  method AdminPath(bot: Client.Bot, cds: CooldownHandler.CommandCooldowns, id: UserId, name: string, args: seq<string>,
                   now: nat, trustUp: bool, logUp: bool, exec: Client.State -> Ran)
    returns (d: Dispatch)
    requires name in bot.adminCommands
    modifies bot, bot.db, cds
    ensures var r := AdminRun(old(bot.Snapshot()), old(cds.expirations), old(bot.adminCommands[name]), id, name, args,
                              now, trustUp, logUp, exec);
      d == r.d && bot.Snapshot() == r.state && cds.expirations == r.expirations
    ensures bot.commands == old(bot.commands) && bot.adminCommands == old(bot.adminCommands)
  {
    var command := bot.adminCommands[name];
    var isOwner := id == bot.config.ownerId;
    var isTrusted := bot.db.IsTrusted(id, trustUp);
    if Authorized(command.ownerOnly, isOwner, isTrusted) {
      d := RunGated(bot, cds, command, id, name, args, now, logUp, exec, true);
      return;
    }
    var _ := bot.db.LogAction("unauthorized_command", id,
      [("command", Supabase.Text(name)), ("args", Supabase.Text(Js.JoinSpaces(args)))], now, logUp);
    return Denied(command.ownerOnly && isTrusted);
  }

  /** The regular path, lines 197-226: the cooldown check, then the command; a throw is logged. */
  method RegularPath(bot: Client.Bot, cds: CooldownHandler.CommandCooldowns, id: UserId, name: string, args: seq<string>,
                     now: nat, logUp: bool, exec: Client.State -> Ran)
    returns (d: Dispatch)
    requires name in bot.commands
    modifies bot, bot.db, cds
    ensures var r := Gated(old(bot.Snapshot()), old(cds.expirations), old(bot.commands[name]), id, name, args, now,
                           logUp, exec, false);
      d == r.d && bot.Snapshot() == r.state && cds.expirations == r.expirations
    ensures bot.commands == old(bot.commands) && bot.adminCommands == old(bot.adminCommands)
  {
    d := RunGated(bot, cds, bot.commands[name], id, name, args, now, logUp, exec, false);
  }

  /**
   * A prefixed message, lines 124-228: a name found among the admin commands
   * is handled there and never as a regular command; an unknown name does
   * nothing.
   */
  method Route(bot: Client.Bot, cds: CooldownHandler.CommandCooldowns, id: UserId, name: string, args: seq<string>,
               now: nat, trustUp: bool, logUp: bool, exec: Client.State -> Ran)
    returns (d: Dispatch)
    modifies bot, bot.db, cds
    ensures var r := RouteRun(old(bot.Snapshot()), old(cds.expirations), old(bot.adminCommands), old(bot.commands),
                              id, name, args, now, trustUp, logUp, exec);
      d == r.d && bot.Snapshot() == r.state && cds.expirations == r.expirations
    ensures bot.commands == old(bot.commands) && bot.adminCommands == old(bot.adminCommands)
  {
    if name in bot.adminCommands {
      d := AdminPath(bot, cds, id, name, args, now, trustUp, logUp, exec);
    } else if name in bot.commands {
      d := RegularPath(bot, cds, id, name, args, now, logUp, exec);
    } else {
      d := UnknownCommand;
    }
  }

  /** Lines 120-228 for a prefixed message: parse it, then route the name. */
  method Command(bot: Client.Bot, cds: CooldownHandler.CommandCooldowns, msg: MessageHandler.Message, now: nat,
                 trustUp: bool, logUp: bool, exec: Client.State -> Ran)
    returns (name: string, args: seq<string>, d: Dispatch)
    modifies bot, bot.db, cds
    ensures (name, args) == ParseCommand(msg.content, old(bot.config.prefix))
    ensures var r := RouteRun(old(bot.Snapshot()), old(cds.expirations), old(bot.adminCommands), old(bot.commands),
                              msg.authorId, name, args, now, trustUp, logUp, exec);
      d == r.d && bot.Snapshot() == r.state && cds.expirations == r.expirations
    ensures bot.commands == old(bot.commands) && bot.adminCommands == old(bot.adminCommands)
  {
    name, args := Parse(msg.content, bot.config.prefix);
    d := Route(bot, cds, msg.authorId, name, args, now, trustUp, logUp, exec);
  }

  /** The state after line 111's ensureUser of the author, with the insert succeeding when `up`. */
  function AuthorEnsured(s: Client.State, msg: MessageHandler.Message, now: nat, up: bool): Client.State {
    if up then s.(users := Ensured(s.users, msg.authorId, NewUser(Some(msg.authorName), now))) else s
  }

  /**
   * The whole handler. A bot's message changes nothing. Otherwise the author
   * is ensured (`ensureUp`); a message without the prefix goes straight to
   * processMessage (`rf`); a prefixed one is routed, and only an unknown name
   * or a regular command that ran goes on to processMessage, on the state the
   * command left. A prefixed message earns nothing while the prefix stays.
   */
  method HandleMessage(bot: Client.Bot, gate: MessageHandler.RewardGate, cds: CooldownHandler.CommandCooldowns,
                       msg: MessageHandler.Message, now: nat, ensureUp: bool, trustUp: bool, logUp: bool,
                       exec: Client.State -> Ran, rf: MessageHandler.RewardFaults)
    returns (d: Dispatch, awarded: Option<int>)
    modifies bot, bot.db, gate, cds
    ensures var s0 := old(bot.Snapshot());
      var s1 := AuthorEnsured(s0, msg, now, ensureUp);
      var prefix := s0.config.prefix;
      if msg.authorIsBot then
        d == Ignored && awarded == None && bot.Snapshot() == s0 &&
        gate.lastReward == old(gate.lastReward) && cds.expirations == old(cds.expirations)
      else if !Js.StartsWith(msg.content, prefix) then
        d == NotACommand && cds.expirations == old(cds.expirations) &&
        MessageHandler.Outcome(awarded, gate.lastReward, bot.Snapshot()) ==
          MessageHandler.Processed(s1, old(gate.lastReward), msg, now, rf)
      else
        var p := ParseCommand(msg.content, prefix);
        var r := RouteRun(s1, old(cds.expirations), old(bot.adminCommands), old(bot.commands), msg.authorId, p.0, p.1,
                          now, trustUp, logUp, exec);
        d == r.d && cds.expirations == r.expirations &&
        if d.RanCommand? || d.UnknownCommand? then
          MessageHandler.Outcome(awarded, gate.lastReward, bot.Snapshot()) ==
            MessageHandler.Processed(r.state, old(gate.lastReward), msg, now, rf)
        else
          awarded == None && gate.lastReward == old(gate.lastReward) && bot.Snapshot() == r.state
    ensures Js.StartsWith(msg.content, old(bot.config.prefix)) && bot.config.prefix == old(bot.config.prefix) ==>
      awarded == None && gate.lastReward == old(gate.lastReward)
    ensures bot.commands == old(bot.commands) && bot.adminCommands == old(bot.adminCommands)
  {
    if msg.authorIsBot {
      return Ignored, None;
    }
    var _ := bot.db.EnsureUser(msg.authorId, Some(msg.authorName), now, ensureUp);
    assert bot.Snapshot() == AuthorEnsured(old(bot.Snapshot()), msg, now, ensureUp);
    if Js.StartsWith(msg.content, bot.config.prefix) {
      d, awarded := Prefixed(bot, gate, cds, msg, now, trustUp, logUp, exec, rf);
    } else {
      d := NotACommand;
      awarded := Reward(bot, gate, msg, now, rf);
    }
  }

  /**
   * Lines 119-232 for a prefixed message from a user: the command is routed;
   * the admin path and a blocked regular command end the handler, and every
   * other outcome goes on to processMessage on the state the command left.
   */
  method Prefixed(bot: Client.Bot, gate: MessageHandler.RewardGate, cds: CooldownHandler.CommandCooldowns,
                  msg: MessageHandler.Message, now: nat, trustUp: bool, logUp: bool,
                  exec: Client.State -> Ran, rf: MessageHandler.RewardFaults)
    returns (d: Dispatch, awarded: Option<int>)
    requires Js.StartsWith(msg.content, bot.config.prefix)
    modifies bot, bot.db, gate, cds
    ensures var p := ParseCommand(msg.content, old(bot.config.prefix));
      var r := RouteRun(old(bot.Snapshot()), old(cds.expirations), old(bot.adminCommands), old(bot.commands),
                        msg.authorId, p.0, p.1, now, trustUp, logUp, exec);
      d == r.d && cds.expirations == r.expirations &&
      if d.RanCommand? || d.UnknownCommand? then
        MessageHandler.Outcome(awarded, gate.lastReward, bot.Snapshot()) ==
          MessageHandler.Processed(r.state, old(gate.lastReward), msg, now, rf)
      else
        awarded == None && gate.lastReward == old(gate.lastReward) && bot.Snapshot() == r.state
    ensures bot.config.prefix == old(bot.config.prefix) ==> awarded == None && gate.lastReward == old(gate.lastReward)
    ensures bot.commands == old(bot.commands) && bot.adminCommands == old(bot.adminCommands)
  {
    var name, args;
    name, args, d := Command(bot, cds, msg, now, trustUp, logUp, exec);
    ghost var r := RouteRun(old(bot.Snapshot()), old(cds.expirations), old(bot.adminCommands), old(bot.commands),
                            msg.authorId, name, args, now, trustUp, logUp, exec);
    assert d == r.d && bot.Snapshot() == r.state && cds.expirations == r.expirations;
    RoutedKinds(old(bot.Snapshot()), old(cds.expirations), old(bot.adminCommands), old(bot.commands),
                msg.authorId, name, args, now, trustUp, logUp, exec);
    if d.Denied? || d.RanAdmin? || d.CooldownBlocked? {
      return d, None;
    }
    ghost var last := gate.lastReward;
    awarded := Reward(bot, gate, msg, now, rf);
    if bot.config.prefix == old(bot.config.prefix) {
      MessageHandler.PrefixedEarnsNothing(r.state, last, msg, now, rf);
    }
  }

  /** Line 232, for a message that got this far: processMessage on the state as it now is. */
  method Reward(bot: Client.Bot, gate: MessageHandler.RewardGate, msg: MessageHandler.Message, now: nat,
                rf: MessageHandler.RewardFaults)
    returns (awarded: Option<int>)
    modifies bot.db, gate
    ensures MessageHandler.Outcome(awarded, gate.lastReward, bot.Snapshot()) ==
      MessageHandler.Processed(old(bot.Snapshot()), old(gate.lastReward), msg, now, rf)
    ensures bot.commands == old(bot.commands) && bot.adminCommands == old(bot.adminCommands)
  {
    awarded := gate.ProcessMessage(bot, msg, now, rf);
  }

  // ---- lemmas ----

  /**
   * What the parse gives: the name is the lower-cased trimmed text up to its
   * first space; the arguments are non-empty and space-free, and there are
   * none exactly when the trimmed text has no space.
   */
  lemma ParseCommandShape(content: string, prefix: string)
    ensures var t := Js.Trim(Js.Slice(content, |prefix|));
      var (name, args) := ParseCommand(content, prefix);
      name == Js.Lower(t[..Js.IndexOf(t, ' ')]) && (args == [] <==> ' ' !in t) &&
      forall k :: 0 <= k < |args| ==> args[k] != [] && ' ' !in args[k]
  {
    var t := Js.Trim(Js.Slice(content, |prefix|));
    Js.TrimFacts(Js.Slice(content, |prefix|));
    Js.SplitSpacesHead(t);
    Js.SplitSpacesTail(t);
    Js.SplitSpacesNoSpace(t);
    var parts := Js.SplitSpaces(t);
    var args := parts[1..];
    forall k | 0 <= k < |args| ensures args[k] != [] && ' ' !in args[k] {
      Js.AllNonEmptyAt(args, k);
      assert args[k] in parts;
    }
  }

  /**
   * A command typed as the prefix, a name and single-space separated
   * arguments parses back into the lower-cased name and exactly those
   * arguments.
   */
  lemma ParseCommandReadsBack(prefix: string, name: string, args: seq<string>)
    requires Js.IsWord(name)
    requires forall k :: 0 <= k < |args| ==> Js.IsWord(args[k])
    ensures ParseCommand(prefix + Js.JoinSpaces([name] + args), prefix) == (Js.Lower(name), args)
  {
    var parts := [name] + args;
    var j := Js.JoinSpaces(parts);
    assert Js.Slice(prefix + j, |prefix|) == j;
    forall k | 0 <= k < |parts| ensures Js.IsWord(parts[k]) {
      if k > 0 {
        assert parts[k] == args[k - 1];
      }
    }
    Js.JoinedTrimmed(parts);
    Js.SplitJoin(parts);
    assert parts[1..] == args;
  }

  /**
   * A name in the admin collection is always handled as an admin command:
   * the regular collection plays no part, even when it has the same name.
   */
  lemma AdminNamesShadowRegular(s: Client.State, exp: map<string, nat>, admin: map<string, Client.Command>,
                                regular: map<string, Client.Command>, id: UserId, name: string, args: seq<string>,
                                now: nat, trustUp: bool, logUp: bool, exec: Client.State -> Ran)
    requires name in admin
    ensures var r := RouteRun(s, exp, admin, regular, id, name, args, now, trustUp, logUp, exec);
      (r.d.CooldownBlocked? || r.d.Denied? || r.d.RanAdmin?) &&
      r == RouteRun(s, exp, admin, map[], id, name, args, now, trustUp, logUp, exec)
  {
  }

  /**
   * Routing a name has five outcomes: blocked, denied, run as an admin
   * command, run as a regular command, or unknown; a regular command runs
   * only for a name outside the admin collection.
   */
  lemma RoutedKinds(s: Client.State, exp: map<string, nat>, admin: map<string, Client.Command>,
                    regular: map<string, Client.Command>, id: UserId, name: string, args: seq<string>,
                    now: nat, trustUp: bool, logUp: bool, exec: Client.State -> Ran)
    ensures var d := RouteRun(s, exp, admin, regular, id, name, args, now, trustUp, logUp, exec).d;
      (d.CooldownBlocked? || d.Denied? || d.RanAdmin? || d.RanCommand? || d.UnknownCommand?) &&
      (d.RanCommand? ==> name !in admin && name in regular) &&
      (d.RanAdmin? || d.Denied? ==> name in admin) &&
      (d.UnknownCommand? <==> name !in admin && name !in regular)
  {
  }

  /** An unknown command name changes nothing at all. */
  lemma UnknownNameChangesNothing(s: Client.State, exp: map<string, nat>, admin: map<string, Client.Command>,
                                  regular: map<string, Client.Command>, id: UserId, name: string, args: seq<string>,
                                  now: nat, trustUp: bool, logUp: bool, exec: Client.State -> Ran)
    requires name !in admin && name !in regular
    ensures RouteRun(s, exp, admin, regular, id, name, args, now, trustUp, logUp, exec) == Routed(UnknownCommand, s, exp)
  {
  }

  /**
   * A denied author never runs the command and never touches the cooldown
   * map; the only change is at most one 'unauthorized_command' log row. A
   * trusted user is denied only an owner-only command, with the owner-only text.
   */
  lemma DeniedOnlyLogs(s: Client.State, exp: map<string, nat>, admin: map<string, Client.Command>,
                       regular: map<string, Client.Command>, id: UserId, name: string, args: seq<string>,
                       now: nat, trustUp: bool, logUp: bool, exec: Client.State -> Ran)
    requires RouteRun(s, exp, admin, regular, id, name, args, now, trustUp, logUp, exec).d.Denied?
    ensures var r := RouteRun(s, exp, admin, regular, id, name, args, now, trustUp, logUp, exec);
      name in admin && id != s.config.ownerId && r.expirations == exp &&
      r.state.(logs := s.logs) == s &&
      r.state.logs == s.logs + (if logUp then [UnauthorizedEntry(id, name, args, now)] else []) &&
      (r.d.ownerOnlyText <==> admin[name].ownerOnly && trustUp && id in s.trusted)
  {
  }

  /** A call stopped by the command cooldown changes nothing. */
  lemma BlockedChangesNothing(s: Client.State, exp: map<string, nat>, admin: map<string, Client.Command>,
                              regular: map<string, Client.Command>, id: UserId, name: string, args: seq<string>,
                              now: nat, trustUp: bool, logUp: bool, exec: Client.State -> Ran)
    requires RouteRun(s, exp, admin, regular, id, name, args, now, trustUp, logUp, exec).d.CooldownBlocked?
    ensures var r := RouteRun(s, exp, admin, regular, id, name, args, now, trustUp, logUp, exec);
      r.state == s && r.expirations == exp
  {
  }

  /**
   * A command that ran leaves exactly the state its `execute` leaves, plus
   * the 'error' row when it threw; its cooldown entry is then set afresh.
   */
  lemma RanIsTheCommand(s: Client.State, exp: map<string, nat>, admin: map<string, Client.Command>,
                        regular: map<string, Client.Command>, id: UserId, name: string, args: seq<string>,
                        now: nat, trustUp: bool, logUp: bool, exec: Client.State -> Ran)
    requires var d := RouteRun(s, exp, admin, regular, id, name, args, now, trustUp, logUp, exec).d;
      d.RanAdmin? || d.RanCommand?
    ensures var r := RouteRun(s, exp, admin, regular, id, name, args, now, trustUp, logUp, exec);
      var ran := exec(s);
      var c := if name in admin then admin[name] else regular[name];
      (name in admin || name in regular) &&
      r.d.threw == ran.error.Some? &&
      r.state.(logs := ran.after.logs) == ran.after &&
      r.state.logs == ran.after.logs + (if ran.error.Some? && logUp then [ErrorEntry(id, name, args, ran.error.value, now)] else []) &&
      r.expirations == (if c.cooldown == 0 then exp else exp[CooldownHandler.CooldownKey(id, c.name) := now + c.cooldown * 1000])
  {
  }

  /** The owner may run every admin command; trust alone never opens an owner-only one. */
  lemma AuthorizationFacts(ownerOnly: bool, isOwner: bool, isTrusted: bool)
    ensures isOwner ==> Authorized(ownerOnly, isOwner, isTrusted)
    ensures ownerOnly && !isOwner ==> !Authorized(ownerOnly, isOwner, isTrusted)
    ensures !isOwner && !isTrusted ==> !Authorized(ownerOnly, isOwner, isTrusted)
  {
  }
}
