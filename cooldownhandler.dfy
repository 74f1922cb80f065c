/**
 * handlers/cooldownHandler.js: the per-user, per-command cooldown. A
 * module-level map from `${userId}-${commandName}` to an expiry time.
 */
module CooldownHandler {
  import opened Store
  import Js
  import Client

  /** The map key of line 17. */
  function CooldownKey(id: UserId, name: string): string {
    id + "-" + name
  }

  /** A call is blocked exactly when its key is present and not yet expired. */
  predicate Blocks(expirations: map<string, nat>, key: string, now: nat) {
    key in expirations && now < expirations[key]
  }

  /**
   * The map after a check: untouched for a command without a cooldown and
   * for a blocked call, otherwise the key expires `cooldown` seconds from now.
   */
  function Checked(expirations: map<string, nat>, key: string, cooldown: nat, now: nat): map<string, nat> {
    if cooldown == 0 || Blocks(expirations, key, now) then expirations
    else expirations[key := now + cooldown * 1000]
  }

  /** The module-level `cooldowns` map. */
  class CommandCooldowns {
    var expirations: map<string, nat>

    constructor()
      ensures expirations == map[]
    {
      expirations := map[];
    }

    /**
     * check: a command without a cooldown is never blocked and leaves the map
     * alone; a blocked call leaves it alone too; an allowed call sets the
     * key's expiry to `now + cooldown * 1000`. (The `|| 3` fallback of line 20
     * can never apply, since a zero cooldown has already returned.)
     */
    method Check(id: UserId, command: Client.Command, now: nat) returns (blocked: bool)
      modifies this
      ensures var key := CooldownKey(id, command.name);
        blocked == (command.cooldown > 0 && Blocks(old(expirations), key, now)) &&
        expirations == Checked(old(expirations), key, command.cooldown, now)
    {
      if command.cooldown == 0 {
        return false;
      }
      var key := CooldownKey(id, command.name);
      var amount := command.cooldown * 1000;
      if key in expirations && now < expirations[key] {
        return true;
      }
      expirations := expirations[key := now + amount];
      return false;
    }

    /**
     * The deletion callback of lines 55-57, due `cooldown * 1000` ms after the
     * check that armed it. It deletes the key whatever the entry holds by
     * then, so the callback of an earlier check also removes an entry that a
     * later check has set again (see StaleExpiryUnblocks).
     */
    method Expire(key: string)
      modifies this
      ensures expirations == old(expirations) - {key}
    {
      expirations := expirations - {key};
    }
  }

  // ---- lemmas ----

  /** User ids are Discord snowflakes: decimal digits, so never a '-'. */
  predicate IsSnowflake(id: UserId) {
    |id| > 0 && Js.AllDigits(id)
  }

  /**
   * With dash-free user ids the key determines both the user and the command,
   * even for command names that contain a dash (such as 'booststatus-user').
   */
  lemma KeyInjective(id1: UserId, name1: string, id2: UserId, name2: string)
    requires '-' !in id1 && '-' !in id2
    requires CooldownKey(id1, name1) == CooldownKey(id2, name2)
    ensures id1 == id2 && name1 == name2
  {
    var k := CooldownKey(id1, name1);
    assert k == id1 + ['-'] + name1;
    assert k == id2 + ['-'] + name2;
    Js.IndexOfAfter(id1, '-', name1);
    Js.IndexOfAfter(id2, '-', name2);
    assert id1 == k[..|id1|];
    assert name1 == k[|id1| + 1..];
    assert name2 == k[|id2| + 1..];
  }

  /** A snowflake has no dash, so the keys of different snowflake users never collide. */
  lemma SnowflakeKeysDistinct(id1: UserId, name1: string, id2: UserId, name2: string)
    requires IsSnowflake(id1) && IsSnowflake(id2)
    requires id1 != id2 || name1 != name2
    ensures CooldownKey(id1, name1) != CooldownKey(id2, name2)
  {
    if CooldownKey(id1, name1) == CooldownKey(id2, name2) {
      assert '-' !in id1 by {
        forall j | 0 <= j < |id1| ensures id1[j] != '-' {
          assert Js.IsDigit(id1[j]);
        }
      }
      assert '-' !in id2 by {
        forall j | 0 <= j < |id2| ensures id2[j] != '-' {
          assert Js.IsDigit(id2[j]);
        }
      }
      KeyInjective(id1, name1, id2, name2);
    }
  }

  /** If ids may contain a dash, two different (user, command) pairs can share a key. */
  lemma DashedIdsCollide()
    ensures CooldownKey("1-a", "b") == CooldownKey("1", "a-b")
  {
  }

  /** A check decides nothing about any other key, at any later time. */
  lemma OtherKeysUnaffected(expirations: map<string, nat>, key: string, cooldown: nat, now: nat, other: string, later: nat)
    requires key != other
    ensures Blocks(Checked(expirations, key, cooldown, now), other, later) <==> Blocks(expirations, other, later)
  {
  }

  /** An allowed call blocks the same key for exactly `cooldown` seconds. */
  lemma BlockedForCooldown(expirations: map<string, nat>, key: string, cooldown: nat, now: nat, later: nat)
    requires cooldown > 0 && !Blocks(expirations, key, now)
    ensures Blocks(Checked(expirations, key, cooldown, now), key, later) <==> later < now + cooldown * 1000
  {
  }

  /**
   * The stale callback. A check at `t0` sets the entry to `t1 = t0 + cooldown
   * * 1000` and arms a deletion due at `t1`. A call at `t1` that runs before
   * that deletion is not blocked and sets the entry to `t1 + cooldown * 1000`.
   * The old deletion then removes this live entry, so a call at any `later`
   * inside the new window, which the entry would have blocked, goes through.
   */
  lemma StaleExpiryUnblocks(key: string, cooldown: nat, t0: nat, later: nat)
    requires cooldown > 0
    requires t0 + cooldown * 1000 <= later < t0 + 2 * cooldown * 1000
    ensures var t1 := t0 + cooldown * 1000;
      var first := Checked(map[], key, cooldown, t0);
      var second := Checked(first, key, cooldown, t1);
      !Blocks(first, key, t1) && Blocks(second, key, later) && !Blocks(second - {key}, key, later)
  {
  }

  /** A deletion while the entry is live unblocks the key at once. */
  lemma LiveExpiryUnblocks(expirations: map<string, nat>, key: string, now: nat)
    requires Blocks(expirations, key, now)
    ensures !Blocks(expirations - {key}, key, now)
    ensures forall k :: k != key ==> (Blocks(expirations - {key}, k, now) <==> Blocks(expirations, k, now))
  {
  }

  /** Deleting an entry at or after its expiry changes no later decision. */
  lemma ExpiryInvisible(expirations: map<string, nat>, key: string, k: string, now: nat)
    requires key in expirations ==> expirations[key] <= now
    ensures Blocks(expirations - {key}, k, now) <==> Blocks(expirations, k, now)
  {
  }
}
