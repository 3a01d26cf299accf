/**
 * The per-user rate limit of the statistics command. Premium users are never
 * limited; everyone else must wait COOLDOWN milliseconds between accepted
 * invocations. Timestamps are milliseconds, passed in by the caller.
 */
module Cooldown {

  const COOLDOWN: int := 3000

  /** The outcome of the check: go ahead, or wait `remaining` more milliseconds. */
  datatype Decision = Proceed | Wait(remaining: int)

  /**
   * The check against the table `last` of accepted invocation times. A stored
   * time of 0 is falsy and counts as no entry at all.
   */
  function Decide(last: map<string, int>, premium: seq<string>, user: string, now: int): (d: Decision)
    ensures user in premium ==> d == Proceed
    ensures d.Wait? <==> user !in premium && user in last && last[user] != 0 && now - last[user] < COOLDOWN
    ensures d.Wait? ==> d.remaining == COOLDOWN - (now - last[user]) && 0 < d.remaining
    ensures d.Wait? && last[user] <= now ==> d.remaining <= COOLDOWN
  {
    if user !in premium && user in last && last[user] != 0 && now - last[user] < COOLDOWN then
      Wait(COOLDOWN - (now - last[user]))
    else
      Proceed
  }

  /** The table after the check: only an accepted non-premium user's entry is set, to `now`. */
  function Record(last: map<string, int>, premium: seq<string>, user: string, now: int): (next: map<string, int>)
    ensures user in premium ==> next == last
    ensures Decide(last, premium, user, now).Wait? ==> next == last
    ensures user !in premium && Decide(last, premium, user, now).Proceed? ==> user in next && next[user] == now
    ensures next.Keys == last.Keys || next.Keys == last.Keys + {user}
    ensures forall u :: u in last && u != user ==> u in next && next[u] == last[u]
  {
    if user in premium || Decide(last, premium, user, now).Wait? then last else last[user := now]
  }

  /**
   * A non-premium user accepted at time `t1` is told to wait at any later
   * time `t2` within the window, for the rest of the window.
   */
  lemma SecondCallWithinWindow(last: map<string, int>, premium: seq<string>, user: string, t1: int, t2: int)
    requires user !in premium
    requires Decide(last, premium, user, t1).Proceed?
    requires t1 != 0 && t1 <= t2 < t1 + COOLDOWN
    ensures Decide(Record(last, premium, user, t1), premium, user, t2) == Wait(COOLDOWN - (t2 - t1))
    ensures 0 < COOLDOWN - (t2 - t1) <= COOLDOWN
  {
  }

  /** Once the window has passed, the same user is accepted again and the entry moves to the new time. */
  lemma SecondCallAfterWindow(last: map<string, int>, premium: seq<string>, user: string, t1: int, t2: int)
    requires user !in premium
    requires Decide(last, premium, user, t1).Proceed?
    requires t2 >= t1 + COOLDOWN
    ensures Decide(Record(last, premium, user, t1), premium, user, t2) == Proceed
    ensures Record(Record(last, premium, user, t1), premium, user, t2)[user] == t2
  {
  }

  /** The in-memory cooldown table. */
  class CooldownTable {
    var last: map<string, int>

    constructor ()
      ensures last == map[]
    {
      last := map[];
    }

    /** Checks `user` at time `now` and records the invocation when it goes ahead. */
    method Check(user: string, now: int, premium: seq<string>) returns (d: Decision)
      modifies this
      ensures d == Decide(old(last), premium, user, now)
      ensures last == Record(old(last), premium, user, now)
    {
      var isPremium := user in premium;
      if !isPremium {
        var stored := if user in last then last[user] else 0;
        if stored != 0 && now - stored < COOLDOWN {
          var remaining := COOLDOWN - (now - stored);
          return Wait(remaining);
        }
        last := last[user := now];
      }
      return Proceed;
    }
  }
}
