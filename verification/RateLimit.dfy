/**
  The bot's sliding-window throttle. The middleware keeps, per tracked user, the hits that may still be inside
  the window, in a table of bounded size that is swept when it is full. The specification keeps every hit ever
  handled and throws nothing away; the two are proved to decide every event alike.
*/
module RateLimit {
  import opened Base

  datatype User = User(id: int)
  datatype Hit = Hit(user: User, time: real)
  datatype Outcome = Passed | Dropped | Throttled | Handled
  datatype Limits = Limits(maxEvents: int, window: real, maxUsers: int)

  // ---------------------------------------------------------------- full history

  /** All hits of one user, oldest first. */
  function Times(history: seq<Hit>, user: User): seq<real> {
    if history == [] then []
    else
      var last := history[|history| - 1];
      var before := Times(history[..|history| - 1], user);
      if last.user == user then before + [last.time] else before
  }

  /** The times still inside the window at `now`. */
  function Live(times: seq<real>, now: real, window: real): (r: seq<real>)
    ensures |r| <= |times|
  {
    if times == [] then []
    else
      var rest := Live(times[1..], now, window);
      if now - times[0] > window then rest else [times[0]] + rest
  }

  function LiveCount(history: seq<Hit>, user: User, now: real, window: real): nat {
    |Live(Times(history, user), now, window)|
  }

  function Users(history: seq<Hit>): set<User> {
    set i | 0 <= i < |history| :: history[i].user
  }

  function LiveUsers(history: seq<Hit>, now: real, window: real): set<User> {
    set u | u in Users(history) && Live(Times(history, u), now, window) != []
  }

  /** The decision as it would be taken from the full history. */
  function Decide(l: Limits, history: seq<Hit>, user: User, now: real): Outcome {
    var count := LiveCount(history, user, now, l.window);
    if count == 0 && |LiveUsers(history, now, l.window)| >= l.maxUsers then Dropped
    else if count >= l.maxEvents then Throttled
    else Handled
  }

  predicate Sorted(times: seq<real>) {
    forall i, j | 0 <= i < j < |times| :: times[i] <= times[j]
  }

  /** Time never runs backwards, and every hit was one the full history allowed. */
  predicate Earned(l: Limits, history: seq<Hit>) {
    forall i | 0 <= i < |history| ::
      && (forall j | 0 <= j < i :: history[j].time <= history[i].time)
      && LiveCount(history[..i], history[i].user, history[i].time, l.window) < l.maxEvents
  }

  /** How many of a user's handled events lie in the closed interval from `from` to `to`. */
  function CountIn(history: seq<Hit>, user: User, from: real, to: real): nat {
    if history == [] then 0
    else
      var last := history[|history| - 1];
      CountIn(history[..|history| - 1], user, from, to)
        + if last.user == user && from <= last.time <= to then 1 else 0
  }

  lemma {:induction false} LiveAppend(times: seq<real>, t: real, now: real, window: real)
    ensures Live(times + [t], now, window) == Live(times, now, window) + if now - t > window then [] else [t]
  {
    if times == [] {
      assert times + [t] == [t];
    } else {
      LiveAppend(times[1..], t, now, window);
      assert (times + [t])[1..] == times[1..] + [t];
    }
  }

  /** What is live later was live before: dropping expired hits never changes a later count. */
  lemma {:induction false} LiveLater(times: seq<real>, earlier: real, now: real, window: real)
    requires earlier <= now
    ensures Live(times, now, window) == Live(Live(times, earlier, window), now, window)
  {
    if times != [] {
      LiveLater(times[1..], earlier, now, window);
      var rest := Live(times[1..], earlier, window);
      assert ([times[0]] + rest)[1..] == rest;
    }
  }

  lemma {:induction false} NewestExpired(times: seq<real>, now: real, window: real)
    requires Sorted(times) && (times != [] ==> now - times[|times| - 1] > window)
    ensures Live(times, now, window) == []
  {
    if times != [] {
      assert Sorted(times[1..]);
      NewestExpired(times[1..], now, window);
    }
  }

  lemma {:induction false} OldestAlive(times: seq<real>, now: real, window: real)
    requires Sorted(times) && (times != [] ==> now - times[0] <= window)
    ensures Live(times, now, window) == times
  {
    if times != [] {
      assert Sorted(times[1..]);
      OldestAlive(times[1..], now, window);
    }
  }

  lemma {:induction false} TimesOfStranger(history: seq<Hit>, user: User)
    requires user !in Users(history)
    ensures Times(history, user) == []
  {
    if history != [] {
      var init := history[..|history| - 1];
      assert forall i | 0 <= i < |init| :: init[i] == history[i];
      assert history[|history| - 1].user in Users(history);
      forall u | u in Users(init)
        ensures u in Users(history)
      {
        var i :| 0 <= i < |init| && init[i].user == u;
        assert history[i].user == u;
      }
      TimesOfStranger(init, user);
    }
  }

  lemma {:induction false} TimesAppend(history: seq<Hit>, h: Hit, user: User)
    ensures Times(history + [h], user) == Times(history, user) + if h.user == user then [h.time] else []
  {
    assert (history + [h])[..|history|] == history;
  }

  lemma {:induction false} EarnedAppend(l: Limits, history: seq<Hit>, h: Hit)
    requires Earned(l, history) && LiveCount(history, h.user, h.time, l.window) < l.maxEvents
    requires forall i | 0 <= i < |history| :: history[i].time <= h.time
    ensures Earned(l, history + [h])
  {
    forall i | 0 <= i < |history + [h]|
      ensures LiveCount((history + [h])[..i], (history + [h])[i].user, (history + [h])[i].time, l.window) < l.maxEvents
    {
      assert (history + [h])[..i] == history[..i];
      assert history[..|history|] == history;
    }
  }

  /** A window of the full history that ends where the last hit falls holds at most the live ones before it. */
  lemma {:induction false} WindowWithinLive(history: seq<Hit>, user: User, from: real, to: real, now: real,
                                            window: real)
    requires now - from <= window
    ensures CountIn(history, user, from, to) <= LiveCount(history, user, now, window)
  {
    if history != [] {
      var n := |history| - 1;
      WindowWithinLive(history[..n], user, from, to, now, window);
      if history[n].user == user {
        LiveAppend(Times(history[..n], user), history[n].time, now, window);
      }
    }
  }

  /** No closed interval of the window's length ever holds more than maxEvents handled events of one user. */
  lemma {:induction false} WindowIsBounded(l: Limits, history: seq<Hit>, user: User, from: real)
    requires Earned(l, history) && l.maxEvents >= 0
    ensures CountIn(history, user, from, from + l.window) <= l.maxEvents
  {
    if history != [] {
      var n := |history| - 1;
      var init, last := history[..n], history[n];
      assert Earned(l, init) by {
        forall i | 0 <= i < |init|
          ensures LiveCount(init[..i], init[i].user, init[i].time, l.window) < l.maxEvents
        {
          assert init[..i] == history[..i];
        }
      }
      WindowIsBounded(l, init, user, from);
      if last.user == user && from <= last.time <= from + l.window {
        WindowWithinLive(init, user, from, from + l.window, last.time, l.window);
      }
    }
  }

  lemma {:induction false} KeysBound(a: set<User>, b: set<User>)
    requires a <= b
    ensures |a| <= |b|
  {
    assert b == a + (b - a) && a !! (b - a);
  }

  // ---------------------------------------------------------------- the middleware

  class Middleware {
    const limits: Limits
    var hits: map<User, seq<real>>
    // every handled hit, and when the clock was last read
    ghost var history: seq<Hit>
    ghost var clock: real

    /** The kept deque of a user stands for all of that user's hits. */
    ghost predicate Stands(times: seq<real>, user: User)
      reads this
    {
      && Sorted(times)
      && (forall i | 0 <= i < |times| :: times[i] <= clock)
      && Live(times, clock, limits.window) == Live(Times(history, user), clock, limits.window)
    }

    ghost predicate Table()
      reads this
    {
      && (forall u | u in hits :: Stands(hits[u], u))
      && (forall u | u !in hits :: Live(Times(history, u), clock, limits.window) == [])
    }

    ghost predicate Sized()
      reads this`hits
    {
      if limits.maxUsers >= 0 then |hits| <= limits.maxUsers else hits == map[]
    }

    ghost predicate Valid()
      reads this
    {
      && Table()
      && Sized()
      && (forall i | 0 <= i < |history| :: history[i].time <= clock)
      && Earned(limits, history)
    }

    constructor (limits: Limits, ghost clock: real)
      ensures Valid() && history == [] && this.limits == limits && this.clock == clock
    {
      this.limits := limits;
      this.clock := clock;
      hits, history := map[], [];
    }

    /** The clock is read: what stands at one time stands at every later one. */
    ghost method Tick(now: real)
      requires Table() && clock <= now
      modifies this`clock
      ensures Table() && clock == now
    {
      var before := clock;
      clock := now;
      forall u | u in hits
        ensures Stands(hits[u], u)
      {
        LiveLater(hits[u], before, now, limits.window);
        LiveLater(Times(history, u), before, now, limits.window);
      }
      forall u | u !in hits
        ensures Live(Times(history, u), now, limits.window) == []
      {
        LiveLater(Times(history, u), before, now, limits.window);
      }
    }

    /** Deletes exactly the users without a live hit. */
    method EvictExpired(now: real)
      requires Table() && clock == now
      modifies this`hits
      ensures Table()
      ensures hits.Keys == LiveUsers(history, now, limits.window)
      ensures hits.Keys <= old(hits.Keys)
    {
      var stale := set u | u in hits && (hits[u] == [] || now - hits[u][|hits[u]| - 1] > limits.window);
      StaleIsDead(stale);
      var left := stale;
      while left != {}
        invariant left <= stale
        invariant hits == old(hits) - (stale - left)
        decreases |left|
      {
        var u :| u in left;
        hits := hits - {u};
        left := left - {u};
      }
    }

    /** Live users are tracked, so a table with room means there are few of them. */
    lemma FewLiveUsers()
      requires Table()
      ensures LiveUsers(history, clock, limits.window) <= hits.Keys
      ensures |LiveUsers(history, clock, limits.window)| <= |hits|
    {
      KeysBound(LiveUsers(history, clock, limits.window), hits.Keys);
    }

    lemma StaleIsDead(stale: set<User>)
      requires Table()
      requires stale == set u | u in hits && (hits[u] == [] || clock - hits[u][|hits[u]| - 1] > limits.window)
      ensures hits.Keys - stale == LiveUsers(history, clock, limits.window)
      ensures forall u | u in stale :: Live(Times(history, u), clock, limits.window) == []
    {
      forall u | u in hits
        ensures u in stale <==> Live(Times(history, u), clock, limits.window) == []
      {
        if u in stale {
          NewestExpired(hits[u], clock, limits.window);
        } else {
          var n := |hits[u]| - 1;
          LiveAppend(hits[u][..n], hits[u][n], clock, limits.window);
          assert hits[u] == hits[u][..n] + [hits[u][n]];
        }
      }
      forall u | Live(Times(history, u), clock, limits.window) != []
        ensures u in Users(history)
      {
        if u !in Users(history) { TimesOfStranger(history, u); }
      }
      forall u
        ensures u in hits.Keys - stale <==> u in LiveUsers(history, clock, limits.window)
      {
      }
    }

    /** Expired hits leave the user's deque from the front; an empty deque leaves the table. */
    method DropExpired(user: User, now: real)
      requires Table() && clock == now && user in hits
      modifies this`hits
      ensures Table() && hits.Keys <= old(hits.Keys)
      ensures user in hits <==> LiveCount(history, user, now, limits.window) > 0
      ensures user in hits ==> |hits[user]| == LiveCount(history, user, now, limits.window)
    {
      while hits[user] != [] && now - hits[user][0] > limits.window
        invariant Table() && hits.Keys == old(hits.Keys)
        decreases |hits[user]|
      {
        assert Sorted(hits[user][1..]);
        hits := hits[user := hits[user][1..]];
      }
      OldestAlive(hits[user], now, limits.window);
      if hits[user] == [] {
        hits := hits - {user};
      }
    }

    /** A full table is swept; afterwards it is full exactly if there are that many live users. */
    method MakeRoom(now: real)
      requires Table() && clock == now
      modifies this`hits
      ensures Table() && hits.Keys <= old(hits.Keys)
      ensures |hits| >= limits.maxUsers <==> |LiveUsers(history, now, limits.window)| >= limits.maxUsers
    {
      if |hits| >= limits.maxUsers {
        EvictExpired(now);
      } else {
        FewLiveUsers();
      }
    }

    /** A new user enters with an empty deque. */
    method Enlist(user: User)
      requires Table() && user !in hits
      modifies this`hits
      ensures Table() && hits == old(hits)[user := []]
    {
      hits := hits[user := []];
      assert Stands(hits[user], user);
    }

    /** The user's deque, cut to the live hits; None when the table is full of other live users. */
    method Admit(user: User, now: real) returns (r: Option<seq<real>>)
      requires Valid() && clock == now
      modifies this`hits
      ensures Valid()
      ensures r.None? <==> Decide(limits, history, user, now).Dropped?
      ensures r.Some? ==>
        user in hits && r.value == hits[user] && |r.value| == LiveCount(history, user, now, limits.window)
    {
      hide Earned, Table, LiveUsers, LiveCount;
      if user in hits {
        DropExpired(user, now);
        KeysBound(hits.Keys, old(hits.Keys));
        if user in hits {
          return Some(hits[user]);
        }
      } else {
        NotTracked(user);
      }
      MakeRoom(now);
      KeysBound(hits.Keys, old(hits.Keys));
      if |hits| >= limits.maxUsers {
        return None;
      }
      Enlist(user);
      r := Some([]);
    }

    lemma NotTracked(user: User)
      requires Table() && user !in hits
      ensures LiveCount(history, user, clock, limits.window) == 0
    {
      assert Live(Times(history, user), clock, limits.window) == [];
    }

    /** The handled event joins the deque and the full history. */
    method Record(user: User, now: real)
      requires Valid() && clock == now && user in hits
      requires LiveCount(history, user, now, limits.window) < limits.maxEvents
      modifies this`hits, this`history
      ensures Valid() && history == old(history) + [Hit(user, now)]
    {
      hide Earned, LiveCount, Times, Live;
      ghost var before, h := history, Hit(user, now);
      EarnedAppend(limits, before, h);
      hits := hits[user := hits[user] + [now]];
      history := history + [h];
      forall u
        ensures u in hits ==> Stands(hits[u], u)
        ensures u !in hits ==> Live(Times(history, u), clock, limits.window) == []
      {
        TimesAppend(before, h, u);
        assert u != user ==> Times(before, u) + [] == Times(before, u);
        LiveAppend(Times(before, u), now, now, limits.window);
        if u == user { LiveAppend(old(hits)[u], now, now, limits.window); }
      }
    }

    /** One event of the bot. Without a user it passes; otherwise the answer is the one of the full history. */
    method Call(user: Option<User>, now: real) returns (outcome: Outcome)
      requires Valid() && clock <= now
      modifies this
      ensures Valid()
      ensures user.None? ==> outcome == Passed && history == old(history)
      ensures user.Some? ==>
        && outcome == Decide(limits, old(history), user.value, now)
        && history == old(history) + (if outcome == Handled then [Hit(user.value, now)] else [])
        && clock == now
    {
      hide Table, Earned, LiveCount, LiveUsers, Sized;
      if user.None? {
        return Passed;
      }
      var u := user.value;
      Tick(now);
      var admitted := Admit(u, now);
      if admitted.None? {
        return Dropped;
      }
      if |admitted.value| >= limits.maxEvents {
        return Throttled;
      }
      Record(u, now);
      outcome := Handled;
    }
  }
}
