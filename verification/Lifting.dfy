/** A thread does the same inside a fork or a fan-out body as it does on its own. */
module Lifting {
  import opened Base
  import opened Machine

  lemma {:induction false} RunOfOne(w: World, ex: Exec, c: Config, p: seq<string>)
    ensures Run(w, ex, c, [p]) == Step(w, ex, c, p)
  {
    hide Step;
    if Step(w, ex, c, p).Some? { assert Run(w, ex, Step(w, ex, c, p).value, [p][1..]) == Step(w, ex, c, p); }
  }

  lemma {:induction false} RunSplits(w: World, ex: Exec, c: Config, s: seq<seq<string>>, s': seq<seq<string>>)
    requires Run(w, ex, c, s).Some?
    ensures Run(w, ex, c, s + s') == Run(w, ex, Run(w, ex, c, s).value, s')
    decreases |s|
  {
    hide Step;
    if s == [] {
      assert s + s' == s';
    } else {
      assert (s + s')[1..] == s[1..] + s';
      RunSplits(w, ex, Step(w, ex, c, s[0]).value, s[1..], s');
    }
  }

  lemma {:induction false} RunPrefix(w: World, ex: Exec, c: Config, s: seq<seq<string>>, n: nat)
    requires n <= |s| && Run(w, ex, c, s).Some?
    ensures Run(w, ex, c, s[..n]).Some?
    ensures Run(w, ex, c, s) == Run(w, ex, Run(w, ex, c, s[..n]).value, s[n..])
    decreases n
  {
    hide Step;
    if n > 0 {
      RunPrefix(w, ex, Step(w, ex, c, s[0]).value, s[1..], n - 1);
      assert s[1..][..n - 1] == s[..n][1..];
      assert s[1..][n - 1..] == s[n..];
    }
  }

  /** The chain at the root of `c`, as the branch `l` of its fork. */
  function WithBranch(c: Config, l: string, b: Config): Config
    requires c.thread.ctl.Fork?
  {
    Config(Thread(c.thread.results, c.thread.ctl.(branches := c.thread.ctl.branches[l := b.thread])), b.shared)
  }

  function WithBody(c: Config, b: Config): Config
    requires c.thread.ctl.Fanout?
  {
    Config(Thread(b.thread.results, c.thread.ctl.(body := b.thread.ctl)), b.shared)
  }

  function Branch(c: Config, l: string): Config
    requires c.thread.ctl.Fork? && l in c.thread.ctl.branches
  {
    Config(c.thread.ctl.branches[l], c.shared)
  }

  function Body(c: Config): Config
    requires c.thread.ctl.Fanout?
  {
    Config(Thread(c.thread.results, c.thread.ctl.body), c.shared)
  }

  lemma {:induction false} StepInBranch(w: World, ex: Exec, c: Config, l: string, p: seq<string>)
    requires c.thread.ctl.Fork? && l in c.thread.ctl.branches && !c.thread.ctl.branches[l].ctl.Raised?
    ensures var r := Step(w, ex, Branch(c, l), p);
            Step(w, ex, c, [l] + p) == if r.None? then None else Some(WithBranch(c, l, r.value))
  {
    hide AtHead, AtClaim, AtExecute, NextItem, Join;
    assert ([l] + p)[1..] == p;
  }

  lemma {:induction false} StepInBody(w: World, ex: Exec, c: Config, p: seq<string>)
    requires c.thread.ctl.Fanout? && !Finished(c.thread.ctl.body)
    ensures var r := Step(w, ex, Body(c), p);
            Step(w, ex, c, p) == if r.None? then None else Some(WithBody(c, r.value))
  {
    hide AtHead, AtClaim, AtExecute, NextItem, Join;
  }

  lemma {:induction false} FinishedCannotMove(w: World, ex: Exec, c: Config, p: seq<string>)
    requires Finished(c.thread.ctl)
    ensures Step(w, ex, c, p).None?
  {
  }

  lemma {:induction false} FanoutStep(w: World, ex: Exec, c: Config)
    requires c.thread.ctl.Fanout? && Finished(c.thread.ctl.body)
    ensures var Fanout(f, n, output, items, body) := c.thread.ctl;
            Step(w, ex, c, []) ==
              Some(Config(NextItem(w, c.thread.results, f, n, output, items, body, Look(c.shared, None)).thread,
                          c.shared))
  {
    hide NextItem;
    var Fanout(f, n, output, items, body) := c.thread.ctl;
    assert KeyAt(body, []) == None;
    NextItemIsSilent(w, c.thread.results, f, n, output, items, body, Look(c.shared, None));
  }

  /** A failed branch takes the fork, and with it the chain, down. */
  lemma {:induction false} FailStep(w: World, ex: Exec, c: Config, l: string)
    requires c.thread.ctl.Fork? && l in c.thread.ctl.branches
    requires c.thread.ctl.branches[l].ctl.Raised? && c.thread.ctl.branches[l].ctl.exn != Abort
    ensures Step(w, ex, c, [l]) == Some(Config(Thread(c.thread.results, c.thread.ctl.branches[l].ctl), c.shared))
  {
  }

  function Prefixed(l: string, s: seq<seq<string>>): seq<seq<string>> {
    seq(|s|, i requires 0 <= i < |s| => [l] + s[i])
  }

  /** A run of a branch alone is a run of the fork, in which no other branch moves. */
  lemma {:induction false} RunInBranch(w: World, ex: Exec, c: Config, l: string, s: seq<seq<string>>)
    requires c.thread.ctl.Fork? && l in c.thread.ctl.branches
    requires Run(w, ex, Branch(c, l), s).Some?
    ensures Run(w, ex, c, Prefixed(l, s)) == Some(WithBranch(c, l, Run(w, ex, Branch(c, l), s).value))
    decreases |s|
  {
    hide Step;
    if s == [] {
      assert c.thread.ctl.branches[l := c.thread.ctl.branches[l]] == c.thread.ctl.branches;
    } else {
      if c.thread.ctl.branches[l].ctl.Raised? { FinishedCannotMove(w, ex, Branch(c, l), s[0]); }
      StepInBranch(w, ex, c, l, s[0]);
      var b := Step(w, ex, Branch(c, l), s[0]).value;
      var c' := WithBranch(c, l, b);
      assert Branch(c', l) == b;
      RunInBranch(w, ex, c', l, s[1..]);
      assert Prefixed(l, s)[1..] == Prefixed(l, s[1..]);
      var d := Run(w, ex, b, s[1..]).value;
      assert c.thread.ctl.branches[l := b.thread][l := d.thread] == c.thread.ctl.branches[l := d.thread];
    }
  }

  /** A run of a body chain alone is a run of the fan-out around it. */
  lemma {:induction false} RunInBody(w: World, ex: Exec, c: Config, s: seq<seq<string>>)
    requires c.thread.ctl.Fanout?
    requires Run(w, ex, Body(c), s).Some?
    ensures Run(w, ex, c, s) == Some(WithBody(c, Run(w, ex, Body(c), s).value))
    decreases |s|
  {
    hide Step;
    if s != [] {
      if Finished(c.thread.ctl.body) { FinishedCannotMove(w, ex, Body(c), s[0]); }
      StepInBody(w, ex, c, s[0]);
      var b := Step(w, ex, Body(c), s[0]).value;
      assert Body(WithBody(c, b)) == b;
      RunInBody(w, ex, WithBody(c, b), s[1..]);
    }
  }
}
