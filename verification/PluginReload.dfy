/** Reloading a plugin in every pane that runs it: all of them move to the new
    build, or all are put back. State transfer, storage and messages are left out. */
module PluginReload {
  import opened Identifiers

  /// A loaded build of a plugin.
  type Build = nat

  /// The build a pane's host refers to, whether an instance of it is live, and
  /// whether that instance was quiesced for a reload.
  datatype HostState = HostState(build: Build, live: bool, quiesced: bool)

  predicate Runs(h: HostState, build: Build) {
    h.live && h.build == build
  }

  function Quiesce(h: HostState): HostState {
    if h.live then h.(quiesced := true) else h
  }

  /// Stops the instance and starts the candidate; if that fails, starts the build
  /// that ran before. The flags say whether each start would succeed.
  function Reload(h: HostState, candidate: Build, starts: bool, restarts: bool): (HostState, bool) {
    if !h.live then (h, false)
    else if starts then (HostState(candidate, true, false), true)
    else (HostState(h.build, restarts, false), false)
  }

  /// Whether the starts of one host would succeed: the candidate, the build before
  /// it, and the same for the call that puts the host back.
  datatype Starts = Starts(candidate: bool, before: bool, back: bool, backFailed: bool)

  /// The first host that does not take the candidate.
  function FirstFailure(hosts: seq<HostState>, starts: seq<Starts>, i: nat): (k: nat)
    requires |starts| == |hosts| && i <= |hosts|
    ensures i <= k <= |hosts|
    ensures forall j :: i <= j < k ==> hosts[j].live && starts[j].candidate
    ensures k < |hosts| ==> !(hosts[k].live && starts[k].candidate)
    decreases |hosts| - i
  {
    if i == |hosts| || !(hosts[i].live && starts[i].candidate) then i else FirstFailure(hosts, starts, i + 1)
  }

  /// Where one host ends up when the k-th is the first to fail.
  function Outcome(h: HostState, candidate: Build, s: Starts, i: nat, k: nat): HostState {
    var quiet := Quiesce(h);
    var moved := Reload(quiet, candidate, s.candidate, s.before).0;
    if i < k then Reload(moved, h.build, s.back, s.backFailed).0
    else if i == k then moved
    else Reload(quiet, h.build, s.back, s.backFailed).0
  }

  datatype Summary = Summary(matched: nat, reloaded: nat, rolledBack: bool)

  /// The hosts of the plugin after a reload; no candidate means none could be prepared.
  function ReloadCohort(hosts: seq<HostState>, candidate: Option<Build>, starts: seq<Starts>): (seq<HostState>, Summary)
    requires |starts| == |hosts|
  {
    if hosts == [] || candidate.None? then (hosts, Summary(|hosts|, 0, false))
    else
      var k := FirstFailure(hosts, starts, 0);
      if k == |hosts| then
        (seq(|hosts|, i requires 0 <= i < |hosts| => HostState(candidate.value, true, false)),
         Summary(|hosts|, |hosts|, false))
      else
        (seq(|hosts|, i requires 0 <= i < |hosts| => Outcome(hosts[i], candidate.value, starts[i], i, k)),
         Summary(|hosts|, 0, true))
  }

  // ---------------------------------------------------------------------------
  // All or nothing

  /// The host, which ran at entry, is put back: a host that had moved starts its
  /// former build again; the one that failed, and one not yet reached, starts it at
  /// the first or the second try.
  predicate PutBack(s: Starts, i: nat, k: nat) {
    if i < k then s.back else if i == k then s.before else s.back || s.backFailed
  }

  /// One host of a failed cohort: a live one runs the build it ran at entry exactly
  /// when it is put back, and one whose instance was gone stays as it was.
  lemma BackExactlyWhen(h: HostState, candidate: Build, s: Starts, i: nat, k: nat)
    requires h.live ==> candidate != h.build
    requires (i < k ==> h.live && s.candidate) && (i == k ==> !(h.live && s.candidate))
    ensures var after := Outcome(h, candidate, s, i, k);
            && (h.live ==> (Runs(after, h.build) <==> PutBack(s, i, k)))
            && (h.live && !PutBack(s, i, k) && i < k && s.backFailed ==> Runs(after, candidate))
            && (!h.live ==> after == h)
  {}

  /// The candidate is another build than those the live hosts run.
  predicate IsNew(hosts: seq<HostState>, candidate: Build) {
    forall i :: 0 <= i < |hosts| && hosts[i].live ==> hosts[i].build != candidate
  }

  lemma FailsBefore(hosts: seq<HostState>, starts: seq<Starts>, i: nat)
    requires |starts| == |hosts| && i < |hosts| && !(hosts[i].live && starts[i].candidate)
    ensures FirstFailure(hosts, starts, 0) < |hosts|
  {}

  /// A reload is atomic over the cohort, whatever became of its hosts before. It
  /// succeeds exactly when every host is live and takes the candidate, and then
  /// every host runs it. If it fails none is counted as reloaded, each live host
  /// runs the build it ran at entry exactly when it is put back, and a host whose
  /// instance was gone is left alone.
  lemma ReloadIsAtomic(hosts: seq<HostState>, candidate: Option<Build>, starts: seq<Starts>)
    requires |starts| == |hosts| && (candidate.Some? ==> IsNew(hosts, candidate.value))
    ensures var (after, r) := ReloadCohort(hosts, candidate, starts);
            && r.matched == |hosts| == |after|
            && (r.rolledBack <==>
                candidate.Some? && exists i :: 0 <= i < |hosts| && !(hosts[i].live && starts[i].candidate))
            && (candidate.Some? && !r.rolledBack ==>
                  r.reloaded == r.matched && forall i :: 0 <= i < |hosts| ==> Runs(after[i], candidate.value))
            && (candidate.None? || r.rolledBack ==> r.reloaded == 0)
            && (candidate.None? ==> after == hosts)
            && (r.rolledBack ==>
                  var k := FirstFailure(hosts, starts, 0);
                  forall i :: 0 <= i < |hosts| ==>
                    if hosts[i].live then Runs(after[i], hosts[i].build) <==> PutBack(starts[i], i, k)
                      else after[i] == hosts[i])
  {
    var (after, r) := ReloadCohort(hosts, candidate, starts);
    if candidate.Some? && hosts != [] {
      var k := FirstFailure(hosts, starts, 0);
      if k < |hosts| {
        assert !(hosts[k].live && starts[k].candidate);
        forall i | 0 <= i < |hosts|
          ensures if hosts[i].live then Runs(after[i], hosts[i].build) <==> PutBack(starts[i], i, k)
                  else after[i] == hosts[i]
        {
          BackExactlyWhen(hosts[i], candidate.value, starts[i], i, k);
        }
      }
    }
    hide PutBack;
    hide Outcome;
  }

  /// What the operation promises when nothing goes wrong twice: if every call that
  /// puts a host back succeeds and a failing reload leaves its host as it was, every
  /// live host of the cohort runs on as before.
  lemma CleanRollback(hosts: seq<HostState>, candidate: Option<Build>, starts: seq<Starts>)
    requires |starts| == |hosts| && (candidate.Some? ==> IsNew(hosts, candidate.value))
    requires forall i :: 0 <= i < |hosts| ==> starts[i].back && starts[i].before
    ensures var (after, r) := ReloadCohort(hosts, candidate, starts);
            r.rolledBack ==> forall i :: 0 <= i < |hosts| && hosts[i].live ==> Runs(after[i], hosts[i].build)
  {
    ReloadIsAtomic(hosts, candidate, starts);
  }

  // ---------------------------------------------------------------------------
  // Reloads one after another

  /// A reload attempt: the build prepared, if any, and how the starts turn out.
  datatype Attempt = Attempt(candidate: Option<Build>, starts: seq<Starts>)

  ghost predicate Attempts(states: seq<seq<HostState>>, attempts: seq<Attempt>) {
    && |states| == |attempts| + 1
    && forall j :: 0 <= j < |attempts| ==>
         |attempts[j].starts| == |states[j]|
         && states[j + 1] == ReloadCohort(states[j], attempts[j].candidate, attempts[j].starts).0
  }

  /// One host without a live instance makes the reload of its whole cohort fail,
  /// and is without one afterwards.
  lemma DeadHostBlocks(hosts: seq<HostState>, candidate: Option<Build>, starts: seq<Starts>, i: nat)
    requires |starts| == |hosts| && i < |hosts| && !hosts[i].live
    ensures var (after, r) := ReloadCohort(hosts, candidate, starts);
            && |after| == |hosts| && after[i] == hosts[i] && r.reloaded == 0 && (candidate.Some? ==> r.rolledBack)
  {
    FailsBefore(hosts, starts, i);
  }

  /// So once a host has lost its instance, no later reload of the cohort succeeds.
  lemma {:induction false} DeadHostBlocksAll(states: seq<seq<HostState>>, attempts: seq<Attempt>, i: nat, j: nat,
                                             k: nat)
    requires Attempts(states, attempts) && j <= k <= |attempts|
    requires i < |states[j]| && !states[j][i].live
    ensures i < |states[k]| && states[k][i] == states[j][i]
    ensures k < |attempts| ==> ReloadCohort(states[k], attempts[k].candidate, attempts[k].starts).1.reloaded == 0
    decreases k - j
  {
    hide ReloadCohort;
    if j < k {
      DeadHostBlocksAll(states, attempts, i, j, k - 1);
      DeadHostBlocks(states[k - 1], attempts[k - 1].candidate, attempts[k - 1].starts, i);
    }
    if k < |attempts| {
      DeadHostBlocks(states[k], attempts[k].candidate, attempts[k].starts, i);
    }
  }

  /// It takes one host that starts neither the candidate nor the build before it:
  /// it has no instance from then on, and the plugin cannot be reloaded any more.
  lemma OneFailedRollbackBlocksAll(states: seq<seq<HostState>>, attempts: seq<Attempt>, f: nat, k: nat)
    requires Attempts(states, attempts) && 0 < k < |attempts| && attempts[0].candidate.Some?
    requires f < |states[0]| && FirstFailure(states[0], attempts[0].starts, 0) == f
    requires states[0][f].live && !attempts[0].starts[f].before
    ensures ReloadCohort(states[k], attempts[k].candidate, attempts[k].starts).1.reloaded == 0
    ensures f < |states[k]| && !states[k][f].live
  {
    assert states[1] == ReloadCohort(states[0], attempts[0].candidate, attempts[0].starts).0;
    assert !states[1][f].live;
    hide ReloadCohort;
    DeadHostBlocksAll(states, attempts, f, 1, k);
  }

  // ---------------------------------------------------------------------------
  // In place

  class PluginHost {
    var build: Build
    var live: bool
    var quiesced: bool

    constructor (build: Build)
      ensures State() == HostState(build, true, false)
    {
      this.build, live, quiesced := build, true, false;
    }

    function State(): HostState
      reads this
    {
      HostState(build, live, quiesced)
    }

    method QuiesceForReload()
      modifies this
      ensures State() == Quiesce(old(State()))
    {
      if live && !quiesced {
        quiesced := true;
      }
    }

    method ReloadWith(candidate: Build, starts: bool, restarts: bool) returns (ok: bool)
      modifies this
      ensures (State(), ok) == Reload(old(State()), candidate, starts, restarts)
    {
      if !live {
        return false;
      }
      var former := build;
      live, quiesced := false, false;
      build := candidate;
      if starts {
        live := true;
        return true;
      }
      build := former;
      live := restarts;
      return false;
    }
  }

  ghost predicate Separate(hosts: seq<PluginHost>) {
    forall i, j :: 0 <= i < j < |hosts| ==> hosts[i] != hosts[j]
  }

  ghost function StatesOf(hosts: seq<PluginHost>): (s: seq<HostState>)
    reads hosts
    ensures |s| == |hosts| && forall i :: 0 <= i < |hosts| ==> s[i] == hosts[i].State()
  {
    seq(|hosts|, i requires 0 <= i < |hosts| reads hosts => hosts[i].State())
  }

  method QuiesceAll(hosts: seq<PluginHost>)
    requires Separate(hosts)
    modifies hosts
    ensures forall i :: 0 <= i < |hosts| ==> hosts[i].State() == Quiesce(old(hosts[i].State()))
  {
    for i := 0 to |hosts|
      invariant forall j :: 0 <= j < i ==> hosts[j].State() == Quiesce(old(hosts[j].State()))
      invariant forall j :: i <= j < |hosts| ==> hosts[j].State() == old(hosts[j].State())
    {
      hosts[i].QuiesceForReload();
    }
  }

  /// Moves hosts to the candidate one by one, up to the first that fails; the
  /// builds they ran are kept in order.
  method MoveAll(hosts: seq<PluginHost>, candidate: Build, starts: seq<Starts>) returns (k: nat, previous: seq<Build>)
    requires Separate(hosts) && |starts| == |hosts|
    modifies hosts
    ensures k == FirstFailure(old(StatesOf(hosts)), starts, 0) && |previous| == k
    ensures forall i :: 0 <= i < k ==> previous[i] == old(hosts[i].build)
    ensures forall i :: 0 <= i < |hosts| ==>
              hosts[i].State() == if i <= k then
                Reload(old(hosts[i].State()), candidate, starts[i].candidate, starts[i].before).0
                                  else old(hosts[i].State())
  {
    ghost var before := StatesOf(hosts);
    k, previous := 0, [];
    while k < |hosts|
      invariant k <= |hosts| && |previous| == k
      invariant FirstFailure(before, starts, 0) == FirstFailure(before, starts, k)
      invariant forall i :: 0 <= i < k ==> previous[i] == old(hosts[i].build)
      invariant forall i :: 0 <= i < k ==>
                  hosts[i].State() == Reload(before[i], candidate, starts[i].candidate, starts[i].before).0
      invariant forall i :: k <= i < |hosts| ==> hosts[i].State() == before[i]
    {
      var former := hosts[k].build;
      var ok := hosts[k].ReloadWith(candidate, starts[k].candidate, starts[k].before);
      if !ok {
        return;
      }
      previous := previous + [former];
      k := k + 1;
    }
  }

  /// Puts hosts that had moved back, the latest first.
  method RollBack(hosts: seq<PluginHost>, previous: seq<Build>, starts: seq<Starts>)
    requires Separate(hosts) && |starts| == |hosts| && |previous| <= |hosts|
    modifies hosts
    ensures forall i :: 0 <= i < |previous| ==>
              hosts[i].State() == Reload(old(hosts[i].State()), previous[i], starts[i].back, starts[i].backFailed).0
    ensures forall i :: |previous| <= i < |hosts| ==> hosts[i].State() == old(hosts[i].State())
  {
    var i: nat := |previous|;
    while i > 0
      invariant i <= |previous|
      invariant forall j :: i <= j < |previous| ==>
                  hosts[j].State() == Reload(old(hosts[j].State()), previous[j], starts[j].back, starts[j].backFailed).0
      invariant forall j :: 0 <= j < i || |previous| <= j < |hosts| ==> hosts[j].State() == old(hosts[j].State())
    {
      i := i - 1;
      var _ := hosts[i].ReloadWith(previous[i], starts[i].back, starts[i].backFailed);
    }
  }

  /// Starts the hosts that were only quiesced again, from the given one on.
  method Resume(hosts: seq<PluginHost>, first: nat, starts: seq<Starts>)
    requires Separate(hosts) && |starts| == |hosts| && first <= |hosts|
    modifies hosts
    ensures forall i :: first <= i < |hosts| ==>
              hosts[i].State() ==
                Reload(old(hosts[i].State()), old(hosts[i].build), starts[i].back, starts[i].backFailed).0
    ensures forall i :: 0 <= i < first ==> hosts[i].State() == old(hosts[i].State())
  {
    for i := first to |hosts|
      invariant forall j :: first <= j < i ==>
                  hosts[j].State() ==
                    Reload(old(hosts[j].State()), old(hosts[j].build), starts[j].back, starts[j].backFailed).0
      invariant forall j :: 0 <= j < first || i <= j < |hosts| ==> hosts[j].State() == old(hosts[j].State())
    {
      var _ := hosts[i].ReloadWith(hosts[i].build, starts[i].back, starts[i].backFailed);
    }
  }

  lemma {:induction false} QuietFailure(hosts: seq<HostState>, quiet: seq<HostState>, starts: seq<Starts>, i: nat)
    requires |hosts| == |quiet| == |starts| && i <= |hosts|
    requires forall j :: 0 <= j < |hosts| ==> quiet[j] == Quiesce(hosts[j])
    ensures FirstFailure(quiet, starts, i) == FirstFailure(hosts, starts, i)
    decreases |hosts| - i
  {
    if i < |hosts| {
      QuietFailure(hosts, quiet, starts, i + 1);
    }
  }

  /// Reloads the plugin in all its hosts.
  method ReloadPlugin(hosts: seq<PluginHost>, candidate: Option<Build>, starts: seq<Starts>) returns (r: Summary)
    requires Separate(hosts) && |starts| == |hosts|
    modifies hosts
    ensures (StatesOf(hosts), r) == ReloadCohort(old(StatesOf(hosts)), candidate, starts)
  {
    hide Separate;
    ghost var before := StatesOf(hosts);
    if |hosts| == 0 || candidate.None? {
      assert StatesOf(hosts) == before;
      return Summary(|hosts|, 0, false);
    }
    QuiesceAll(hosts);
    ghost var quiet := StatesOf(hosts);
    QuietFailure(before, quiet, starts, 0);
    var k, previous := MoveAll(hosts, candidate.value, starts);
    if k == |hosts| {
      assert StatesOf(hosts) == ReloadCohort(before, candidate, starts).0;
      return Summary(|hosts|, |hosts|, false);
    }
    RollBack(hosts, previous, starts);
    Resume(hosts, k + 1, starts);
    assert StatesOf(hosts) == ReloadCohort(before, candidate, starts).0;
    return Summary(|hosts|, 0, true);
  }
}
