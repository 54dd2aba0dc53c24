/** One detection pass over a claimed batch: every match of every rule becomes an
    alert or a hit of the first suppression that covers it, and the whole batch is
    completed. What a rule matches is given: `None` when its evaluation fails. */
module Detection {
  import opened Collections
  import opened EventQueue
  import opened Options

  type RuleId = string

  /** A match, with the fields of its event that are not NULL. */
  datatype Match = Match(entity: string, fields: map<string, string>)

  datatype Suppression = Suppression(id: string, rule: RuleId, field: string, value: string)

  /** What happens to one match. */
  datatype Verdict = Raised(rule: RuleId, what: Match) | Dropped(suppression: string)

  predicate Applies(s: Suppression, rule: RuleId, m: Match) {
    (s.rule == "*" || s.rule == rule) && s.field in m.fields && m.fields[s.field] == s.value
  }

  /** The first suppression of the list that applies. */
  function FirstOf(suppressions: seq<Suppression>, rule: RuleId, m: Match): Option<string> {
    if suppressions == [] then None
    else if Applies(suppressions[0], rule, m) then Some(suppressions[0].id)
    else FirstOf(suppressions[1..], rule, m)
  }

  method Suppressed(suppressions: seq<Suppression>, rule: RuleId, m: Match) returns (sid: Option<string>)
    ensures sid == FirstOf(suppressions, rule, m)
  {
    for i := 0 to |suppressions|
      invariant FirstOf(suppressions, rule, m) == FirstOf(suppressions[i..], rule, m)
    {
      if Applies(suppressions[i], rule, m) {
        return Some(suppressions[i].id);
      }
    }
    return None;
  }

  function Judge(suppressions: seq<Suppression>, rule: RuleId, m: Match): Verdict {
    var sid := FirstOf(suppressions, rule, m);
    if sid.Some? then Dropped(sid.value) else Raised(rule, m)
  }

  /** The first suppression of the list that is for this rule, or for all, and whose field
      of the event is there and has its value. */
  ghost predicate FirstCover(suppressions: seq<Suppression>, rule: RuleId, m: Match, k: nat) {
    && k < |suppressions| && (suppressions[k].rule == "*" || suppressions[k].rule == rule)
    && suppressions[k].field in m.fields && m.fields[suppressions[k].field] == suppressions[k].value
    && Uncovered(suppressions[..k], rule, m)
  }

  ghost predicate Uncovered(suppressions: seq<Suppression>, rule: RuleId, m: Match) {
    forall s :: s in suppressions ==> !((s.rule == "*" || s.rule == rule) && s.field in m.fields && m.fields[s.field] == s.value)
  }

  /** A match is dropped exactly when some suppression covers it, and is charged to the
      first that does. */
  lemma {:induction false} DroppedIff(suppressions: seq<Suppression>, rule: RuleId, m: Match)
    ensures Judge(suppressions, rule, m) == Raised(rule, m) <==> Uncovered(suppressions, rule, m)
    ensures forall id :: Judge(suppressions, rule, m) == Dropped(id)
                         <==> exists k: nat :: FirstCover(suppressions, rule, m, k) && suppressions[k].id == id
  {
    hide Uncovered, Applies;
    NothingCovers(rule, m);
    if suppressions != [] {
      var rest := suppressions[1..];
      DroppedIff(rest, rule, m);
      CoverOfTail(suppressions, rule, m);
    }
  }

  lemma NothingCovers(rule: RuleId, m: Match)
    ensures Uncovered([], rule, m) && forall k: nat :: !FirstCover([], rule, m, k)
  {
  }

  lemma CoverOfTail(suppressions: seq<Suppression>, rule: RuleId, m: Match)
    requires suppressions != []
    ensures Applies(suppressions[0], rule, m) ==> FirstCover(suppressions, rule, m, 0) && !Uncovered(suppressions, rule, m)
    ensures Applies(suppressions[0], rule, m) ==> forall k: nat :: FirstCover(suppressions, rule, m, k) ==> k == 0
    ensures !Applies(suppressions[0], rule, m) ==> (Uncovered(suppressions, rule, m) <==> Uncovered(suppressions[1..], rule, m))
    ensures !Applies(suppressions[0], rule, m) ==>
      !FirstCover(suppressions, rule, m, 0)
      && forall k: nat :: FirstCover(suppressions, rule, m, k + 1) <==> FirstCover(suppressions[1..], rule, m, k)
  {
    var rest := suppressions[1..];
    assert suppressions == [suppressions[0]] + rest;
    forall k: nat | k < |rest| ensures suppressions[..k + 1] == [suppressions[0]] + rest[..k] && rest[k] == suppressions[k + 1] { }
  }

  function JudgeAll(suppressions: seq<Suppression>, rule: RuleId, matches: seq<Match>): (vs: seq<Verdict>)
    ensures |vs| == |matches|
  {
    if matches == [] then []
    else JudgeAll(suppressions, rule, matches[..|matches| - 1]) + [Judge(suppressions, rule, matches[|matches| - 1])]
  }

  /** A rule that fails to evaluate is passed over; the others still run. */
  function MatchesOf(evaluate: RuleId -> Option<seq<Match>>, rule: RuleId): seq<Match> {
    if evaluate(rule).None? then [] else evaluate(rule).value
  }

  function Verdicts(suppressions: seq<Suppression>, rules: seq<RuleId>, evaluate: RuleId -> Option<seq<Match>>): seq<Verdict> {
    if rules == [] then []
    else
      var rule := rules[|rules| - 1];
      Verdicts(suppressions, rules[..|rules| - 1], evaluate) + JudgeAll(suppressions, rule, MatchesOf(evaluate, rule))
  }

  function Alerts(vs: seq<Verdict>): seq<Verdict> {
    if vs == [] then []
    else Alerts(vs[..|vs| - 1]) + (if vs[|vs| - 1].Raised? then [vs[|vs| - 1]] else [])
  }

  /** How many matches a suppression dropped. */
  function Drops(vs: seq<Verdict>, id: string): nat {
    if vs == [] then 0 else Drops(vs[..|vs| - 1], id) + if vs[|vs| - 1] == Dropped(id) then 1 else 0
  }

  lemma {:induction false} AlertsSnoc(vs: seq<Verdict>, v: Verdict)
    ensures Alerts(vs + [v]) == Alerts(vs) + (if v.Raised? then [v] else [])
    ensures forall id :: Drops(vs + [v], id) == Drops(vs, id) + if v == Dropped(id) then 1 else 0
  {
    assert (vs + [v])[..|vs|] == vs;
  }

  /** The counters of the pass, and the alerts it wrote. */
  datatype Outcome = Outcome(alerts: seq<Verdict>, suppressed: nat, hits: map<string, nat>)

  /** Every verdict is counted once: as an alert, or as a hit of its suppression. */
  ghost predicate Counts(vs: seq<Verdict>, o: Outcome) {
    && o.alerts == Alerts(vs) && |o.alerts| + o.suppressed == |vs|
    && forall id :: (if id in o.hits then o.hits[id] else 0) == Drops(vs, id)
  }

  function Counted(o: Outcome, v: Verdict): Outcome {
    match v
    case Raised(_, _) => o.(alerts := o.alerts + [v])
    case Dropped(id) => o.(suppressed := o.suppressed + 1, hits := o.hits[id := (if id in o.hits then o.hits[id] else 0) + 1])
  }

  lemma CountOne(vs: seq<Verdict>, o: Outcome, v: Verdict)
    requires Counts(vs, o)
    ensures Counts(vs + [v], Counted(o, v))
  {
    hide Alerts, Drops;
    AlertsSnoc(vs, v);
  }

  predicate IsOf(v: Verdict, rule: RuleId) {
    v.Raised? && v.rule == rule
  }

  /** The rules that raised some alert. */
  function Fired(alerts: seq<Verdict>): set<RuleId> {
    set k | 0 <= k < |alerts| && alerts[k].Raised? :: alerts[k].rule
  }

  lemma FiredGrows(alerts: seq<Verdict>, more: seq<Verdict>, rule: RuleId)
    requires alerts <= more && forall k :: |alerts| <= k < |more| ==> IsOf(more[k], rule)
    ensures Fired(more) == Fired(alerts) + (if |more| > |alerts| then {rule} else {})
  {
    forall r | r in Fired(alerts) ensures r in Fired(more) {
      var k :| 0 <= k < |alerts| && alerts[k].Raised? && alerts[k].rule == r;
      assert more[k] == alerts[k];
    }
    forall r | r in Fired(more) && r != rule ensures r in Fired(alerts) {
      var k :| 0 <= k < |more| && more[k].Raised? && more[k].rule == r;
      assert more[k] == alerts[k];
    }
    if |more| > |alerts| {
      assert IsOf(more[|alerts|], rule);
    }
  }

  /** The matches of one rule. */
  method Tally(suppressions: seq<Suppression>, rule: RuleId, matches: seq<Match>, start: Outcome, ghost vs: seq<Verdict>)
    returns (o: Outcome)
    requires Counts(vs, start)
    ensures Counts(vs + JudgeAll(suppressions, rule, matches), o)
    ensures start.alerts <= o.alerts && forall k :: |start.alerts| <= k < |o.alerts| ==> IsOf(o.alerts[k], rule)
  {
    hide Counts, FirstOf;
    o := start;
    assert vs + [] == vs;
    for i := 0 to |matches|
      invariant Counts(vs + JudgeAll(suppressions, rule, matches[..i]), o)
      invariant start.alerts <= o.alerts && forall k :: |start.alerts| <= k < |o.alerts| ==> IsOf(o.alerts[k], rule)
    {
      ghost var soFar := JudgeAll(suppressions, rule, matches[..i]);
      assert matches[..i + 1][..i] == matches[..i];
      assert vs + JudgeAll(suppressions, rule, matches[..i + 1]) == vs + soFar + [Judge(suppressions, rule, matches[i])];
      CountOne(vs + soFar, o, Judge(suppressions, rule, matches[i]));
      var sid := Suppressed(suppressions, rule, matches[i]);
      if sid.Some? {
        o := o.(hits := o.hits[sid.value := (if sid.value in o.hits then o.hits[sid.value] else 0) + 1],
                suppressed := o.suppressed + 1);
      } else {
        o := o.(alerts := o.alerts + [Raised(rule, matches[i])]);
      }
    }
    assert matches[..|matches|] == matches;
  }

  // The pass, match by match.

  /** The k-th match of the r-th rule, when that rule could be evaluated. */
  ghost predicate IsMatch(rules: seq<RuleId>, evaluate: RuleId -> Option<seq<Match>>, r: nat, k: nat) {
    r < |rules| && evaluate(rules[r]).Some? && k < |evaluate(rules[r]).value|
  }

  ghost predicate InOrder(at: seq<(nat, nat)>) {
    forall i, j :: 0 <= i < j < |at| ==> at[i].0 < at[j].0 || (at[i].0 == at[j].0 && at[i].1 < at[j].1)
  }

  /** All matches, in the order of the rules and of each rule's matches. */
  ghost predicate AreMatches(rules: seq<RuleId>, evaluate: RuleId -> Option<seq<Match>>, at: seq<(nat, nat)>) {
    && (forall r: nat, k: nat :: (r, k) in at <==> IsMatch(rules, evaluate, r, k))
    && InOrder(at)
    && (forall n :: 0 <= n < |at| ==> IsMatch(rules, evaluate, at[n].0, at[n].1))
  }

  function MatchAt(rules: seq<RuleId>, evaluate: RuleId -> Option<seq<Match>>, p: (nat, nat)): Match
    requires IsMatch(rules, evaluate, p.0, p.1)
  {
    evaluate(rules[p.0]).value[p.1]
  }

  /** The alerts are the matches no suppression covers, in order. */
  ghost predicate AreRaised(suppressions: seq<Suppression>, rules: seq<RuleId>, evaluate: RuleId -> Option<seq<Match>>,
                            at: seq<(nat, nat)>, kept: seq<nat>, alerts: seq<Verdict>)
  {
    && AreMatches(rules, evaluate, at) && Ascending(kept)
    && (forall n: nat :: n in kept <==> n < |at| && Uncovered(suppressions, rules[at[n].0], MatchAt(rules, evaluate, at[n])))
    && |alerts| == |kept|
    && (forall j :: 0 <= j < |kept| ==>
          kept[j] < |at| && alerts[j] == Raised(rules[at[kept[j]].0], MatchAt(rules, evaluate, at[kept[j]])))
  }

  /** What becomes of the matches: those no suppression covers are raised; the others are
      counted, in all and for the first suppression that covers them; and the rules of the
      raised are stamped. */
  ghost predicate AsJudged(suppressions: seq<Suppression>, rules: seq<RuleId>, evaluate: RuleId -> Option<seq<Match>>, now: int,
                           at: seq<(nat, nat)>, kept: seq<nat>, alerts: seq<Verdict>, suppressed: nat,
                           hitsBefore: map<string, nat>, hits: map<string, nat>,
                           firedBefore: map<RuleId, int>, lastFired: map<RuleId, int>)
  {
    && AreRaised(suppressions, rules, evaluate, at, kept, alerts) && suppressed == |at| - |kept|
    && hits.Keys == hitsBefore.Keys && lastFired.Keys == firedBefore.Keys
    && (forall id :: id in hits ==> hits[id] == hitsBefore[id] + |ChargedTo(suppressions, rules, evaluate, at, id)|)
    && (forall r :: r in lastFired ==>
          lastFired[r] == if Fires(rules, at, kept, r) then now else firedBefore[r])
  }

  /** The matches that this suppression is the first to cover. */
  ghost function ChargedTo(suppressions: seq<Suppression>, rules: seq<RuleId>, evaluate: RuleId -> Option<seq<Match>>,
                           at: seq<(nat, nat)>, id: string): set<int>
  {
    set n | 0 <= n < |at| && IsMatch(rules, evaluate, at[n].0, at[n].1)
            && IsChargedTo(suppressions, rules[at[n].0], MatchAt(rules, evaluate, at[n]), id)
  }

  ghost predicate IsChargedTo(suppressions: seq<Suppression>, rule: RuleId, m: Match, id: string) {
    exists k: nat :: FirstCover(suppressions, rule, m, k) && suppressions[k].id == id
  }

  /** Some match that was raised is of the rule. */
  ghost predicate Fires(rules: seq<RuleId>, at: seq<(nat, nat)>, kept: seq<nat>, r: RuleId) {
    exists n: nat :: n in kept && n < |at| && at[n].0 < |rules| && rules[at[n].0] == r
  }

  /** The pass: alerts are exactly the matches no suppression covers, rule by rule;
      alerts and suppressed matches together are all matches; each suppression's
      counter grows by what it dropped; exactly the rules that raised an alert are
      stamped; and every claimed event is completed, whatever its rules did. */
  method RunDetection(q: Queue, claimed: seq<EventId>, rules: seq<RuleId>, evaluate: RuleId -> Option<seq<Match>>,
                      suppressions: seq<Suppression>, hitsBefore: map<string, nat>, firedBefore: map<RuleId, int>, now: int)
    returns (created: nat, suppressed: nat, alerts: seq<Verdict>, hits: map<string, nat>, lastFired: map<RuleId, int>,
             ghost at: seq<(nat, nat)>, ghost kept: seq<nat>)
    modifies q
    ensures var vs := Verdicts(suppressions, rules, evaluate);
      && alerts == Alerts(vs) && created == |alerts| && created + suppressed == |vs|
      && hits == (map id | id in hitsBefore :: hitsBefore[id] + Drops(vs, id))
      && lastFired == map r | r in firedBefore :: if r in Fired(Alerts(vs)) then now else firedBefore[r]
    ensures AsJudged(suppressions, rules, evaluate, now, at, kept, alerts, suppressed, hitsBefore, hits, firedBefore, lastFired)
    ensures created == |kept|
    ensures q.events == Completed(old(q.events), ToSet(claimed))
    ensures q.events.Keys == old(q.events).Keys
    ensures forall i :: i in q.events ==>
              q.events[i] == if i in claimed then old(q.events)[i].(processed := true, claimedBy := None) else old(q.events)[i]
  {
    hide Counts, JudgeAll, Alerts, Drops, Fired, AsJudged, Verdicts;
    var o, fired := Outcome([], 0, map[]), {};
    NothingCounted();
    MoreVerdicts(suppressions, [], evaluate);
    for i := 0 to |rules|
      invariant q.events == old(q.events)
      invariant Counts(Verdicts(suppressions, rules[..i], evaluate), o) && fired == Fired(o.alerts)
    {
      assert rules[..i + 1][..i] == rules[..i];
      ghost var vs := Verdicts(suppressions, rules[..i], evaluate);
      MoreVerdicts(suppressions, rules[..i + 1], evaluate);
      var matches := evaluate(rules[i]);
      if matches.None? {
        NoVerdicts(suppressions, rules[i]);
        assert vs + [] == vs;
      } else {
        var alertsBefore := o.alerts;
        o := Tally(suppressions, rules[i], matches.value, o, vs);
        FiredGrows(alertsBefore, o.alerts, rules[i]);
        if |o.alerts| > |alertsBefore| {
          fired := fired + {rules[i]};
        }
      }
    }
    assert rules[..|rules|] == rules;
    CountsAre(Verdicts(suppressions, rules, evaluate), o);
    hits := map id | id in hitsBefore :: hitsBefore[id] + if id in o.hits then o.hits[id] else 0;
    lastFired := map r | r in firedBefore :: if r in fired then now else firedBefore[r];
    q.Complete(claimed);
    created, suppressed, alerts := |o.alerts|, o.suppressed, o.alerts;
    at := VerdictsAt(suppressions, rules, evaluate);
    kept := IsJudged(suppressions, rules, evaluate, now, at, Verdicts(suppressions, rules, evaluate), suppressed,
                     hitsBefore, hits, firedBefore, lastFired);
  }

  lemma MoreVerdicts(suppressions: seq<Suppression>, rules: seq<RuleId>, evaluate: RuleId -> Option<seq<Match>>)
    ensures Verdicts(suppressions, [], evaluate) == []
    ensures rules != [] ==>
      var rule := rules[|rules| - 1];
      Verdicts(suppressions, rules, evaluate)
        == Verdicts(suppressions, rules[..|rules| - 1], evaluate) + JudgeAll(suppressions, rule, MatchesOf(evaluate, rule))
  {
  }

  /** The n-th verdict is on the n-th match. */
  ghost predicate VerdictsOn(suppressions: seq<Suppression>, rules: seq<RuleId>, evaluate: RuleId -> Option<seq<Match>>,
                             at: seq<(nat, nat)>, vs: seq<Verdict>)
  {
    && AreMatches(rules, evaluate, at) && |vs| == |at|
    && forall n :: 0 <= n < |at| ==> vs[n] == Judge(suppressions, rules[at[n].0], MatchAt(rules, evaluate, at[n]))
  }

  lemma {:induction false} JudgeAllAt(suppressions: seq<Suppression>, rule: RuleId, matches: seq<Match>)
    ensures forall k :: 0 <= k < |matches| ==> JudgeAll(suppressions, rule, matches)[k] == Judge(suppressions, rule, matches[k])
  {
    hide Judge;
    if matches != [] {
      JudgeAllAt(suppressions, rule, matches[..|matches| - 1]);
    }
  }

  lemma {:induction false} VerdictsAt(suppressions: seq<Suppression>, rules: seq<RuleId>, evaluate: RuleId -> Option<seq<Match>>)
    returns (at: seq<(nat, nat)>)
    ensures VerdictsOn(suppressions, rules, evaluate, at, Verdicts(suppressions, rules, evaluate))
    decreases |rules|
  {
    hide VerdictsOn, JudgeAll, MatchesOf;
    if rules == [] {
      at := [];
      NoMatches(suppressions, evaluate);
    } else {
      at := VerdictsAt(suppressions, rules[..|rules| - 1], evaluate);
      at := OneMoreRule(suppressions, rules, evaluate, at, Verdicts(suppressions, rules[..|rules| - 1], evaluate));
    }
  }

  lemma NoMatches(suppressions: seq<Suppression>, evaluate: RuleId -> Option<seq<Match>>)
    ensures VerdictsOn(suppressions, [], evaluate, [], [])
  {
  }

  lemma OneMoreRule(suppressions: seq<Suppression>, rules: seq<RuleId>, evaluate: RuleId -> Option<seq<Match>>,
                    before: seq<(nat, nat)>, vs: seq<Verdict>)
    returns (at: seq<(nat, nat)>)
    requires rules != [] && VerdictsOn(suppressions, rules[..|rules| - 1], evaluate, before, vs)
    ensures VerdictsOn(suppressions, rules, evaluate, at,
                       vs + JudgeAll(suppressions, rules[|rules| - 1], MatchesOf(evaluate, rules[|rules| - 1])))
  {
    hide Judge;
    var init, last := rules[..|rules| - 1], |rules| - 1;
    var matches := MatchesOf(evaluate, rules[last]);
    JudgeAllAt(suppressions, rules[last], matches);
    at := before + seq(|matches|, k requires 0 <= k < |matches| => (last, k));
    MoreMatches(rules, evaluate, before, at);
    hide AreMatches;
    forall n | 0 <= n < |at| ensures (vs + JudgeAll(suppressions, rules[last], matches))[n] == Judge(suppressions, rules[at[n].0], MatchAt(rules, evaluate, at[n])) {
      if n < |before| {
        assert at[n] == before[n] && rules[at[n].0] == init[at[n].0];
      } else {
        assert at[n] == (last, n - |before|);
      }
    }
  }

  lemma MoreMatches(rules: seq<RuleId>, evaluate: RuleId -> Option<seq<Match>>, before: seq<(nat, nat)>, at: seq<(nat, nat)>)
    requires rules != [] && AreMatches(rules[..|rules| - 1], evaluate, before)
    requires
      var more := |MatchesOf(evaluate, rules[|rules| - 1])|;
      at == before + seq(more, k requires 0 <= k < more => (|rules| - 1, k))
    ensures AreMatches(rules, evaluate, at)
    ensures forall n :: 0 <= n < |at| ==> IsMatch(rules, evaluate, at[n].0, at[n].1)
    ensures forall n :: 0 <= n < |before| ==> IsMatch(rules[..|rules| - 1], evaluate, before[n].0, before[n].1)
  {
    var init, last := rules[..|rules| - 1], |rules| - 1;
    var more := |MatchesOf(evaluate, rules[last])|;
    forall r: nat, k: nat ensures IsMatch(rules, evaluate, r, k) <==> IsMatch(init, evaluate, r, k) || (r == last && k < more) {
      assert r < |init| ==> rules[r] == init[r];
    }
    forall n | 0 <= n < |before| ensures IsMatch(init, evaluate, before[n].0, before[n].1) && before[n].0 < last { }
    hide IsMatch, MatchesOf, InOrder;
    MembersOn(before, last, more, at);
    assert forall n :: 0 <= n < |at| ==> (at[n].0, at[n].1) in at;
  }

  lemma MembersOn(before: seq<(nat, nat)>, last: nat, more: nat, at: seq<(nat, nat)>)
    requires at == before + seq(more, k requires 0 <= k < more => (last, k))
    requires InOrder(before) && forall n :: 0 <= n < |before| ==> before[n].0 < last
    ensures InOrder(at)
    ensures forall r: nat, k: nat :: (r, k) in at <==> (r, k) in before || (r == last && k < more)
  {
    forall r: nat, k: nat ensures (r, k) in at <==> (r, k) in before || (r == last && k < more) {
      if r == last && k < more { assert at[|before| + k] == (r, k); }
    }
  }

  ghost predicate RaisedAt(vs: seq<Verdict>, kept: seq<nat>) {
    && Ascending(kept) && (forall j :: 0 <= j < |kept| ==> kept[j] < |vs|)
    && (forall n: nat :: n in kept <==> n < |vs| && vs[n].Raised?)
  }

  lemma {:induction false} AlertsAt(vs: seq<Verdict>) returns (kept: seq<nat>)
    ensures RaisedAt(vs, kept) && |Alerts(vs)| == |kept| && forall j :: 0 <= j < |kept| ==> kept[j] < |vs| && Alerts(vs)[j] == vs[kept[j]]
  {
    hide RaisedAt;
    if vs == [] {
      kept := [];
      NoneRaised();
    } else {
      var n := |vs| - 1;
      kept := AlertsAt(vs[..n]);
      RaisedSnoc(vs, kept);
      kept := if vs[n].Raised? then kept + [n] else kept;
    }
  }

  lemma NoneRaised()
    ensures RaisedAt([], [])
  {
  }

  lemma RaisedSnoc(vs: seq<Verdict>, before: seq<nat>)
    requires vs != [] && RaisedAt(vs[..|vs| - 1], before)
    ensures RaisedAt(vs, if vs[|vs| - 1].Raised? then before + [|vs| - 1] else before)
  {
    var n := |vs| - 1;
    forall i: nat | i < n ensures vs[..n][i] == vs[i] { }
    assert forall j :: 0 <= j < |before| ==> before[j] in before && before[j] < n;
  }

  lemma {:induction false} DropsCount(vs: seq<Verdict>, id: string)
    ensures Drops(vs, id) == |set n | 0 <= n < |vs| && vs[n] == Dropped(id)|
  {
    if vs != [] {
      var n := |vs| - 1;
      var init := vs[..n];
      DropsCount(init, id);
      OneMore((set i | 0 <= i < n && init[i] == Dropped(id)), (set i | 0 <= i < |vs| && vs[i] == Dropped(id)), n, vs[n] == Dropped(id));
    }
  }

  lemma IsJudged(suppressions: seq<Suppression>, rules: seq<RuleId>, evaluate: RuleId -> Option<seq<Match>>, now: int,
                 at: seq<(nat, nat)>, vs: seq<Verdict>, suppressed: nat, hitsBefore: map<string, nat>, hits: map<string, nat>,
                 firedBefore: map<RuleId, int>, lastFired: map<RuleId, int>)
    returns (kept: seq<nat>)
    requires VerdictsOn(suppressions, rules, evaluate, at, vs) && |Alerts(vs)| + suppressed == |vs|
    requires hits.Keys == hitsBefore.Keys && forall id :: id in hits ==> hits[id] == hitsBefore[id] + Drops(vs, id)
    requires lastFired.Keys == firedBefore.Keys
    requires forall r :: r in lastFired ==> lastFired[r] == if r in Fired(Alerts(vs)) then now else firedBefore[r]
    ensures |kept| == |Alerts(vs)|
    ensures AsJudged(suppressions, rules, evaluate, now, at, kept, Alerts(vs), suppressed, hitsBefore, hits, firedBefore, lastFired)
  {
    hide Verdicts, Judge, Alerts, Drops, Fired, FirstCover, Uncovered, AreMatches, ChargedTo, AreRaised, Fires;
    kept := RaisedAre(suppressions, rules, evaluate, at, vs);
    forall id ensures Drops(vs, id) == |ChargedTo(suppressions, rules, evaluate, at, id)| {
      DropsCount(vs, id);
      ChargedAre(suppressions, rules, evaluate, at, vs, id);
    }
    forall r ensures r in Fired(Alerts(vs)) <==> Fires(rules, at, kept, r) {
      FiredAre(suppressions, rules, evaluate, at, kept, Alerts(vs), r);
    }
  }

  lemma RaisedAre(suppressions: seq<Suppression>, rules: seq<RuleId>, evaluate: RuleId -> Option<seq<Match>>,
                  at: seq<(nat, nat)>, vs: seq<Verdict>)
    returns (kept: seq<nat>)
    requires VerdictsOn(suppressions, rules, evaluate, at, vs)
    ensures |kept| == |Alerts(vs)| && AreRaised(suppressions, rules, evaluate, at, kept, Alerts(vs))
  {
    hide Judge, Alerts, Uncovered, AreMatches;
    kept := AlertsAt(vs);
    MatchesInRange(rules, evaluate, at);
    forall n | 0 <= n < |at|
      ensures vs[n].Raised? <==> Uncovered(suppressions, rules[at[n].0], MatchAt(rules, evaluate, at[n]))
      ensures vs[n].Raised? ==> vs[n] == Raised(rules[at[n].0], MatchAt(rules, evaluate, at[n]))
    {
      JudgeRaises(suppressions, rules[at[n].0], MatchAt(rules, evaluate, at[n]));
    }
    assert forall j :: 0 <= j < |kept| ==> kept[j] in kept;
  }

  lemma FiredAre(suppressions: seq<Suppression>, rules: seq<RuleId>, evaluate: RuleId -> Option<seq<Match>>,
                 at: seq<(nat, nat)>, kept: seq<nat>, alerts: seq<Verdict>, r: RuleId)
    requires AreRaised(suppressions, rules, evaluate, at, kept, alerts)
    ensures r in Fired(alerts) <==> Fires(rules, at, kept, r)
  {
    hide Fired, AreMatches, Uncovered;
    FiredIff(alerts, r);
    MatchesInRange(rules, evaluate, at);
    if Fires(rules, at, kept, r) {
      var n: nat :| n in kept && n < |at| && at[n].0 < |rules| && rules[at[n].0] == r;
      var j :| 0 <= j < |kept| && kept[j] == n;
      assert IsOf(alerts[j], r);
    }
    if r in Fired(alerts) {
      var j :| 0 <= j < |alerts| && IsOf(alerts[j], r);
      assert kept[j] in kept;
    }
  }

  lemma JudgeRaises(suppressions: seq<Suppression>, rule: RuleId, m: Match)
    ensures Judge(suppressions, rule, m).Raised? ==> Judge(suppressions, rule, m) == Raised(rule, m)
    ensures Judge(suppressions, rule, m).Raised? <==> Uncovered(suppressions, rule, m)
  {
    DroppedIff(suppressions, rule, m);
  }

  lemma MatchesInRange(rules: seq<RuleId>, evaluate: RuleId -> Option<seq<Match>>, at: seq<(nat, nat)>)
    requires AreMatches(rules, evaluate, at)
    ensures forall n :: 0 <= n < |at| ==> IsMatch(rules, evaluate, at[n].0, at[n].1)
  {
  }

  lemma ChargedAre(suppressions: seq<Suppression>, rules: seq<RuleId>, evaluate: RuleId -> Option<seq<Match>>,
                   at: seq<(nat, nat)>, vs: seq<Verdict>, id: string)
    requires VerdictsOn(suppressions, rules, evaluate, at, vs)
    ensures ChargedTo(suppressions, rules, evaluate, at, id) == set n | 0 <= n < |vs| && vs[n] == Dropped(id)
  {
    hide Judge, FirstCover, Uncovered;
    forall n | 0 <= n < |at|
      ensures n in ChargedTo(suppressions, rules, evaluate, at, id) <==> vs[n] == Dropped(id)
    {
      DroppedIff(suppressions, rules[at[n].0], MatchAt(rules, evaluate, at[n]));
    }
  }

  lemma FiredIff(alerts: seq<Verdict>, r: RuleId)
    ensures r in Fired(alerts) <==> exists j :: 0 <= j < |alerts| && IsOf(alerts[j], r)
  {
    if exists j :: 0 <= j < |alerts| && IsOf(alerts[j], r) {
      var j :| 0 <= j < |alerts| && IsOf(alerts[j], r);
      assert alerts[j].Raised? && alerts[j].rule == r;
    }
  }

  lemma NothingCounted()
    ensures Counts([], Outcome([], 0, map[])) && Fired([]) == {}
  {
  }

  lemma NoVerdicts(suppressions: seq<Suppression>, rule: RuleId)
    ensures JudgeAll(suppressions, rule, []) == []
  {
  }

  lemma CountsAre(vs: seq<Verdict>, o: Outcome)
    requires Counts(vs, o)
    ensures o.alerts == Alerts(vs) && |o.alerts| + o.suppressed == |vs|
    ensures forall id :: (if id in o.hits then o.hits[id] else 0) == Drops(vs, id)
  {
  }
}
