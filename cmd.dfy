/** The command's own decisions (cmd/design-on-trial.go): the exit on a
    missing `--file` flag, and the split of the personas into a judge, a
    reporter and the debating participants. */
module Cli {
  import opened Model
  import opened Backend
  import opened Text
  import Runner
  import Report

  /** What main does after the flags are parsed: stop with a status code
      and what it writes to standard error, or carry on. */
  datatype Start = Exit(code: int, stderr: string) | Proceed

  const Usage: string := "usage: --file /path/to/doc [--turns N] [--duration 30s]"

  /** The check on `--file`: without a document there is nothing to try. */
  function CheckFileFlag(filePath: string): (r: Start)
    ensures r.Exit? <==> filePath == ""
    ensures r.Exit? ==> r.code == 2 && r.stderr == Usage + "\n"
  {
    if filePath == "" then Exit(2, Usage + "\n") else Proceed
  }

  /** A judge's role mentions "judge", in any letter case. */
  predicate IsJudgeRole(role: string) {
    Contains(ToLower(role), "judge")
  }

  /** A reporter's role mentions "report" or "reporter", in any letter case. */
  predicate IsReporterRole(role: string) {
    Contains(ToLower(role), "report") || Contains(ToLower(role), "reporter")
  }

  /** The second test adds nothing: a reporter's role is one that mentions
      "report". */
  lemma ReporterRoleIsReport(role: string)
    ensures IsReporterRole(role) <==> Contains(ToLower(role), "report")
  {
    ReporterContainsReport(ToLower(role));
  }

  /** The loop's picks as persona indices: the judge, the reporter and the
      participants, in persona order. */
  datatype Assignment = Assignment(judge: Option<nat>, reporter: Option<nat>, participants: seq<nat>)

  predicate Below(o: Option<nat>, n: nat) {
    o.Some? ==> o.value < n
  }

  predicate Increasing(s: seq<nat>) {
    forall i, j :: 0 <= i < j < |s| ==> s[i] < s[j]
  }

  /** What the loop body does with persona `i`, whose role is `role`: it
      becomes the judge if there is none yet and its role mentions "judge",
      otherwise the reporter if there is none yet and its role mentions
      "report", and otherwise a participant. */
  function Place(a: Assignment, i: nat, role: string): Assignment {
    if a.judge.None? && IsJudgeRole(role) then a.(judge := Some(i))
    else if a.reporter.None? && IsReporterRole(role) then a.(reporter := Some(i))
    else a.(participants := a.participants + [i])
  }

  /** `a` splits the personas `0..n` among the judge, the reporter and the
      participants: every index lands in exactly one place, participants
      keep persona order, and the counts add up to `n`. */
  predicate Partitioned(a: Assignment, n: nat) {
    && Below(a.judge, n) && Below(a.reporter, n)
    && (forall k :: 0 <= k < |a.participants| ==> a.participants[k] < n)
    && Increasing(a.participants)
    && (forall k :: 0 <= k < n ==>
          (k in a.participants <==> a.judge != Some(k) && a.reporter != Some(k)))
    && (a.judge.Some? && a.reporter.Some? ==> a.judge != a.reporter)
    && |a.participants| + (if a.judge.Some? then 1 else 0) + (if a.reporter.Some? then 1 else 0) == n
  }

  /** The loop body keeps the split: placing persona `n` extends a split of
      `0..n` to one of `0..n+1`. */
  lemma PlaceKeepsPartition(a: Assignment, n: nat, role: string)
    requires Partitioned(a, n)
    ensures Partitioned(Place(a, n, role), n + 1)
  {
    var b := Place(a, n, role);
    assert n !in a.participants by {
      forall k | 0 <= k < |a.participants| ensures a.participants[k] != n {
        assert a.participants[k] < n;
      }
    }
    if b.participants != a.participants {
      assert b.participants == a.participants + [n];
      forall k | 0 <= k < n + 1
        ensures k in b.participants <==> k in a.participants || k == n
      {
      }
    }
  }

  /** The assignment after the first `n` personas: the loop body applied to
      each persona in turn. */
  function Classify(personas: seq<Agent>, n: nat): (a: Assignment)
    requires n <= |personas|
    ensures Below(a.judge, n) && Below(a.reporter, n)
    ensures forall k :: 0 <= k < |a.participants| ==> a.participants[k] < n
  {
    if n == 0 then Assignment(None, None, [])
    else Place(Classify(personas, n - 1), n - 1, personas[n - 1].role)
  }

  /** Every persona lands in exactly one place: judge, reporter, or
      participant. */
  lemma {:induction false} Partition(personas: seq<Agent>, n: nat)
    requires n <= |personas|
    ensures Partitioned(Classify(personas, n), n)
  {
    if n > 0 {
      Partition(personas, n - 1);
      PlaceKeepsPartition(Classify(personas, n - 1), n - 1, personas[n - 1].role);
    }
  }

  function Pick(personas: seq<Agent>, o: Option<nat>): (r: Option<Agent>)
    requires Below(o, |personas|)
    ensures r.Some? <==> o.Some?
  {
    if o.Some? then Some(personas[o.value]) else None
  }

  function PickAll(personas: seq<Agent>, indices: seq<nat>): (r: seq<Agent>)
    requires forall k :: 0 <= k < |indices| ==> indices[k] < |personas|
    ensures |r| == |indices|
    ensures forall k :: 0 <= k < |indices| ==> r[k] == personas[indices[k]]
  {
    seq(|indices|, k requires 0 <= k < |indices| => personas[indices[k]])
  }

  /** Who plays what in the debate. */
  datatype Cast = Cast(judge: Option<Agent>, reporter: Option<Agent>, participants: seq<Agent>)

  /** The cast main hands to RunDebate and BuildReportFromLLM: the
      assignment over all personas, with every persona debating when fewer
      than two are left over. */
  function CastOf(personas: seq<Agent>): Cast {
    var a := Classify(personas, |personas|);
    Cast(Pick(personas, a.judge), Pick(personas, a.reporter),
         if |a.participants| < 2 then personas else PickAll(personas, a.participants))
  }

  /** The role loop and its fallback in main. */
  method AssignRoles(personas: seq<Agent>) returns (judge: Option<Agent>, reporter: Option<Agent>, participants: seq<Agent>)
    ensures Cast(judge, reporter, participants) == CastOf(personas)
  {
    ghost var judgeAt: Option<nat> := None;
    ghost var reporterAt: Option<nat> := None;
    ghost var kept: seq<nat> := [];
    judge := None;
    reporter := None;
    participants := [];
    var i := 0;
    while i < |personas|
      invariant i <= |personas|
      invariant Classify(personas, i) == Assignment(judgeAt, reporterAt, kept)
      invariant judge == Pick(personas, judgeAt) && reporter == Pick(personas, reporterAt)
      invariant participants == PickAll(personas, kept)
    {
      var r := ToLower(personas[i].role);
      if judge.None? && Contains(r, "judge") {
        judge := Some(personas[i]);
        judgeAt := Some(i);
        i := i + 1;
        continue;
      }
      if reporter.None? && (Contains(r, "report") || Contains(r, "reporter")) {
        reporter := Some(personas[i]);
        reporterAt := Some(i);
        i := i + 1;
        continue;
      }
      participants := participants + [personas[i]];
      kept := kept + [i];
      i := i + 1;
    }
    if |participants| < 2 {
      participants := personas;
    }
  }

  /** The judge is the first persona with a judge role, and there is none
      only when no persona has one. */
  lemma {:induction false} JudgeIsFirst(personas: seq<Agent>, n: nat)
    requires n <= |personas|
    ensures var j := Classify(personas, n).judge;
      && (j.None? <==> forall k :: 0 <= k < n ==> !IsJudgeRole(personas[k].role))
      && (j.Some? ==> IsJudgeRole(personas[j.value].role)
                      && forall k :: 0 <= k < j.value ==> !IsJudgeRole(personas[k].role))
  {
    if n > 0 {
      JudgeIsFirst(personas, n - 1);
    }
  }

  /** In `a`, the reporter is the first of the personas `0..n` with a
      reporter role that was not taken as the judge, and there is none only
      when no such persona exists. */
  predicate ReporterFirst(personas: seq<Agent>, a: Assignment, n: nat)
    requires n <= |personas| && Below(a.reporter, n)
  {
    && (a.reporter.None? <==>
          forall k :: 0 <= k < n && a.judge != Some(k) ==> !IsReporterRole(personas[k].role))
    && (a.reporter.Some? ==>
          && a.judge != a.reporter
          && IsReporterRole(personas[a.reporter.value].role)
          && forall k :: 0 <= k < a.reporter.value && a.judge != Some(k) ==> !IsReporterRole(personas[k].role))
  }

  /** The loop body keeps the reporter the first eligible persona. */
  lemma PlaceKeepsReporterFirst(personas: seq<Agent>, a: Assignment, n: nat)
    requires n < |personas| && Below(a.judge, n) && Below(a.reporter, n)
    requires ReporterFirst(personas, a, n)
    ensures ReporterFirst(personas, Place(a, n, personas[n].role), n + 1)
  {
  }

  lemma {:induction false} ReporterIsFirst(personas: seq<Agent>, n: nat)
    requires n <= |personas|
    ensures ReporterFirst(personas, Classify(personas, n), n)
  {
    if n > 0 {
      ReporterIsFirst(personas, n - 1);
      PlaceKeepsReporterFirst(personas, Classify(personas, n - 1), n - 1);
    }
  }

  /** The fallback guarantees RunDebate's two participants whenever there
      are two personas; with fewer, every persona is passed on and RunDebate
      reports the shortage. */
  lemma EnoughParticipants(personas: seq<Agent>)
    ensures |personas| >= 2 ==> |CastOf(personas).participants| >= 2
    ensures |personas| >= 2 ==> forall s: Runner.Session ::
              s.participants == CastOf(personas).participants ==> s.Valid()
    ensures |personas| < 2 ==> CastOf(personas).participants == personas
  {
    Partition(personas, |personas|);
  }

  /** Without the fallback, the participants are the personas left over by
      the judge and the reporter, in their original order. */
  lemma LeftOverInOrder(personas: seq<Agent>)
    requires |Classify(personas, |personas|).participants| >= 2
    ensures var a := Classify(personas, |personas|);
      && CastOf(personas).participants == PickAll(personas, a.participants)
      && Increasing(a.participants)
      && forall k :: 0 <= k < |a.participants| ==>
           a.judge != Some(a.participants[k]) && a.reporter != Some(a.participants[k])
  {
    var a := Classify(personas, |personas|);
    Partition(personas, |personas|);
    forall k | 0 <= k < |a.participants|
      ensures a.judge != Some(a.participants[k]) && a.reporter != Some(a.participants[k])
    {
      assert a.participants[k] in a.participants;
    }
  }

  /** With no persona whose role mentions "report", main passes a nil
      reporter and the report step panics as written. */
  lemma NoReporterPersonaPanics(personas: seq<Agent>, llm: Option<Llm>, doc: string,
                                history: seq<Message>, stamp: string)
    requires forall k :: 0 <= k < |personas| ==> !Contains(ToLower(personas[k].role), "report")
    ensures CastOf(personas).reporter.None?
    ensures Report.ReportAsWritten(llm, CastOf(personas).reporter, doc, history, stamp) == Report.Panic
  {
    ReporterIsFirst(personas, |personas|);
    forall k | 0 <= k < |personas|
      ensures !IsReporterRole(personas[k].role)
    {
      ReporterRoleIsReport(personas[k].role);
    }
  }
}
