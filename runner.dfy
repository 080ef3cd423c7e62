/** The debate scheduler, RunDebate (agents/runner.go).

    The loop is modelled twice: `RunDebate` is the imperative loop of the
    source, and `Debate(s, n)` is the transcript that `n` loop iterations
    followed by the closing sentinel and verdict produce. RunDebate is proved
    to return `Debate(s, n)` for the first iteration `n` at which the stop
    test fires; the lemmas below state what that transcript looks like. */
module Runner {
  import opened Model
  import opened Backend

  /** A value of rnd.Intn(100). */
  type Percent = x: int | 0 <= x < 100

  /** The non-backend environment of a run, as oracles.
      `draw(t)` is the random draw made after the turn of iteration t (a draw
      is made in every iteration when a judge is set);
      `elapsed(t)` is time.Since(started) read at the top of iteration t;
      `now(site)` is time.Now() when the message for `site` is built. */
  datatype Env = Env(draw: nat -> Percent, elapsed: nat -> int, now: Site -> nat)

  /** The arguments of a call that passed input validation. */
  datatype Session = Session(
    llm: Llm,
    participants: seq<Agent>,
    judge: Option<Agent>,
    doc: string,
    turns: int,       // turn cap; Go int
    duration: int,    // duration cap in clock units; Go time.Duration
    env: Env)
  {
    predicate Valid() { |participants| >= 2 }
  }

  /** The chance, in percent, that the judge interjects after a turn. */
  const InterjectPercent := 15

  function Sentinel(time: nat): (m: Message)
    ensures m.sender == "User" && m.argument == Argument("--- END OF DEBATE ---", "info")
  {
    Message("User", Argument("--- END OF DEBATE ---", "info"), time)
  }

  /** The stop test at the top of loop iteration t. */
  predicate StopsAt(s: Session, t: nat) {
    || (s.turns == 0 && s.duration == 0)
    || (s.turns > 0 && t >= s.turns)
    || (s.duration > 0 && s.env.elapsed(t) > s.duration)
  }

  /** `n` is the iteration at which the loop exits. */
  predicate FirstStop(s: Session, n: nat) {
    StopsAt(s, n) && forall k :: 0 <= k < n ==> !StopsAt(s, k)
  }

  /** The caps under which the loop ends: both zero, a positive turn cap, or
      a positive duration cap that the clock eventually passes. With a turn
      cap <= 0 and a duration cap <= 0 that are not both zero, the source
      loops forever. */
  ghost predicate Terminates(s: Session) {
    || (s.turns == 0 && s.duration == 0)
    || s.turns > 0
    || (s.duration > 0 && exists d: nat :: s.env.elapsed(d) > s.duration)
  }

  /** The message a participant contributes in iteration t, given the
      transcript `h` so far. A failed generation still yields a message, with
      an empty argument. */
  function TurnMessage(s: Session, t: nat, h: seq<Message>): (m: Message)
    requires s.Valid()
    ensures m.sender == s.participants[t % |s.participants|].name
    ensures var out := s.llm.generate(ArgumentRequest(s.participants[t % |s.participants|], h, s.doc, Turn(t)));
      && (out.Ok? ==> m.argument == out.value)
      && (out.Err? ==> m.argument == EmptyArgument)
  {
    var speaker := s.participants[t % |s.participants|];
    var arg := match s.llm.generate(ArgumentRequest(speaker, h, s.doc, Turn(t)))
      case Ok(a) => a
      case Err(_) => EmptyArgument;
    Message(speaker.name, arg, s.env.now(Turn(t)))
  }

  /** The judge's interjection after the turn of iteration t (`h` already
      holds that turn): present only if a judge is set, the draw is below
      15 and the judge's generation succeeds. */
  function JudgeInterjection(s: Session, t: nat, h: seq<Message>): (r: seq<Message>)
    ensures |r| <= 1
    ensures |r| == 1 <==> s.judge.Some? && s.env.draw(t) < InterjectPercent
                          && s.llm.generate(ArgumentRequest(s.judge.value, h, s.doc, Interject(t))).Ok?
    ensures |r| == 1 ==> r[0].sender == s.judge.value.name
    ensures |r| == 1 ==> r[0].argument == s.llm.generate(ArgumentRequest(s.judge.value, h, s.doc, Interject(t))).value
  {
    if s.judge.Some? && s.env.draw(t) < InterjectPercent then
      match s.llm.generate(ArgumentRequest(s.judge.value, h, s.doc, Interject(t)))
      case Ok(a) => [Message(s.judge.value.name, a, s.env.now(Interject(t)))]
      case Err(_) => []
    else []
  }

  /** The messages that loop iteration t appends to the transcript `h`. */
  function Round(s: Session, t: nat, h: seq<Message>): (r: seq<Message>)
    requires s.Valid()
  {
    var m := TurnMessage(s, t, h);
    [m] + JudgeInterjection(s, t, h + [m])
  }

  /** The transcript after the first n loop iterations. */
  function Rounds(s: Session, n: nat): (r: seq<Message>)
    requires s.Valid()
    decreases n
  {
    if n == 0 then []
    else
      var h := Rounds(s, n - 1);
      h + Round(s, n - 1, h)
  }

  /** What follows the loop: with a judge, the sentinel and, if the judge's
      generation succeeds, its verdict; without a judge, nothing. */
  function Close(s: Session, h: seq<Message>): (r: seq<Message>)
    ensures |h| <= |r| && r[..|h|] == h
    ensures s.judge.None? ==> r == h
    ensures s.judge.Some? ==>
      && |h| + 1 <= |r| <= |h| + 2
      && r[|h|] == Sentinel(s.env.now(EndOfDebate))
      && (|r| == |h| + 2 <==> s.llm.generate(ArgumentRequest(s.judge.value, r[..|h| + 1], s.doc, Verdict)).Ok?)
      && (|r| == |h| + 2 ==> r[|h| + 1].sender == s.judge.value.name)
      && (|r| == |h| + 2 ==>
            r[|h| + 1].argument == s.llm.generate(ArgumentRequest(s.judge.value, r[..|h| + 1], s.doc, Verdict)).value)
  {
    if s.judge.None? then h
    else
      var h1 := h + [Sentinel(s.env.now(EndOfDebate))];
      assert h1[..|h| + 1] == h1;
      match s.llm.generate(ArgumentRequest(s.judge.value, h1, s.doc, Verdict))
      case Ok(v) => h1 + [Message(s.judge.value.name, v, s.env.now(Verdict))]
      case Err(_) => h1
  }

  /** The transcript RunDebate returns when the loop exits at iteration n. */
  function Debate(s: Session, n: nat): seq<Message>
    requires s.Valid()
  {
    Close(s, Rounds(s, n))
  }

  /** The body of RunDebate's loop for iteration t: the speaker's turn,
      then possibly the judge's interjection. */
  method PlayRound(s: Session, t: nat, history0: seq<Message>) returns (history: seq<Message>)
    requires s.Valid()
    ensures history == history0 + Round(s, t, history0)
  {
    var speaker := s.participants[t % |s.participants|];
    var arg := EmptyArgument;
    var out := s.llm.generate(ArgumentRequest(speaker, history0, s.doc, Turn(t)));
    if out.Ok? {
      arg := out.value;
    }
    var msg := Message(speaker.name, arg, s.env.now(Turn(t)));
    history := history0 + [msg];

    if s.judge.Some? && s.env.draw(t) < InterjectPercent {
      var jout := s.llm.generate(ArgumentRequest(s.judge.value, history, s.doc, Interject(t)));
      if jout.Ok? {
        history := history + [Message(s.judge.value.name, jout.value, s.env.now(Interject(t)))];
      }
    }
  }

  /** Passing the stop test at iteration t extends the run of iterations
      with no stop by one. */
  lemma NoStopYet(s: Session, t: nat)
    requires forall k :: 0 <= k < t ==> !StopsAt(s, k)
    requires !(s.turns == 0 && s.duration == 0) && !(s.turns > 0 && t >= s.turns)
    requires !(s.duration > 0 && s.env.elapsed(t) > s.duration)
    ensures !StopsAt(s, t)
    ensures forall k :: 0 <= k < t + 1 ==> !StopsAt(s, k)
  {
  }

  /** RunDebate: input validation, then the turn loop, then the judge's
      closing sentinel and verdict. */
  method RunDebate(llm: Option<Llm>, participants: seq<Agent>, judge: Option<Agent>,
                   doc: string, turns: int, duration: int, env: Env)
    returns (r: Result<seq<Message>>)
    requires llm.Some? && |participants| >= 2 ==>
               Terminates(Session(llm.value, participants, judge, doc, turns, duration, env))
    ensures llm.None? ==> r == Err("llm is nil")
    ensures llm.Some? && |participants| < 2 ==> r == Err("need at least two participants")
    ensures llm.Some? && |participants| >= 2 ==>
              var s := Session(llm.value, participants, judge, doc, turns, duration, env);
              exists n: nat :: FirstStop(s, n) && r == Ok(Debate(s, n))
  {
    if llm.None? {
      return Err("llm is nil");
    }
    if |participants| < 2 {
      return Err("need at least two participants");
    }
    var s := Session(llm.value, participants, judge, doc, turns, duration, env);
    // The first iteration at which the stop test fires bounds the loop.
    ghost var bound := LoopBound(s);

    var history: seq<Message> := [];
    var t: nat := 0;
    while true
      invariant t <= bound
      invariant forall k :: 0 <= k < t ==> !StopsAt(s, k)
      invariant history == Rounds(s, t)
      decreases bound - t
    {
      if turns == 0 && duration == 0 {
        break;
      }
      if turns > 0 && t >= turns {
        break;
      }
      if duration > 0 && env.elapsed(t) > duration {
        break;
      }
      NoStopYet(s, t);
      assert t < bound;
      RoundsStep(s, t);
      history := PlayRound(s, t, history);
      t := t + 1;
    }
    assert FirstStop(s, t);
    history := CloseDebate(s, history);
    assert history == Debate(s, t);
    return Ok(history);
  }

  /** The end of RunDebate: with a judge, the sentinel and then the verdict
      if the judge's generation succeeds. */
  method CloseDebate(s: Session, history0: seq<Message>) returns (history: seq<Message>)
    ensures history == Close(s, history0)
  {
    history := history0;
    if s.judge.Some? {
      history := history + [Sentinel(s.env.now(EndOfDebate))];
      var v := s.llm.generate(ArgumentRequest(s.judge.value, history, s.doc, Verdict));
      if v.Ok? {
        history := history + [Message(s.judge.value.name, v.value, s.env.now(Verdict))];
      }
    }
  }

  // ---------------------------------------------------------------------
  // When the loop stops

  /** Under caps that end the loop, the loop has a first stopping
      iteration. */
  ghost function LoopBound(s: Session): (n: nat)
    requires Terminates(s)
    ensures FirstStop(s, n)
  {
    TerminatesIffStops(s);
    var d: nat :| StopsAt(s, d);
    FirstStopExists(s, d);
    var n: nat :| FirstStop(s, n);
    n
  }

  /** The loop stops at some iteration exactly when the caps are ones under
      which it terminates. */
  lemma TerminatesIffStops(s: Session)
    ensures Terminates(s) <==> exists n: nat :: StopsAt(s, n)
  {
    if s.turns > 0 {
      assert StopsAt(s, s.turns);
    } else if s.turns == 0 && s.duration == 0 {
      assert StopsAt(s, 0);
    } else if s.duration > 0 && exists d: nat :: s.env.elapsed(d) > s.duration {
      var d: nat :| s.env.elapsed(d) > s.duration;
      assert StopsAt(s, d);
    }
  }

  /** An iteration at which the stop test fires bounds the first one. */
  lemma {:induction false} FirstStopExists(s: Session, d: nat)
    requires StopsAt(s, d)
    ensures exists n: nat :: n <= d && FirstStop(s, n)
    decreases d
  {
    if exists k: nat :: k < d && StopsAt(s, k) {
      var k: nat :| k < d && StopsAt(s, k);
      FirstStopExists(s, k);
    } else {
      assert FirstStop(s, d);
    }
  }

  /** With only a turn cap T > 0, the loop runs exactly T iterations. */
  lemma TurnCapOnly(s: Session, n: nat)
    requires s.turns > 0 && s.duration == 0
    ensures FirstStop(s, n) <==> n == s.turns
  {
    if n == s.turns {
      assert forall k :: 0 <= k < n ==> !StopsAt(s, k);
    }
    if FirstStop(s, n) && n > s.turns {
      assert StopsAt(s, s.turns);
    }
  }

  /** With both caps zero, no iteration runs: without a judge the transcript
      is empty, and it does not depend on the backend at all (no generation
      is requested); with a judge it is the sentinel, possibly followed by
      the verdict. */
  lemma NoCaps(s: Session, n: nat, other: Llm)
    requires s.Valid() && s.turns == 0 && s.duration == 0
    ensures FirstStop(s, n) <==> n == 0
    ensures s.judge.None? ==> Debate(s, 0) == [] && Debate(s.(llm := other), 0) == []
    ensures s.judge.Some? ==> 1 <= |Debate(s, 0)| <= 2 && Debate(s, 0)[0] == Sentinel(s.env.now(EndOfDebate))
  {
    assert StopsAt(s, 0);
  }

  // ---------------------------------------------------------------------
  // Shape of the transcript

  /** The transcript is append-only: the transcript after m iterations is a
      prefix of the transcript after any later iteration. */
  lemma {:induction false} RoundsPrefix(s: Session, m: nat, n: nat)
    requires s.Valid() && m <= n
    ensures |Rounds(s, m)| <= |Rounds(s, n)| && Rounds(s, n)[..|Rounds(s, m)|] == Rounds(s, m)
    decreases n
  {
    if m < n {
      RoundsPrefix(s, m, n - 1);
      var h := Rounds(s, n - 1);
      assert Rounds(s, n)[..|h|] == h;
      PrefixOfPrefix(Rounds(s, m), h, Rounds(s, n));
    }
  }

  lemma PrefixOfPrefix<T>(a: seq<T>, b: seq<T>, c: seq<T>)
    requires |a| <= |b| && b[..|a|] == a
    requires |b| <= |c| && c[..|b|] == b
    ensures |a| <= |c| && c[..|a|] == a
  {
    assert c[..|a|] == c[..|b|][..|a|];
  }

  /** Every iteration appends one participant message and at most one judge
      message; without a judge the transcript length is the iteration count. */
  lemma {:induction false} RoundsLength(s: Session, n: nat)
    requires s.Valid()
    ensures n <= |Rounds(s, n)| <= 2 * n
    ensures s.judge.None? ==> |Rounds(s, n)| == n
    decreases n
  {
    if n > 0 {
      RoundsLength(s, n - 1);
    }
  }

  /** Two sequences that agree on a prefix agree on every shorter prefix. */
  lemma PrefixAgree<T>(big: seq<T>, small: seq<T>, k: nat)
    requires |small| <= |big| && big[..|small|] == small && k < |small|
    ensures big[..k] == small[..k] && big[k] == small[k]
  {
    assert big[k] == big[..|small|][k];
  }

  /** One more iteration appends the round of iteration t. */
  lemma RoundsStep(s: Session, t: nat)
    requires s.Valid()
    ensures Rounds(s, t + 1) == Rounds(s, t) + Round(s, t, Rounds(s, t))
    ensures var h := Rounds(s, t); var m := TurnMessage(s, t, h);
      Rounds(s, t + 1) == h + [m] + JudgeInterjection(s, t, h + [m])
  {
  }

  /** The participant message of iteration t sits right after the transcript
      of the first t iterations, comes from participants[t % len] and was
      generated from exactly that prefix: judge interjections never shift the
      speaker order, and earlier entries never change. */
  lemma TurnAt(s: Session, n: nat, t: nat)
    requires s.Valid() && t < n
    ensures var p := |Rounds(s, t)|;
      && p < |Rounds(s, n)|
      && Rounds(s, n)[..p] == Rounds(s, t)
      && Rounds(s, n)[p] == TurnMessage(s, t, Rounds(s, n)[..p])
      && Rounds(s, n)[p].sender == s.participants[t % |s.participants|].name
  {
    var h := Rounds(s, t);
    var h1 := Rounds(s, t + 1);
    RoundsPrefix(s, t + 1, n);
    RoundsStep(s, t);
    assert h1[..|h|] == h;
    assert h1[|h|] == TurnMessage(s, t, h);
    PrefixAgree(Rounds(s, n), h1, |h|);
  }

  /** A second message in iteration t exists exactly when a judge is set, the
      draw is below 15 and the judge's generation from the transcript that
      ends with the turn of iteration t succeeds. */
  lemma RoundSize(s: Session, t: nat)
    requires s.Valid()
    ensures var p := |Rounds(s, t)|;
      && p + 1 <= |Rounds(s, t + 1)| <= p + 2
      && (|Rounds(s, t + 1)| == p + 2 <==>
            s.judge.Some? && s.env.draw(t) < InterjectPercent
            && s.llm.generate(ArgumentRequest(s.judge.value, Rounds(s, t + 1)[..p + 1], s.doc, Interject(t))).Ok?)
  {
    var h := Rounds(s, t);
    var h1 := h + [TurnMessage(s, t, h)];
    RoundsStep(s, t);
    assert Rounds(s, t + 1)[..|h| + 1] == h1;
  }

  /** That second message is the judge's interjection, generated from the
      transcript that ends with the turn of iteration t. Later iterations
      leave it in place (RoundsPrefix). */
  lemma InterjectionAt(s: Session, t: nat)
    requires s.Valid()
    requires |Rounds(s, t + 1)| == |Rounds(s, t)| + 2
    ensures var p, next := |Rounds(s, t)|, Rounds(s, t + 1);
      && JudgeInterjection(s, t, next[..p + 1]) == [next[p + 1]]
      && next[p + 1].sender == s.judge.value.name
  {
    var h := Rounds(s, t);
    var h1 := h + [TurnMessage(s, t, h)];
    var next := Rounds(s, t + 1);
    RoundsStep(s, t);
    assert next[..|h| + 1] == h1;
  }

  /** Message i of the loop lies in the messages appended by iteration t. */
  predicate InRound(s: Session, i: nat, t: nat)
    requires s.Valid()
  {
    |Rounds(s, t)| <= i < |Rounds(s, t + 1)|
  }

  /** Every message of the loop belongs to some iteration t: it is either
      that iteration's participant message or the judge message right after
      it. */
  lemma {:induction false} MessageInRound(s: Session, n: nat, i: nat)
    requires s.Valid() && i < |Rounds(s, n)|
    ensures exists t: nat :: t < n && InRound(s, i, t)
    decreases n
  {
    assert n > 0;
    if i < |Rounds(s, n - 1)| {
      MessageInRound(s, n - 1, i);
    } else {
      assert InRound(s, i, n - 1);
    }
  }

  /** Messages of the loop that are not participant turns are the judge's. */
  lemma OnlyJudgeInterjects(s: Session, n: nat, i: nat)
    requires s.Valid() && i < |Rounds(s, n)|
    requires forall t: nat :: t < n ==> i != |Rounds(s, t)|
    ensures s.judge.Some? && Rounds(s, n)[i].sender == s.judge.value.name
  {
    MessageInRound(s, n, i);
    var t: nat :| t < n && InRound(s, i, t);
    var p, next := |Rounds(s, t)|, Rounds(s, t + 1);
    assert i != p;
    RoundSize(s, t);
    assert i == p + 1 && |next| == p + 2;
    InterjectionAt(s, t);
    RoundsPrefix(s, t + 1, n);
    PrefixAgree(Rounds(s, n), next, i);
  }

  /** Without a judge, message t of the loop is the turn of participant
      t % len, generated from the t messages before it. */
  lemma NoJudgeTranscript(s: Session, n: nat)
    requires s.Valid() && s.judge.None?
    ensures |Rounds(s, n)| == n
    ensures forall t :: 0 <= t < n ==>
              && Rounds(s, n)[t] == TurnMessage(s, t, Rounds(s, n)[..t])
              && Rounds(s, n)[t].sender == s.participants[t % |s.participants|].name
  {
    RoundsLength(s, n);
    forall t | 0 <= t < n
      ensures Rounds(s, n)[t] == TurnMessage(s, t, Rounds(s, n)[..t])
    {
      RoundsLength(s, t);
      TurnAt(s, n, t);
    }
  }

  /** With a judge, the sentinel closes the debate: it is the last message, or
      the one before the judge's verdict. Without a judge the transcript is
      the loop's alone. */
  lemma DebateEnding(s: Session, n: nat)
    requires s.Valid()
    ensures var d := Debate(s, n);
      && Rounds(s, n) <= d
      && (s.judge.None? ==> d == Rounds(s, n))
      && (s.judge.Some? ==>
            || d[|d| - 1] == Sentinel(s.env.now(EndOfDebate))
            || (|d| >= 2 && d[|d| - 2] == Sentinel(s.env.now(EndOfDebate))
                && d[|d| - 1].sender == s.judge.value.name))
  {
  }

  /** Two participants A and B, no judge, a turn cap of 3 and no duration
      cap: the transcript is A, B, A, each argument generated from the
      messages before it. */
  lemma ThreeTurnsTwoParticipants(s: Session, n: nat)
    requires |s.participants| == 2
    requires s.judge.None? && s.turns == 3 && s.duration == 0
    requires FirstStop(s, n)
    ensures var d := Debate(s, n);
      && |d| == 3
      && d[0].sender == s.participants[0].name
      && d[1].sender == s.participants[1].name
      && d[2].sender == s.participants[0].name
      && forall i :: 0 <= i < 3 ==> d[i] == TurnMessage(s, i, d[..i])
  {
    TurnCapOnly(s, n);
    NoJudgeTranscript(s, 3);
  }
}
