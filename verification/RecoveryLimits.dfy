/** Where the way back does not lead back: a history in which it hands out a soft challenge. */
module RecoveryLimits {
  import opened Wrappers
  import opened RiskTypes
  import opened RiskCore
  import opened UserStates
  import opened RiskEngines
  import opened Postures
  import opened Challenges
  import opened Enforcement
  import opened RuntimeRuns
  import opened Recoveries
  import Policy
  import Engine = EngineRuns

  const SETTINGS := RiskSettings(0.5, 0.5, 1.0, 0.5, 0.75, 2, 2, 60_000_000, 2)

  const USER := Machine(Active, None)

  function Example(): Config {
    Config(SETTINGS, EnrollmentConfig(1, 1, 1), true, 100, Some(Credential("question", answer => answer == "right")))
  }

  const SCORE := ScoreResult("user", "w", KbdOnly, ModalityScore(true, Some(0.6), Scored),
                             ModalityScore(false, None, ModelUnavailable))

  const CONTEXT := ContextAssessment(1.0, MultiplicativeDamping, None, None, None, None)

  function MediumWindow(t: nat, id: string): Engine.EngineEvent {
    Engine.Window(DecisionInput(SCORE, "s", "g", t, CONTEXT), id)
  }

  function Watching(t: nat, id: string): RuntimeEvent {
    Monitored(MediumWindow(t, id), Missing, Prompt(true, true, true), "token", 0)
  }

  function Prompted(id: string): PendingChallenge {
    Dispatched(100, Example().credential.value, id, Anchor("user", "s", "g"), SoftChallenge, 0, "token")
  }

  // ---------------------------------------------------------------------
  // The engine on three windows of medium risk
  // ---------------------------------------------------------------------

  lemma WindowIsMedium(t: nat, id: string)
    ensures MediumWindow(t, id).Valid() && SETTINGS.Valid()
    ensures Evidence(SETTINGS, SCORE) == Some(0.6) && CONTEXT.Valid() && CONTEXT.Adjust(0.6) == 0.6
  {
    FusionCases(SETTINGS, SCORE);
  }

  // What the level state is after the first window, and from the second on.
  const ONE := Core([0.6], Some(0.6), Low)
  const TWO := Core([0.6, 0.6], Some(0.6), Medium)

  lemma LevelRises()
    ensures Advance(SETTINGS, ColdStart, 0.6) == ONE
    ensures Advance(SETTINGS, ONE, 0.6) == TWO && Advance(SETTINGS, TWO, 0.6) == TWO
    ensures CountAtLeast(TWO.history, 0.75) == 0
  {
    assert ONE.history[..0] == [] && TWO.history[..1] == ONE.history;
    assert CountAtLeast(ONE.history, 0.5) == 1 && CountAtLeast(ONE.history, 0.75) == 0;
    assert CountAtLeast(TWO.history, 0.5) == 2 && CountAtLeast(TWO.history, 0.75) == 0;
    assert Smoothed(SETTINGS, Some(0.6), 0.6) == 0.6;
    assert Pushed([], 0.6, 2) == ONE.history by { assert [] + [0.6] == ONE.history; }
    assert Pushed(ONE.history, 0.6, 2) == TWO.history && Pushed(TWO.history, 0.6, 2) == TWO.history;
  }

  // The only outcome is a decision of this id and action for an ACTIVE user.
  predicate Decides(outcomes: seq<RiskOutcome>, id: string, action: DecisionAction, enforced: bool) {
    && |outcomes| == 1 && outcomes[0].decision.Some?
    && var d := outcomes[0].decision.value;
    && (d.decisionId, d.userId, d.sessionId, d.segmentId) == (id, "user", "s", "g")
    && d.action == action && d.enforcementApplied == enforced && d.userState == Active
  }

  lemma WindowIsScored(s: EngineState, t: nat, id: string)
    requires s.user == USER && !s.shadowMode
    requires s.lastDecisionUs.Some? ==> s.lastDecisionUs.value <= t
    ensures MediumWindow(t, id).Valid()
    ensures var core := Advance(SETTINGS, s.core, 0.6);
            var (policy, result) :=
              Policy.Decide(SETTINGS, s.policy, core.level, CountAtLeast(core.history, 0.75), t, true);
            var (s', more) := Engine.Step(Example().SetupFor("user"), s, MediumWindow(t, id));
            && s' == EngineState(core, Some(t), false, USER, policy)
            && Decides(more, id, result.emitted, result.enforcementApplied)
  {
    WindowIsMedium(t, id);
  }

  // After the first, second and third window.
  const FIRST := EngineState(ONE, Some(0), false, USER, Policy.Fresh)
  const SECOND := EngineState(TWO, Some(0), false, USER, Policy.PolicyState([0], map[SoftChallenge := 0]))

  lemma FirstWindow()
    ensures MediumWindow(0, "a").Valid()
    ensures var (s, more) := Engine.Step(Example().SetupFor("user"), Engine.Cold(USER), MediumWindow(0, "a"));
            s == FIRST && Decides(more, "a", Continue, false)
  {
    LevelRises();
    WindowIsScored(Engine.Cold(USER), 0, "a");
  }

  lemma SecondWindow()
    ensures MediumWindow(0, "b").Valid()
    ensures var (s, more) := Engine.Step(Example().SetupFor("user"), FIRST, MediumWindow(0, "b"));
            s == SECOND && Decides(more, "b", SoftChallenge, true)
  {
    LevelRises();
    WindowIsScored(FIRST, 0, "b");
  }

  lemma ThirdWindow()
    ensures MediumWindow(60_000_000, "c").Valid()
    ensures var more := Engine.Step(Example().SetupFor("user"), SECOND, MediumWindow(60_000_000, "c")).1;
            Decides(more, "c", SoftChallenge, true)
  {
    LevelRises();
    WindowIsScored(SECOND, 60_000_000, "c");
    assert Policy.Pruned([0], 0) == [];
  }

  // ---------------------------------------------------------------------
  // The runtime around it
  // ---------------------------------------------------------------------

  // The session live with this engine, and these challenges outstanding under this posture.
  predicate Stands(r: Runtime, engine: EngineState, posture: Posture, pending: seq<PendingChallenge>) {
    && r.live.Some? && r.live.value.userId == "user" && r.live.value.engine == engine
    && r.backend.session.posture == posture && r.backend.pending == pending
  }

  lemma QuietWindow(r: Runtime)
    requires Stands(r, Engine.Cold(USER), Normal, [])
    ensures Watching(0, "a").Valid() && Stands(Step(Example(), r, Watching(0, "a")), FIRST, Normal, [])
  {
    FirstWindow();
  }

  // A soft challenge is prompted and stays outstanding.
  lemma SoftChallengeIsPrompted(b: Backend, d: RiskDecision)
    requires (d.userId, d.sessionId, d.segmentId) == ("user", "s", "g")
    requires d.action == SoftChallenge && d.enforcementApplied && d.userState == Active
    requires b.session.posture in {Normal, Challenged}
    ensures var b' := Enforced(Example(), b, d, Missing, Prompt(true, true, true), "token", 0);
            b'.session.posture == Challenged && b'.pending == Put(b.pending, Prompted(d.decisionId))
  {
  }

  lemma SoftWindow(r: Runtime)
    requires Stands(r, FIRST, Normal, [])
    ensures Watching(0, "b").Valid() && Stands(Step(Example(), r, Watching(0, "b")), SECOND, Challenged, [Prompted("b")])
  {
    SecondWindow();
    var d := Engine.Step(Example().SetupFor("user"), FIRST, MediumWindow(0, "b")).1[0].decision.value;
    SoftChallengeIsPrompted(r.backend, d);
  }

  lemma SecondSoftWindow(r: Runtime)
    requires Stands(r, SECOND, Challenged, [Prompted("b")])
    ensures Watching(60_000_000, "c").Valid()
    ensures var b := Step(Example(), r, Watching(60_000_000, "c")).backend;
            b.session.posture == Challenged && b.pending == [Prompted("b"), Prompted("c")]
  {
    ThirdWindow();
    var d := Engine.Step(Example().SetupFor("user"), SECOND, MediumWindow(60_000_000, "c")).1[0].decision.value;
    SoftChallengeIsPrompted(r.backend, d);
    assert Put([Prompted("b")], Prompted("c")) == [Prompted("b")] + Put([], Prompted("c"));
  }

  // The registry's operations on two prompts, none of them overdue.
  lemma RegistryOfTwo(b: PendingChallenge, c: PendingChallenge)
    requires b.decisionId != c.decisionId && b.expiresAt > 0 && c.expiresAt > 0
    ensures Overdue([b, c], 0) == [] && Unexpired([b, c], 0) == [b, c] && Unexpired([c], 0) == [c]
    ensures Find([b, c], b.decisionId) == Some(b) && Without([b, c], b.decisionId) == [c]
  {
    assert [b, c][1..] == [c] && [c][1..] == [];
    assert [b] + [c] == [b, c] && [c] + [] == [c];
    assert Overdue([c], 0) == [];
    UnexpiredCons(c, [], 0);
    UnexpiredCons(b, [c], 0);
    WithoutCons(c, [], b.decisionId);
    WithoutCons(b, [c], b.decisionId);
  }

  // The first prompt answered wrongly blocks the session and leaves the second outstanding.
  lemma WrongAnswerBlocks(b: Backend)
    requires b.session.posture == Challenged && b.pending == [Prompted("b"), Prompted("c")]
    ensures var b' := Answered(true, Example().credential, b, "b", "wrong", None, 0, 0).0;
            b'.session.posture == ReauthRequired && b'.pending == [Prompted("c")]
  {
    RegistryOfTwo(Prompted("b"), Prompted("c"));
    assert Swept(true, b, 0) == b;
  }

  const ROUND := Round(Anchor("user", "s", "g"), "fresh", "secret", 0, "right", None, 0, 0)

  lemma RunAppend(config: Config, shadow: bool, events: seq<RuntimeEvent>, event: RuntimeEvent)
    requires ValidEvents(events) && event.Valid()
    ensures ValidEvents(events + [event])
    ensures Run(config, shadow, events + [event]) == Step(config, Run(config, shadow, events), event)
  {
    assert (events + [event])[..|events|] == events;
  }

  // The session under two soft challenges, after one quiet window.
  lemma TwoChallenges() returns (events: seq<RuntimeEvent>)
    ensures ValidEvents(events)
    ensures var b := Run(Example(), false, events).backend;
            b.session.posture == Challenged && b.pending == [Prompted("b"), Prompted("c")]
  {
    events := [];
    assert Run(Example(), false, events) == Boot(false);
    RunAppend(Example(), false, events, Starts("user", Some("s"), Active));
    events := events + [Starts("user", Some("s"), Active)];
    QuietWindow(Run(Example(), false, events));
    RunAppend(Example(), false, events, Watching(0, "a"));
    events := events + [Watching(0, "a")];
    SoftWindow(Run(Example(), false, events));
    RunAppend(Example(), false, events, Watching(0, "b"));
    events := events + [Watching(0, "b")];
    SecondSoftWindow(Run(Example(), false, events));
    RunAppend(Example(), false, events, Watching(60_000_000, "c"));
    events := events + [Watching(60_000_000, "c")];
  }

  // The way back offered while one soft challenge is outstanding.
  lemma SoftChallengeIsHandedOut(b: Backend)
    requires b.pending == [Prompted("c")]
    ensures Outstanding(b, 0) == [Prompted("c")] && HandedOut(Example(), b, ROUND) == Prompted("c")
    ensures Blocked(Example(), b) ==> AnsweredRightly(Example(), b, ROUND)
  {
    var c := Prompted("c");
    assert |c.decisionId| == 1 && !IsScheduled(c.decisionId);
    UnexpiredCons(c, [], 0);
    EnforcingCons(c, []);
    assert [c] + [] == [c];
    assert Unexpired([c], 0) == [c] && Enforcing([c]) == [c];
  }

  /** The way back can lead nowhere: two soft challenges are enforced a cooldown apart, the
      first is answered wrongly and blocks the session; the request for a way back hands out
      the second, its right answer is accepted, and the session is blocked as before. */
  lemma AcceptedButStillBlocked() returns (events: seq<RuntimeEvent>)
    ensures SETTINGS.Valid() && ValidEvents(events)
    ensures var b := Run(Example(), false, events).backend;
            && Blocked(Example(), b) && AnsweredRightly(Example(), b, ROUND)
            && HandedOut(Example(), b, ROUND).action == SoftChallenge
            && Tried(Example(), b, ROUND).1 == Ok(Accepted) && Blocking(Tried(Example(), b, ROUND).0.session.posture)
  {
    var before := TwoChallenges();
    var wrong := Answers("b", "wrong", None, 0, 0);
    events := before + [wrong];
    RunAppend(Example(), false, before, wrong);
    WrongAnswerBlocks(Run(Example(), false, before).backend);
    EveryRuntimeIsSound(Example(), false, events);
    SoftChallengeIsHandedOut(Run(Example(), false, events).backend);
    RecoveryRestoresAccess(Example(), Run(Example(), false, events).backend, ROUND);
  }
}
