/** What a token was spent on, and what every later presentation of it is answered. */
module MaintenanceRetries {
  import opened Options
  import opened Texts
  import opened Ordering
  import opened Maintenance
  import opened MaintenanceProofs
  import opened MaintenanceResults

  /** The content a token took effect with, and whether it completed its job. */
  datatype Effect = Effect(content: Digest, completed: bool)

  /** The observed system with the effect of each spent token. */
  datatype Story = Story(sys: Sys, effects: map<Token, Effect>)

  ghost function Tell(env: Env, h: Story, e: Event): Story
  {
    Story(Step(env, h.sys, e), EffectsAfter(env, h.sys, h.effects, e))
  }

  ghost function EffectsAfter(env: Env, s: Sys, effects: map<Token, Effect>, e: Event): map<Token, Effect>
  {
    if !e.Commit? then effects else
      var out := CommitStep(env, s.db, e.req, e.now, e.at, e.quota).1;
      if out.Committed? && !out.replayed then effects[e.req.token := Effect(e.req.content, out.completed)] else effects
  }

  ghost function TellAll(env: Env, h: Story, events: seq<Event>): Story
    decreases |events|
  {
    if events == [] then h else TellAll(env, Tell(env, h, events[0]), events[1..])
  }

  lemma {:induction false} TellAllIsRun(env: Env, h: Story, events: seq<Event>)
    ensures TellAll(env, h, events).sys == Run(env, h.sys, events)
    decreases |events|
  {
    if events != [] { TellAllIsRun(env, Tell(env, h, events[0]), events[1..]); }
  }

  /** The job's latest request is the one its token took effect with. */
  predicate Remembers(job: Job, effects: map<Token, Effect>)
  {
    job.lastToken.Some? ==>
      && job.lastToken.value in effects
      && job.lastDigest == Some(effects[job.lastToken.value].content)
      && job.lastCompleted == effects[job.lastToken.value].completed
  }

  ghost predicate StoryInv(h: Story)
  {
    && Frame(h.sys)
    && (forall t :: t in h.effects <==> t in h.sys.spent)
    && (forall i :: 0 <= i < |h.sys.db.jobs| ==> Remembers(h.sys.db.jobs[i], h.effects))
  }

  /* ---- steps ---- */

  lemma CommitTold(env: Env, h: Story, req: CommitRequest, now: Time, at: Time, quota: bool)
    requires StoryInv(h)
    ensures StoryInv(Tell(env, h, Commit(req, now, at, quota)))
  {
    var s, h' := h.sys, Tell(env, h, Commit(req, now, at, quota));
    FrameByCommit(env, s, req, now, at, quota);
    CommitShape(env, s, req, now, at, quota);
    var out := CommitStep(env, s.db, req, now, at, quota).1;
    if out.Committed? && !out.replayed {
      var j := FindJob(s.db.jobs, req.token).value;
      assert req.token !in s.spent;
      forall i | 0 <= i < |s.db.jobs| ensures Remembers(h'.sys.db.jobs[i], h'.effects) {
        assert i != j ==> h'.sys.db.jobs[i] == s.db.jobs[i] && Remembers(s.db.jobs[i], h.effects);
      }
    }
  }

  lemma ClaimTold(env: Env, h: Story, request: string, now: Time, token: Token)
    requires StoryInv(h) && token !in h.sys.issued
    ensures StoryInv(Tell(env, h, Claim(request, now, token)))
  {
    FrameByClaim(env, h.sys, request, now, token);
    ClaimShape(env, h.sys, request, now, token);
  }

  lemma OtherTold(env: Env, h: Story, e: Event)
    requires StoryInv(h) && !e.Claim? && !e.Commit?
    ensures StoryInv(Tell(env, h, e))
  {
    FrameKeeps(env, h.sys, e);
  }

  lemma Told(env: Env, h: Story, e: Event)
    requires StoryInv(h) && DrawsFresh(h.sys, e)
    ensures StoryInv(Tell(env, h, e))
    ensures forall t :: t in h.effects ==> t in Tell(env, h, e).effects && Tell(env, h, e).effects[t] == h.effects[t]
  {
    match e {
      case Claim(request, now, token) => ClaimTold(env, h, request, now, token);
      case Commit(req, now, at, quota) =>
        CommitTold(env, h, req, now, at, quota);
        CommitShape(env, h.sys, req, now, at, quota);
      case _ => OtherTold(env, h, e);
    }
  }

  lemma {:induction false} AllTold(env: Env, h: Story, events: seq<Event>)
    requires StoryInv(h) && Arbitrary(env, h.sys, events)
    ensures StoryInv(TellAll(env, h, events))
    decreases |events|
  {
    if events != [] {
      Told(env, h, events[0]);
      AllTold(env, Tell(env, h, events[0]), events[1..]);
    }
  }

  /* ---- main results ---- */

  /** Some job's latest request carries the token. */
  predicate Latest(jobs: seq<Job>, token: Token)
  {
    exists i :: 0 <= i < |jobs| && jobs[i].lastToken == Some(token)
  }

  /** What a token that took effect is answered when it is presented again. */
  ghost function AnswerAgain(jobs: seq<Job>, effect: Effect, req: CommitRequest): CommitOutcome
  {
    if !Latest(jobs, req.token) then Rejected(LeaseLost)
    else if req.content == effect.content then Committed(effect.completed, true)
    else Rejected(MutationConflict)
  }

  lemma PresentedAgain(env: Env, h: Story, req: CommitRequest, now: Time, at: Time, quota: bool)
    requires StoryInv(h) && req.token in h.effects
    requires !Blank(req.content.summary) && WellSized(env, req.content)
    ensures CommitStep(env, h.sys.db, req, now, at, quota) ==
      (h.sys.db, AnswerAgain(h.sys.db.jobs, h.effects[req.token], req))
  {
    var jobs := h.sys.db.jobs;
    var found := FindJob(jobs, req.token);
    if found.Some? { assert jobs[found.value].token != Some(req.token); }
  }

  /** On every run, with any stamps: a token that took effect, presented again with any content, changes
      nothing. While it is its job's latest it is answered as committed exactly when its content is the
      one that took effect, and as a conflict otherwise; afterwards its lease is lost. */
  lemma SpentTokenAnswer(env: Env, start: Sys, events: seq<Event>, req: CommitRequest, now: Time, at: Time,
                         quota: bool)
    requires Initial(start) && Arbitrary(env, start, events)
    requires !Blank(req.content.summary) && WellSized(env, req.content)
    ensures
      var s, effects := Run(env, start, events), TellAll(env, Story(start, map[]), events).effects;
      req.token in effects ==>
        CommitStep(env, s.db, req, now, at, quota) == (s.db, AnswerAgain(s.db.jobs, effects[req.token], req))
  {
    var h := TellAll(env, Story(start, map[]), events);
    InitialInv(start);
    AllTold(env, Story(start, map[]), events);
    TellAllIsRun(env, Story(start, map[]), events);
    if req.token in h.effects { PresentedAgain(env, h, req, now, at, quota); }
  }

  /** On every run, whoever is told that a commit succeeded had this very content stored under this very
      token: at this commit or at an earlier one. */
  lemma CommittedContentTookEffect(env: Env, start: Sys, events: seq<Event>, req: CommitRequest, now: Time, at: Time,
                                   quota: bool)
    requires Initial(start) && Arbitrary(env, start, events)
    requires CommitStep(env, Run(env, start, events).db, req, now, at, quota).1.Committed?
    ensures
      var out := CommitStep(env, Run(env, start, events).db, req, now, at, quota).1;
      var before := TellAll(env, Story(start, map[]), events).effects;
      var after := Tell(env, TellAll(env, Story(start, map[]), events), Commit(req, now, at, quota)).effects;
      && req.token in after && after[req.token] == Effect(req.content, out.completed)
      && (out.replayed <==> req.token in before)
  {
    var h := TellAll(env, Story(start, map[]), events);
    InitialInv(start);
    AllTold(env, Story(start, map[]), events);
    TellAllIsRun(env, Story(start, map[]), events);
    CommitShape(env, h.sys, req, now, at, quota);
    if req.token in h.effects { PresentedAgain(env, h, req, now, at, quota); }
  }
}
