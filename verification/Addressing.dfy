/** Who a new message addresses: the thread service and the projection each search for it in their own way. */
module Addressing {
  import opened Wrappers

  datatype Participant = Participant(id: int, agent: Option<int>)

  datatype Turn = Turn(iteration: Option<int>, productSafe: bool, byAgent: bool, speakerAgent: Option<int>, addressed: Option<int>)

  datatype AgentRun = AgentRun(iteration: Option<int>, agent: int)

  datatype Iteration = Iteration(id: int, responsible: Option<int>)

  /** The table by participant id, built over the whole list: the last participant with an id wins. */
  function ById(participants: seq<Participant>, id: int): (found: Option<Participant>)
    ensures found.Some? ==>
              exists i :: 0 <= i < |participants| && participants[i] == found.value && found.value.id == id
                && forall j :: i < j < |participants| ==> participants[j].id != id
    ensures found.None? ==> forall p :: p in participants ==> p.id != id
  {
    if participants == [] then None
    else
      var last := participants[|participants| - 1];
      if last.id == id then Some(last) else ById(participants[..|participants| - 1], id)
  }

  function ByAgent(participants: seq<Participant>, agent: int): (found: Option<Participant>)
    ensures found.Some? ==>
              exists i :: 0 <= i < |participants| && participants[i] == found.value && found.value.agent == Some(agent)
                && forall j :: i < j < |participants| ==> participants[j].agent != Some(agent)
    ensures found.None? ==> forall p :: p in participants ==> p.agent != Some(agent)
  {
    if participants == [] then None
    else
      var last := participants[|participants| - 1];
      if last.agent == Some(agent) then Some(last) else ByAgent(participants[..|participants| - 1], agent)
  }

  function Addressee(participants: seq<Participant>, turn: Turn): Option<Participant> {
    if turn.addressed.Some? then ById(participants, turn.addressed.value) else None
  }

  function Speaker(participants: seq<Participant>, turn: Turn): Option<Participant> {
    if turn.byAgent && turn.speakerAgent.Some? then ByAgent(participants, turn.speakerAgent.value) else None
  }

  function ResponsibleOf(participants: seq<Participant>, iteration: Iteration): Option<Participant> {
    if iteration.responsible.Some? then ByAgent(participants, iteration.responsible.value) else None
  }

  // --------------------------------------- the projection: search backwards, skipping items

  predicate InScope(itemIteration: Option<int>, scope: Option<int>) {
    scope.None? || itemIteration == scope
  }

  function ProjectedAddressee(participants: seq<Participant>, turns: seq<Turn>, scope: Option<int>): Option<Participant> {
    if turns == [] then None
    else
      var n := |turns| - 1;
      if InScope(turns[n].iteration, scope) && Addressee(participants, turns[n]).Some? then Addressee(participants, turns[n])
      else ProjectedAddressee(participants, turns[..n], scope)
  }

  function ProjectedRunner(participants: seq<Participant>, runs: seq<AgentRun>, scope: Option<int>): Option<Participant> {
    if runs == [] then None
    else
      var n := |runs| - 1;
      if InScope(runs[n].iteration, scope) && ByAgent(participants, runs[n].agent).Some? then ByAgent(participants, runs[n].agent)
      else ProjectedRunner(participants, runs[..n], scope)
  }

  function ProjectedSpeaker(participants: seq<Participant>, turns: seq<Turn>, scope: Option<int>): Option<Participant> {
    if turns == [] then None
    else
      var n := |turns| - 1;
      if InScope(turns[n].iteration, scope) && turns[n].productSafe && Speaker(participants, turns[n]).Some? then
        Speaker(participants, turns[n])
      else ProjectedSpeaker(participants, turns[..n], scope)
  }

  function OrElse(a: Option<Participant>, b: Option<Participant>): Option<Participant> {
    if a.Some? then a else b
  }

  function ResolveComposerParticipant(participants: seq<Participant>, iteration: Iteration, runs: seq<AgentRun>, turns: seq<Turn>)
    : Option<Participant>
  {
    OrElse(ResponsibleOf(participants, iteration),
           OrElse(ProjectedAddressee(participants, turns, Some(iteration.id)),
                  OrElse(ProjectedRunner(participants, runs, Some(iteration.id)),
                         OrElse(ProjectedSpeaker(participants, turns, Some(iteration.id)),
                                OrElse(ProjectedAddressee(participants, turns, None),
                                       ProjectedSpeaker(participants, turns, None))))))
  }

  // ------------------------------------ the thread service: filter first, then search backwards

  function TurnsOf(turns: seq<Turn>, iteration: int): (scoped: seq<Turn>)
    ensures forall turn :: turn in scoped <==> turn in turns && turn.iteration == Some(iteration)
  {
    if turns == [] then []
    else
      var n := |turns| - 1;
      TurnsOf(turns[..n], iteration) + if turns[n].iteration == Some(iteration) then [turns[n]] else []
  }

  function RunsOf(runs: seq<AgentRun>, iteration: int): (scoped: seq<AgentRun>)
    ensures forall run :: run in scoped <==> run in runs && run.iteration == Some(iteration)
  {
    if runs == [] then []
    else
      var n := |runs| - 1;
      RunsOf(runs[..n], iteration) + if runs[n].iteration == Some(iteration) then [runs[n]] else []
  }

  function LastAddressee(participants: seq<Participant>, turns: seq<Turn>): Option<Participant> {
    if turns == [] then None
    else OrElse(Addressee(participants, turns[|turns| - 1]), LastAddressee(participants, turns[..|turns| - 1]))
  }

  function LastRunner(participants: seq<Participant>, runs: seq<AgentRun>): Option<Participant> {
    if runs == [] then None
    else OrElse(ByAgent(participants, runs[|runs| - 1].agent), LastRunner(participants, runs[..|runs| - 1]))
  }

  function LastSpeaker(participants: seq<Participant>, turns: seq<Turn>): Option<Participant> {
    if turns == [] then None
    else OrElse(Speaker(participants, turns[|turns| - 1]), LastSpeaker(participants, turns[..|turns| - 1]))
  }

  function ResolveAddressedParticipant(participants: seq<Participant>, iteration: Iteration, runs: seq<AgentRun>,
                                       turns: seq<Turn>, explicit: Option<int>): Result<Option<Participant>, string>
  {
    var scoped := TurnsOf(turns, iteration.id);
    if explicit.Some? then
      var named := ById(participants, explicit.value);
      if named.None? then Err("thread_participant_not_found") else Ok(named)
    else
      Ok(OrElse(ResponsibleOf(participants, iteration),
                OrElse(LastAddressee(participants, scoped),
                       OrElse(LastRunner(participants, RunsOf(runs, iteration.id)),
                              OrElse(LastSpeaker(participants, scoped),
                                     OrElse(LastAddressee(participants, turns), LastSpeaker(participants, turns)))))))
  }

  // ---------------------------------------------------------------------------- agreement

  lemma {:induction false} AddresseesAgree(participants: seq<Participant>, turns: seq<Turn>, iteration: int)
    ensures ProjectedAddressee(participants, turns, None) == LastAddressee(participants, turns)
    ensures ProjectedAddressee(participants, turns, Some(iteration)) == LastAddressee(participants, TurnsOf(turns, iteration))
  {
    if turns != [] {
      var n := |turns| - 1;
      AddresseesAgree(participants, turns[..n], iteration);
      var scoped := TurnsOf(turns[..n], iteration);
      assert (scoped + [turns[n]])[..|scoped|] == scoped;
      assert scoped + [] == scoped;
    }
  }

  lemma {:induction false} RunnersAgree(participants: seq<Participant>, runs: seq<AgentRun>, iteration: int)
    ensures ProjectedRunner(participants, runs, Some(iteration)) == LastRunner(participants, RunsOf(runs, iteration))
  {
    if runs != [] {
      var n := |runs| - 1;
      RunnersAgree(participants, runs[..n], iteration);
      var scoped := RunsOf(runs[..n], iteration);
      assert (scoped + [runs[n]])[..|scoped|] == scoped;
      assert scoped + [] == scoped;
    }
  }

  /** The turns that are safe to show. */
  function SafeTurns(turns: seq<Turn>): (safe: seq<Turn>)
    ensures forall turn :: turn in safe <==> turn in turns && turn.productSafe
  {
    if turns == [] then []
    else
      var n := |turns| - 1;
      SafeTurns(turns[..n]) + if turns[n].productSafe then [turns[n]] else []
  }

  lemma LastSpeakerOfMore(participants: seq<Participant>, turns: seq<Turn>, turn: Turn)
    ensures LastSpeaker(participants, turns + [turn]) == OrElse(Speaker(participants, turn), LastSpeaker(participants, turns))
  {
    assert (turns + [turn])[..|turns|] == turns;
  }

  lemma SafeTurnsOfMore(turns: seq<Turn>, turn: Turn)
    ensures SafeTurns(turns + [turn]) == SafeTurns(turns) + if turn.productSafe then [turn] else []
  {
    assert (turns + [turn])[..|turns|] == turns;
  }

  /** Skipping unsafe turns while searching is searching the safe turns. */
  lemma {:induction false} SkippingIsFiltering(participants: seq<Participant>, turns: seq<Turn>)
    ensures ProjectedSpeaker(participants, turns, None) == LastSpeaker(participants, SafeTurns(turns))
  {
    if turns != [] {
      var n := |turns| - 1;
      SkippingIsFiltering(participants, turns[..n]);
      LastSpeakerOfMore(participants, SafeTurns(turns[..n]), turns[n]);
      assert SafeTurns(turns[..n]) + [] == SafeTurns(turns[..n]);
      hide LastSpeaker;
    }
  }

  lemma {:induction false} SkippingIsFilteringInScope(participants: seq<Participant>, turns: seq<Turn>, iteration: int)
    ensures ProjectedSpeaker(participants, turns, Some(iteration)) == LastSpeaker(participants, SafeTurns(TurnsOf(turns, iteration)))
  {
    if turns != [] {
      var n := |turns| - 1;
      var scoped := TurnsOf(turns[..n], iteration);
      SkippingIsFilteringInScope(participants, turns[..n], iteration);
      SafeTurnsOfMore(scoped, turns[n]);
      LastSpeakerOfMore(participants, SafeTurns(scoped), turns[n]);
      assert SafeTurns(scoped) + [] == SafeTurns(scoped) && scoped + [] == scoped;
      hide LastSpeaker, SafeTurns;
    }
  }

  /** Somebody is named before any speaker is looked for. */
  predicate NamedFirst(participants: seq<Participant>, iteration: Iteration, runs: seq<AgentRun>, turns: seq<Turn>) {
    || ResponsibleOf(participants, iteration).Some?
    || LastAddressee(participants, TurnsOf(turns, iteration.id)).Some?
    || LastRunner(participants, RunsOf(runs, iteration.id)).Some?
  }

  /** Whom the speaking turns lead to: a speaker of the iteration, else anybody addressed, else any speaker. */
  function LedTo(participants: seq<Participant>, scoped: seq<Turn>, speaking: seq<Turn>, turns: seq<Turn>): Option<Participant> {
    OrElse(LastSpeaker(participants, scoped), OrElse(LastAddressee(participants, turns), LastSpeaker(participants, speaking)))
  }

  /** The two resolvers agree, when nobody is named explicitly, exactly if somebody is named before the speakers are
      asked, or the safe turns alone lead to the same participant as all the turns. */
  lemma ResolversAgreeExactly(participants: seq<Participant>, iteration: Iteration, runs: seq<AgentRun>, turns: seq<Turn>)
    ensures
      var scoped := TurnsOf(turns, iteration.id);
      ResolveAddressedParticipant(participants, iteration, runs, turns, None) ==
      Ok(ResolveComposerParticipant(participants, iteration, runs, turns))
      <==>
      || NamedFirst(participants, iteration, runs, turns)
      || LedTo(participants, scoped, turns, turns) == LedTo(participants, SafeTurns(scoped), SafeTurns(turns), turns)
  {
    AddresseesAgree(participants, turns, iteration.id);
    RunnersAgree(participants, runs, iteration.id);
    SkippingIsFiltering(participants, turns);
    SkippingIsFilteringInScope(participants, turns, iteration.id);
    hide LastSpeaker, LastAddressee, LastRunner, ProjectedAddressee, ProjectedRunner, ProjectedSpeaker, SafeTurns, TurnsOf,
      RunsOf, ResponsibleOf;
  }

  /** Every agent turn whose speaker is a participant is safe to show. */
  ghost predicate SpeakersAreSafe(participants: seq<Participant>, turns: seq<Turn>) {
    forall turn :: turn in turns && Speaker(participants, turn).Some? ==> turn.productSafe
  }

  lemma {:induction false} SafeSpeakersSuffice(participants: seq<Participant>, turns: seq<Turn>)
    requires SpeakersAreSafe(participants, turns)
    ensures LastSpeaker(participants, SafeTurns(turns)) == LastSpeaker(participants, turns)
  {
    if turns != [] {
      var n := |turns| - 1;
      assert turns[n] in turns;
      SafeSpeakersSuffice(participants, turns[..n]);
      LastSpeakerOfMore(participants, SafeTurns(turns[..n]), turns[n]);
      assert SafeTurns(turns[..n]) + [] == SafeTurns(turns[..n]);
    }
  }

  /** In particular they agree, through all fallbacks, when every turn of a speaking participant is safe to show. */
  lemma ResolversAgree(participants: seq<Participant>, iteration: Iteration, runs: seq<AgentRun>, turns: seq<Turn>)
    requires SpeakersAreSafe(participants, turns)
    ensures ResolveAddressedParticipant(participants, iteration, runs, turns, None) ==
            Ok(ResolveComposerParticipant(participants, iteration, runs, turns))
  {
    SafeSpeakersSuffice(participants, turns);
    SafeSpeakersSuffice(participants, TurnsOf(turns, iteration.id));
    ResolversAgreeExactly(participants, iteration, runs, turns);
    hide LastSpeaker, LastAddressee, ResolveAddressedParticipant, ResolveComposerParticipant, NamedFirst, SafeTurns, TurnsOf;
  }

  /** The projection never looks at turns that are not safe to show, unless they address someone. */
  lemma {:induction false} HiddenTurnsAreSkipped(participants: seq<Participant>, turns: seq<Turn>, scope: Option<int>)
    requires forall turn :: turn in turns && Speaker(participants, turn).Some? ==> !turn.productSafe
    ensures ProjectedSpeaker(participants, turns, scope).None?
  {
    if turns != [] {
      assert turns[|turns| - 1] in turns;
      HiddenTurnsAreSkipped(participants, turns[..|turns| - 1], scope);
    }
  }

  lemma {:induction false} SomeSpeaks(participants: seq<Participant>, turns: seq<Turn>, i: nat)
    requires i < |turns| && Speaker(participants, turns[i]).Some?
    ensures LastSpeaker(participants, turns).Some?
    decreases |turns|
  {
    if i < |turns| - 1 {
      assert turns[..|turns| - 1][i] == turns[i];
      SomeSpeaks(participants, turns[..|turns| - 1], i);
    }
  }

  /** A family of inputs on which they differ: nothing else names a participant and none of the speaking turns is safe to
      show; the thread service still finds a speaker and the projection finds nobody. */
  lemma HiddenSpeakersDisagree(participants: seq<Participant>, iteration: Iteration, runs: seq<AgentRun>, turns: seq<Turn>, i: nat)
    requires i < |turns| && Speaker(participants, turns[i]).Some?
    requires forall turn :: turn in turns && Speaker(participants, turn).Some? ==> !turn.productSafe
    requires ResponsibleOf(participants, iteration).None? && LastAddressee(participants, turns).None?
    requires LastRunner(participants, RunsOf(runs, iteration.id)).None?
    requires LastAddressee(participants, TurnsOf(turns, iteration.id)).None?
    ensures ResolveComposerParticipant(participants, iteration, runs, turns).None?
    ensures ResolveAddressedParticipant(participants, iteration, runs, turns, None).Ok?
    ensures ResolveAddressedParticipant(participants, iteration, runs, turns, None).value.Some?
  {
    AddresseesAgree(participants, turns, iteration.id);
    RunnersAgree(participants, runs, iteration.id);
    HiddenTurnsAreSkipped(participants, turns, None);
    HiddenTurnsAreSkipped(participants, turns, Some(iteration.id));
    SomeSpeaks(participants, turns, i);
  }

  /** A speaker found is that of the latest turn of the iteration that has one. */
  lemma {:induction false} LatestSpeakerWins(participants: seq<Participant>, turns: seq<Turn>, i: nat)
    requires i < |turns| && Speaker(participants, turns[i]).Some?
    requires forall j :: i < j < |turns| ==> Speaker(participants, turns[j]).None?
    ensures LastSpeaker(participants, turns) == Speaker(participants, turns[i])
  {
    if i < |turns| - 1 {
      assert turns[..|turns| - 1][i] == turns[i];
      LatestSpeakerWins(participants, turns[..|turns| - 1], i);
    }
  }

  // ------------------------------------------------------------ who is found, from the lists

  ghost predicate LastWithAgent(participants: seq<Participant>, p: Participant) {
    && p.agent.Some?
    && exists k :: 0 <= k < |participants| && participants[k] == p
                   && forall j :: k < j < |participants| ==> participants[j].agent != p.agent
  }

  ghost predicate LastWithId(participants: seq<Participant>, p: Participant) {
    exists k :: 0 <= k < |participants| && participants[k] == p && forall j :: k < j < |participants| ==> participants[j].id != p.id
  }

  ghost predicate Within(iteration: Option<int>, scope: Option<int>) {
    match scope
    case None => true
    case Some(id) => iteration == Some(id)
  }

  ghost predicate Addresses(participants: seq<Participant>, turn: Turn, scope: Option<int>, p: Participant) {
    Within(turn.iteration, scope) && turn.addressed == Some(p.id) && LastWithId(participants, p)
  }

  ghost predicate IsSpokenBy(participants: seq<Participant>, turn: Turn, scope: Option<int>, safeOnly: bool, p: Participant) {
    && Within(turn.iteration, scope) && (safeOnly ==> turn.productSafe) && turn.byAgent
    && turn.speakerAgent == p.agent && LastWithAgent(participants, p)
  }

  ghost predicate IsRunBy(participants: seq<Participant>, run: AgentRun, scope: Option<int>, p: Participant) {
    Within(run.iteration, scope) && p.agent == Some(run.agent) && LastWithAgent(participants, p)
  }

  /** The last turn that addresses a participant addresses this one; the same for speakers and runs. */
  ghost predicate AddressedLast(participants: seq<Participant>, turns: seq<Turn>, scope: Option<int>, p: Participant) {
    exists i :: 0 <= i < |turns| && Addresses(participants, turns[i], scope, p)
                && forall j, q :: i < j < |turns| ==> !Addresses(participants, turns[j], scope, q)
  }

  ghost predicate SpokeLast(participants: seq<Participant>, turns: seq<Turn>, scope: Option<int>, safeOnly: bool, p: Participant) {
    exists i :: 0 <= i < |turns| && IsSpokenBy(participants, turns[i], scope, safeOnly, p)
                && forall j, q :: i < j < |turns| ==> !IsSpokenBy(participants, turns[j], scope, safeOnly, q)
  }

  ghost predicate RanLast(participants: seq<Participant>, runs: seq<AgentRun>, scope: Option<int>, p: Participant) {
    exists i :: 0 <= i < |runs| && IsRunBy(participants, runs[i], scope, p)
                && forall j, q :: i < j < |runs| ==> !IsRunBy(participants, runs[j], scope, q)
  }

  /** The six ways to a participant, in order. */
  ghost predicate Leads(level: int, participants: seq<Participant>, iteration: Iteration, runs: seq<AgentRun>, turns: seq<Turn>,
                        safeOnly: bool, p: Participant)
  {
    match level
    case 0 => iteration.responsible == p.agent && LastWithAgent(participants, p)
    case 1 => AddressedLast(participants, turns, Some(iteration.id), p)
    case 2 => RanLast(participants, runs, Some(iteration.id), p)
    case 3 => SpokeLast(participants, turns, Some(iteration.id), safeOnly, p)
    case 4 => AddressedLast(participants, turns, None, p)
    case 5 => SpokeLast(participants, turns, None, safeOnly, p)
    case _ => false
  }

  /** The first way that leads to somebody leads to this participant. */
  ghost predicate Chosen(participants: seq<Participant>, iteration: Iteration, runs: seq<AgentRun>, turns: seq<Turn>,
                         safeOnly: bool, p: Participant)
  {
    exists level :: Leads(level, participants, iteration, runs, turns, safeOnly, p)
                    && forall lower, q :: 0 <= lower < level ==> !Leads(lower, participants, iteration, runs, turns, safeOnly, q)
  }

  lemma ByIdIsLast(participants: seq<Participant>, id: int, p: Participant)
    ensures ById(participants, id) == Some(p) <==> p.id == id && LastWithId(participants, p)
  {
  }

  lemma ByAgentIsLast(participants: seq<Participant>, agent: int, p: Participant)
    ensures ByAgent(participants, agent) == Some(p) <==> p.agent == Some(agent) && LastWithAgent(participants, p)
  {
  }

  lemma AddresseeIs(participants: seq<Participant>, turn: Turn, scope: Option<int>, p: Participant)
    ensures Addresses(participants, turn, scope, p) <==>
            InScope(turn.iteration, scope) && Addressee(participants, turn) == Some(p)
  {
    hide LastWithId;
    if turn.addressed.Some? {
      ByIdIsLast(participants, turn.addressed.value, p);
    }
  }

  lemma SpeakerIs(participants: seq<Participant>, turn: Turn, scope: Option<int>, safeOnly: bool, p: Participant)
    ensures IsSpokenBy(participants, turn, scope, safeOnly, p) <==>
            InScope(turn.iteration, scope) && (safeOnly ==> turn.productSafe) && Speaker(participants, turn) == Some(p)
  {
    if turn.speakerAgent.Some? {
      ByAgentIsLast(participants, turn.speakerAgent.value, p);
    }
    hide LastWithAgent;
    assert LastWithAgent(participants, p) ==> p.agent.Some? by { LastHasAgent(participants, p); }
  }

  lemma LastHasAgent(participants: seq<Participant>, p: Participant)
    ensures LastWithAgent(participants, p) ==> p.agent.Some?
  {
  }

  lemma RunnerIs(participants: seq<Participant>, run: AgentRun, scope: Option<int>, p: Participant)
    ensures IsRunBy(participants, run, scope, p) <==> InScope(run.iteration, scope) && ByAgent(participants, run.agent) == Some(p)
  {
    ByAgentIsLast(participants, run.agent, p);
    hide LastWithAgent;
  }

  lemma {:induction false} AddressedLastIs(participants: seq<Participant>, turns: seq<Turn>, scope: Option<int>, p: Participant)
    ensures ProjectedAddressee(participants, turns, scope) == Some(p) <==> AddressedLast(participants, turns, scope, p)
  {
    hide Addresses, Addressee;
    if turns != [] {
      var n := |turns| - 1;
      AddressedLastIs(participants, turns[..n], scope, p);
      forall q ensures Addresses(participants, turns[n], scope, q) <==>
                       InScope(turns[n].iteration, scope) && Addressee(participants, turns[n]) == Some(q)
      {
        AddresseeIs(participants, turns[n], scope, q);
      }
      assert forall j :: 0 <= j < n ==> turns[..n][j] == turns[j];
    }
  }

  lemma {:induction false} SpokeLastIs(participants: seq<Participant>, turns: seq<Turn>, scope: Option<int>, p: Participant)
    ensures ProjectedSpeaker(participants, turns, scope) == Some(p) <==> SpokeLast(participants, turns, scope, true, p)
  {
    hide IsSpokenBy, Speaker;
    if turns != [] {
      var n := |turns| - 1;
      SpokeLastIs(participants, turns[..n], scope, p);
      forall q ensures IsSpokenBy(participants, turns[n], scope, true, q) <==>
                       InScope(turns[n].iteration, scope) && turns[n].productSafe && Speaker(participants, turns[n]) == Some(q)
      {
        SpeakerIs(participants, turns[n], scope, true, q);
      }
      assert forall j :: 0 <= j < n ==> turns[..n][j] == turns[j];
    }
  }

  lemma {:induction false} RanLastIs(participants: seq<Participant>, runs: seq<AgentRun>, scope: Option<int>, p: Participant)
    ensures ProjectedRunner(participants, runs, scope) == Some(p) <==> RanLast(participants, runs, scope, p)
  {
    hide IsRunBy, ByAgent;
    if runs != [] {
      var n := |runs| - 1;
      RanLastIs(participants, runs[..n], scope, p);
      forall q ensures IsRunBy(participants, runs[n], scope, q) <==>
                       InScope(runs[n].iteration, scope) && ByAgent(participants, runs[n].agent) == Some(q)
      {
        RunnerIs(participants, runs[n], scope, q);
      }
      assert forall j :: 0 <= j < n ==> runs[..n][j] == runs[j];
    }
  }

  lemma SpokeLastOfMore(participants: seq<Participant>, turns: seq<Turn>, scope: Option<int>, p: Participant)
    requires turns != []
    ensures
      var n := |turns| - 1;
      SpokeLast(participants, turns, scope, false, p) <==>
      if InScope(turns[n].iteration, scope) && Speaker(participants, turns[n]).Some? then Speaker(participants, turns[n]) == Some(p)
      else SpokeLast(participants, turns[..n], scope, false, p)
  {
    hide IsSpokenBy, Speaker;
    var n := |turns| - 1;
    forall q ensures IsSpokenBy(participants, turns[n], scope, false, q) <==>
                     InScope(turns[n].iteration, scope) && Speaker(participants, turns[n]) == Some(q)
    {
      SpeakerIs(participants, turns[n], scope, false, q);
    }
    assert forall j :: 0 <= j < n ==> turns[..n][j] == turns[j];
  }

  /** The thread service looks at every turn that an agent speaks. */
  lemma {:induction false} AnySpokeLastIs(participants: seq<Participant>, turns: seq<Turn>, p: Participant)
    ensures LastSpeaker(participants, turns) == Some(p) <==> SpokeLast(participants, turns, None, false, p)
  {
    hide SpokeLast, Speaker;
    if turns != [] {
      AnySpokeLastIs(participants, turns[..|turns| - 1], p);
      SpokeLastOfMore(participants, turns, None, p);
    } else {
      assert !SpokeLast(participants, turns, None, false, p) by { NobodySpoke(participants, None, p); }
    }
  }

  lemma NobodySpoke(participants: seq<Participant>, scope: Option<int>, p: Participant)
    ensures !SpokeLast(participants, [], scope, false, p)
  {
  }

  lemma {:induction false} ScopedSpokeLastIs(participants: seq<Participant>, turns: seq<Turn>, iteration: int, p: Participant)
    ensures LastSpeaker(participants, TurnsOf(turns, iteration)) == Some(p) <==> SpokeLast(participants, turns, Some(iteration), false, p)
  {
    hide SpokeLast, Speaker;
    if turns != [] {
      var n := |turns| - 1;
      var scoped := TurnsOf(turns[..n], iteration);
      ScopedSpokeLastIs(participants, turns[..n], iteration, p);
      SpokeLastOfMore(participants, turns, Some(iteration), p);
      LastSpeakerOfMore(participants, scoped, turns[n]);
      assert scoped + [] == scoped;
      hide LastSpeaker;
    } else {
      assert !SpokeLast(participants, turns, Some(iteration), false, p) by { NobodySpoke(participants, Some(iteration), p); }
    }
  }

  lemma ResponsibleIs(participants: seq<Participant>, iteration: Iteration, p: Participant)
    ensures ResponsibleOf(participants, iteration) == Some(p) <==> iteration.responsible == p.agent && LastWithAgent(participants, p)
  {
    if iteration.responsible.Some? {
      ByAgentIsLast(participants, iteration.responsible.value, p);
    }
    hide LastWithAgent;
    assert LastWithAgent(participants, p) ==> p.agent.Some? by { LastHasAgent(participants, p); }
  }

  /** The way each level of a resolver leads. */
  ghost function Way(level: nat, participants: seq<Participant>, iteration: Iteration, runs: seq<AgentRun>, turns: seq<Turn>,
                     safeOnly: bool): Option<Participant>
  {
    var id := Some(iteration.id);
    match level
    case 0 => ResponsibleOf(participants, iteration)
    case 1 => ProjectedAddressee(participants, turns, id)
    case 2 => ProjectedRunner(participants, runs, id)
    case 3 => if safeOnly then ProjectedSpeaker(participants, turns, id) else LastSpeaker(participants, TurnsOf(turns, iteration.id))
    case 4 => ProjectedAddressee(participants, turns, None)
    case 5 => if safeOnly then ProjectedSpeaker(participants, turns, None) else LastSpeaker(participants, turns)
    case _ => None
  }

  lemma WaysLead(level: nat, participants: seq<Participant>, iteration: Iteration, runs: seq<AgentRun>, turns: seq<Turn>, safeOnly: bool,
                 p: Participant)
    ensures Way(level, participants, iteration, runs, turns, safeOnly) == Some(p) <==>
            Leads(level, participants, iteration, runs, turns, safeOnly, p)
  {
    ResponsibleIs(participants, iteration, p);
    AddressedLastIs(participants, turns, Some(iteration.id), p);
    AddressedLastIs(participants, turns, None, p);
    RanLastIs(participants, runs, Some(iteration.id), p);
    SpokeLastIs(participants, turns, Some(iteration.id), p);
    SpokeLastIs(participants, turns, None, p);
    AnySpokeLastIs(participants, turns, p);
    ScopedSpokeLastIs(participants, turns, iteration.id, p);
    hide ResponsibleOf, LastWithAgent, AddressedLast, RanLast, SpokeLast, ProjectedAddressee, ProjectedRunner, ProjectedSpeaker, LastSpeaker,
      TurnsOf;
  }

  /** The first of six ways that leads anywhere. */
  lemma FirstWay(participants: seq<Participant>, iteration: Iteration, runs: seq<AgentRun>, turns: seq<Turn>, safeOnly: bool,
                 found: Option<Participant>, p: Participant)
    requires
      found == OrElse(Way(0, participants, iteration, runs, turns, safeOnly),
                      OrElse(Way(1, participants, iteration, runs, turns, safeOnly),
                             OrElse(Way(2, participants, iteration, runs, turns, safeOnly),
                                    OrElse(Way(3, participants, iteration, runs, turns, safeOnly),
                                           OrElse(Way(4, participants, iteration, runs, turns, safeOnly),
                                                  Way(5, participants, iteration, runs, turns, safeOnly))))))
    ensures found == Some(p) <==> Chosen(participants, iteration, runs, turns, safeOnly, p)
    ensures found == None <==> forall level, q :: 0 <= level < 6 ==> !Leads(level, participants, iteration, runs, turns, safeOnly, q)
  {
    forall level: nat, q ensures Way(level, participants, iteration, runs, turns, safeOnly) == Some(q) <==>
                                 Leads(level, participants, iteration, runs, turns, safeOnly, q)
    {
      WaysLead(level, participants, iteration, runs, turns, safeOnly, q);
    }
    assert forall level, q :: Leads(level, participants, iteration, runs, turns, safeOnly, q) ==> 0 <= level < 6 by {
      LevelsAreSix(participants, iteration, runs, turns, safeOnly);
    }
    hide Way, Leads;
    if found.Some? {
      var q := found.value;
      var level :| 0 <= level < 6 && Way(level, participants, iteration, runs, turns, safeOnly) == Some(q)
                   && forall lower :: 0 <= lower < level ==> Way(lower, participants, iteration, runs, turns, safeOnly).None?;
      assert Leads(level, participants, iteration, runs, turns, safeOnly, q);
      assert Chosen(participants, iteration, runs, turns, safeOnly, q);
    }
  }

  lemma LevelsAreSix(participants: seq<Participant>, iteration: Iteration, runs: seq<AgentRun>, turns: seq<Turn>, safeOnly: bool)
    ensures forall level, q :: Leads(level, participants, iteration, runs, turns, safeOnly, q) ==> 0 <= level < 6
  {
  }

  /** Whom the projection finds: the last participant of the responsible agent, else the addressee of the last addressed
      turn of the iteration, else the runner of its last run, else the speaker of its last safe agent turn, else the same
      for addressed and for safe agent turns anywhere; nobody exactly if none of these leads to anybody. */
  lemma ComposerFindsFirst(participants: seq<Participant>, iteration: Iteration, runs: seq<AgentRun>, turns: seq<Turn>, p: Participant)
    ensures ResolveComposerParticipant(participants, iteration, runs, turns) == Some(p) <==>
            Chosen(participants, iteration, runs, turns, true, p)
    ensures ResolveComposerParticipant(participants, iteration, runs, turns) == None <==>
            forall level, q :: 0 <= level < 6 ==> !Leads(level, participants, iteration, runs, turns, true, q)
  {
    var found := ResolveComposerParticipant(participants, iteration, runs, turns);
    hide ResponsibleOf, ProjectedAddressee, ProjectedRunner, ProjectedSpeaker, Leads, Chosen;
    FirstWay(participants, iteration, runs, turns, true, found, p);
  }

  /** Whom the thread service finds: the last participant with the explicit identifier or an error, and without one the
      same order of fallbacks over all agent turns. */
  lemma ThreadFindsFirst(participants: seq<Participant>, iteration: Iteration, runs: seq<AgentRun>, turns: seq<Turn>, id: int, p: Participant)
    ensures ResolveAddressedParticipant(participants, iteration, runs, turns, None) == Ok(Some(p)) <==>
            Chosen(participants, iteration, runs, turns, false, p)
    ensures ResolveAddressedParticipant(participants, iteration, runs, turns, None) == Ok(None) <==>
            forall level, q :: 0 <= level < 6 ==> !Leads(level, participants, iteration, runs, turns, false, q)
    ensures ResolveAddressedParticipant(participants, iteration, runs, turns, Some(id)) == Ok(Some(p)) <==>
            p.id == id && LastWithId(participants, p)
    ensures ResolveAddressedParticipant(participants, iteration, runs, turns, Some(id)).Err? <==>
            forall k :: 0 <= k < |participants| ==> participants[k].id != id
    ensures ResolveAddressedParticipant(participants, iteration, runs, turns, Some(id)) != Ok(None)
  {
    AddresseesAgree(participants, turns, iteration.id);
    RunnersAgree(participants, runs, iteration.id);
    ByIdIsLast(participants, id, p);
    assert ById(participants, id).None? <==> forall k :: 0 <= k < |participants| ==> participants[k].id != id;
    hide ResponsibleOf, ProjectedAddressee, ProjectedRunner, ProjectedSpeaker, LastSpeaker, LastAddressee, LastRunner, TurnsOf, RunsOf, Leads,
      Chosen, LastWithId, ById;
    var found := ResolveAddressedParticipant(participants, iteration, runs, turns, None).value;
    FirstWay(participants, iteration, runs, turns, false, found, p);
  }
}
