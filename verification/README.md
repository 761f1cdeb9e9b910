# Arena, judge queue, ratings and events: a verified model

A Dafny model of the parts of an online judge where one wrong branch decides a game, loses a submission or moves a
rating, with proofs of what those parts promise.

1. **When a game is called** (`Scoring`, `ScoringOrder`, `ScoringRows`, `ScoringLoops`, `ArenaCalls`, `ArenaFinal`,
   `ArenaPending`, `ScoringDates`). A game of two players ends as soon as one is certain to win. Points are thousandths,
   dates microseconds, so the comparison of the source within an epsilon is exact here. The main result is exact: a
   player is called the winner when, and only when, they win every legal way the game can go on. Who wins in the end is
   also said from the attempts alone: more points, or the same points sooner.
2. **The judge dispatcher** (`JudgeQueue`, `JudgeRuns`, `JudgeFairness`, `JudgeMatching`, `Dllist`, `JudgeLayout`,
   `JudgeList`). A heap linked list with four markers, an index and a map of running submissions, proved to be four
   queues; and what the queues guarantee over whole runs, down to which judge may be sent what. Each locked method is one
   step.
3. **The single-elimination bracket** (`Seeding`, `Bracket`, `BracketRuns`, `BracketFates`, `BracketLength`,
   `BracketPlaces`, `BracketStandings`, `BracketBuild`, `BracketExample`, `BracketRecords`, `Tournament`). Seeding,
   building, deciding, correcting, who goes where, how long it lasts, and the final table with its podium.
4. **The series** (`Series`, `SeriesRuns`, `SeriesRecords`, `Battle`). A match and its games under every action of
   polling and of the organizers, in any order, and what each action records.
5. **Contest ratings** (`Bisection`, `Variance`, `Performances`, `Ratings`, `TieRanker`), over the reals, for any
   increasing `tanh` and any positive constants (`Variance.SITE` has the ones of the source).
6. **The ranking of the duels** (`Ordering`, `Deviation`, `DuelRanking`, `DuelRecords`, `DuelTable`): a replay of every
   battle, what every change was worked out from, and a stored table brought up to date with it.
7. **Event delivery** (`EventDelivery`, `EventRuns`): a bounded log, catching up and reconnecting, for a page loaded at
   any moment. What is lost is characterised exactly.

Objects that change in place are classes whose methods are proved against a specification of the whole new state
(`JudgeList`, `Tournament`, `Battle`, `Daemon`, `Ranking`); the results over runs are about those specifications. I/O,
clocks and random choices are parameters: the time of a poll, which of two judges with the same load gets a submission,
the order judges of a tier are visited in, what the scoring says of a game when it is polled.

Four things the source says or does that the proofs settle:

- `decide_ignoring_pending` says pending verdicts count as failed, but it drops them, so they cost no penalty.
  `ArenaPending.LeftOutIffNothingInFront` says exactly when that changes the standing, and
  `ArenaPending.FinalCallDiffersFromFailing` is a game it gives to the other player.
- `set_winner` is allowed as long as no game of the next match has been played. A next match decided by walkover has
  none, and then a later round keeps a player who is out. `BracketFates.CorrectionKeepsGood` is the exact condition and
  `BracketFates.WalkoverThenCorrection` shows when an accepted correction fails it; `BracketExample.WalkoverHappens` is
  such a bracket of eight players.
- Enabling or disabling judges offers work only when it raises the tier. So it leaves nobody idle before urgent work if
  and only if the tier goes up or no judge that becomes available could use any of that work
  (`JudgeFairness.FlagLeavesNoneIdleIff`). A free judge enabled while no enabled one has a lower tier can be left idle
  (`JudgeFairness.EnablingLeavesIdle`). The guarantees over runs allow every change of flags that meets the condition.
- With no enabled judge there is no current tier, and comparing with it is an error in the source. Every caller does it
  last, so nothing else changes; the methods report it as `raised`.

## Model

| member | source | states |
|---|---|---|
| Scoring.PointsOf | judge/arena/scoring.py:54-62 | Points are between nothing and the full points, and a pending attempt has none |
| ScoringDates.PointsMean | judge/arena/scoring.py:54-62 | Full points for all the test cases or a share as large; with partial points the thousandth nearest to the share, the even one of two; nothing otherwise |
| ScoringDates.TriesMean | judge/arena/scoring.py:155-159 | Another attempt is allowed if and only if there is no limit or fewer than it were made on the problem, compile and internal errors left out |
| ScoringOrder.BeatsIsMonotone | judge/arena/scoring.py:177-183 | Beating a rival survives a better standing of one's own and a worse one of the rival |
| ScoringOrder.StandingsCompare | judge/arena/scoring.py:94-120 | Rows at least as good problem by problem give a standing at least as good, penalties and dates included |
| ScoringOrder.AnyVerdictBeatsFailing | judge/arena/scoring.py:146-152 | Any verdict on an attempt is at least as good for its row as the failed attempt the worst case imagines |
| ScoringOrder.SortedBucketIsLine | judge/arena/scoring.py:94-104 | Grouping by problem and sorting by date and id gives the attempts on the problem in the order they were sent |
| ScoringRows.FullSolvesDominate | judge/arena/scoring.py:162-174 | A row where pending attempts are full solves, or with a full solve now, is at least as good as any judging of them and any later attempts |
| ScoringLoops.ByProblem | judge/arena/scoring.py:96-99 | The loop groups the events by problem, keeping their order |
| ScoringLoops.ComputeRow | judge/arena/scoring.py:102-113 | The row of a problem: the best, where it was first reached and the failed attempts before it; no points means no date and no penalty |
| ScoringLoops.ComputeStanding | judge/arena/scoring.py:94-120 | The loop over the problems computes the specified standing |
| ScoringDates.ScoreIs | judge/arena/scoring.py:94-117 | The score is the most points made on each problem, added up |
| ScoringDates.ReachIsWhen | judge/arena/scoring.py:114-114 | The date of a standing is when the whole score was there: the attempts up to some moment make the same score if and only if it is not earlier than that date |
| ScoringDates.PenalizedAre | judge/arena/scoring.py:108-113 | What is charged is the number of judged attempts in front of the first best one on their problem, compile and internal errors left out |
| ScoringDates.BeatsMeans | judge/arena/scoring.py:177-183 | One player beats another if and only if they have more points, or the same and the whole of them sooner, a penalty in minutes added for each charged attempt |
| ScoringLoops.Annotate | judge/arena/scoring.py:128-137 | Each row gets the attempts used and pending on its problem, and nothing else changes |
| ScoringLoops.ListBestCase | judge/arena/scoring.py:162-174 | The loop lists the judged, the pending as full solves, and a full solve now wherever one is still possible |
| ArenaCalls.MoveRaisesWorst | judge/arena/scoring.py:146-152 | No verdict, submission, poll or passing of time lowers a worst case |
| ArenaCalls.MoveLowersBest | judge/arena/scoring.py:155-174 | No verdict, submission, poll or passing of time raises a best case |
| ArenaCalls.BestCoversWorst | judge/arena/scoring.py:146-174 | A best case is never below the worst case of the same player |
| ArenaCalls.NotBothCertain | judge/arena/scoring.py:212-220 | The two players are never both certain to win, so the order they are looked at does not matter |
| ArenaCalls.FinishIsCertain | judge/arena/scoring.py:193-225 | A game is called for a player exactly when it has started and their worst case beats the best case of the rival |
| ArenaCalls.OverIsConfirmed | judge/arena/scoring.py:140-174 | Once nothing is pending or possible, the worst and the best case are the confirmed standing |
| ArenaCalls.Spoil | judge/arena/scoring.py:193-225 | For a player who is not certain, builds a legal way the game ends without that player winning |
| ArenaCalls.CalledIffCertain | judge/arena/scoring.py:193-225 | A game is called for a player if and only if they strictly win every legal completion, submissions limited as in the engine |
| ArenaCalls.CallIsStable | judge/arena/engine.py:763-812 | Once a poll would call a winner, so does every later poll of any continuation |
| ArenaFinal.FinalCallByConfirmed | judge/arena/scoring.py:228-232 | The final call always answers, a finish or a tie, by the strict order of the confirmed standings, with the reason that goes with it |
| ScoringDates.FinalCallMeans | judge/arena/scoring.py:228-232 | The final call from the attempts alone: more points, then the whole score sooner, then a tie |
| ArenaFinal.OutcomeMeans | judge/arena/scoring.py:193-225 | Every answer of a poll exactly: before the start, live while open, waiting exactly while some submission is queued or being judged, else a tie |
| ArenaFinal.FinalCallAgrees | judge/arena/engine.py:978-999 | The final call never contradicts a winner already called on the same attempts |
| ArenaFinal.SwappingPlayers | judge/arena/scoring.py:208-225 | Swapping the players swaps the decision of a poll |
| ArenaFinal.SwappingPlayersInTheEnd | judge/arena/scoring.py:228-232 | Swapping the players swaps the final call |
| ArenaFinal.ReasonMeans | judge/arena/scoring.py:212-220 | The recorded reason says what it seems to: every problem solved in full, out of reach, more points, or the same points earlier |
| ArenaPending.LeftOutIffNothingInFront | judge/arena/scoring.py:228-232 | Dropping pending attempts equals counting them as failed if and only if there is no penalty or none is before the best attempt on its problem |
| ArenaPending.FinalCallDiffersFromFailing | judge/arena/scoring.py:228-232 | A game the final call gives to one player, and failing the pending attempt would give to the other |
| JudgeQueue.Pick | judge/bridge/judge_list.py:35-56 | The first submission in priority and arrival order that a judge can take, stopping before rejudges when the judge is reserved |
| JudgeMatching.OfferedTheFirst | judge/bridge/judge_list.py:30-56 | A free judge offered work takes the first submission of those it suits by problem, language and request, of no higher tier, and not a rejudge while it is the last free one of several; with none, nothing changes |
| JudgeMatching.StartsSuitably | judge/bridge/judge_handler.py:179-181 | At every step, whatever starts was waiting or arriving and went to a judge with its problem and its language that is the one asked for, or enabled if none is; whatever runs on stays with its judge |
| JudgeMatching.RunsSuitably | judge/bridge/judge_handler.py:179-181 | Over any run, whatever is running was started that way at some step and has been with that judge since |
| JudgeMatching.NoneSuitsWaiting | judge/bridge/judge_list.py:30-80 | Over any run whose changes of flags meet the condition, no free enabled judge of the current tier has the problem and the language of a contest or default submission that waits and may be sent there |
| JudgeMatching.ArrivesAtTheLeastLoaded | judge/bridge/judge_list.py:173-199 | A new submission goes to the least loaded free judge that suits it, unless it is a rejudge and that is the last one of several; otherwise it waits at the end |
| JudgeMatching.LastOneTakesAnything | judge/bridge/judge_list.py:128-135 | When one judge of the tier is left, nothing that suits it waits, rejudges included, while it is free |
| JudgeMatching.TeamIs | judge/bridge/judge_list.py:93-135 | A step changes nothing of a judge but its work, and the problems or the flag the step is about |
| JudgeQueue.HandleFree | judge/bridge/judge_list.py:30-56 | Offering work to a judge changes neither the judges of the system nor the tier, only who works on what and what waits |
| JudgeRuns.HandleFreeKeepsInv | judge/bridge/judge_list.py:30-56 | A free judge offered work keeps every submission in one place |
| JudgeRuns.DoneKeepsInvIff | judge/bridge/judge_handler.py:598-599 | A report that a running submission is done keeps the books if and only if it comes from the judge working on it |
| JudgeRuns.StepKeepsInv | judge/bridge/judge_list.py:58-199 | With judges that report only their own submission done, every step keeps it: a submission is queued once or with one judge, a judge works exactly when one id maps to it, and the tier is the least of the enabled judges |
| JudgeRuns.NewcomerDoesNotRaise | judge/bridge/judge_list.py:65-73 | A new judge never raises the tier, so joining offers work to nobody else |
| JudgeFairness.SubmissionsAreTracked | judge/bridge/judge_list.py:118-199 | A step makes known only the submission that arrives and forgets only one that is freed, removed with its judge or aborted |
| JudgeFairness.HandleFreeServes | judge/bridge/judge_list.py:30-56 | A judge of the current tier that is offered work ends up working, or nothing of contest or default priority that waits is for it |
| JudgeFairness.FlagLeavesNoneIdleIff | judge/bridge/judge_list.py:107-113 | Enabling or disabling judges keeps nobody idle before urgent work if and only if it raises the tier or no judge it makes available could use any |
| JudgeFairness.StepLeavesNoneIdle | judge/bridge/judge_list.py:30-113 | No step leaves a free enabled judge of the current tier with contest or default work it can take, a change of flags exactly when it meets that condition |
| JudgeFairness.StepKeepsOrder | judge/bridge/judge_list.py:30-199 | Of two waiting submissions of the same kind and priority, no step takes the later one first |
| JudgeFairness.ArriveQueuesBehind | judge/bridge/judge_list.py:173-199 | A new submission waits behind one of its kind and priority that already waits |
| JudgeFairness.StartKeepsBooks | judge/bridge/judge_list.py:21-28 | The empty dispatcher satisfies both invariants |
| JudgeFairness.RunKeepsInv | judge/bridge/judge_list.py:58-199 | Over any run, every submission is in one place and the tier is right |
| JudgeFairness.RunLeavesNoneIdle | judge/bridge/judge_list.py:30-80 | Over any run whose changes of flags meet the condition, nobody is idle while urgent work it can take waits |
| JudgeFairness.NeverOvertaken | judge/bridge/judge_list.py:30-199 | From the arrival of a submission on, after changes of flags that meet the condition only, it is never dispatched before an earlier one of its kind and priority that is still waiting |
| JudgeFairness.EnablingLeavesIdle | judge/bridge/judge_list.py:107-113 | A change that fails it: a free judge enabled while no enabled one has a lower tier is left idle before work it can take |
| Dllist.List.Append | judge/bridge/judge_list.py:22-23 | Appending to the linked list adds one node at its end |
| Dllist.List.Insert | judge/bridge/judge_list.py:195-198 | Inserting before a node puts one new node there and keeps the others in order |
| Dllist.List.Remove | judge/bridge/judge_list.py:53-53 | Removing a node takes out that node only and keeps its own link to the next |
| JudgeLayout.LayoutInsert | judge/bridge/judge_list.py:195-198 | Inserting before a marker is appending to the queue of its priority |
| JudgeLayout.LayoutRemove | judge/bridge/judge_list.py:53-54 | Removing a node is taking one submission out of its queue |
| JudgeLayout.IndexInsert | judge/bridge/judge_list.py:195-198 | The markers and the index still point to their own nodes after an insertion, and the index has exactly the queued ids |
| JudgeLayout.IndexRemove | judge/bridge/judge_list.py:158-160 | The markers and the index still point to their own nodes after a removal |
| JudgeLayout.PickIs | judge/bridge/judge_list.py:35-56 | The first node the walk accepts is the pick of the queues |
| JudgeList.Judge.Submit | judge/bridge/judge_handler.py:230-234 | A judge sent a submission is working on that one |
| JudgeList.JudgeList.constructor | judge/bridge/judge_list.py:21-28 | Four markers in a row are four empty queues |
| JudgeList.JudgeList.Enqueue | judge/bridge/judge_list.py:194-199 | Queueing appends to the queue of the priority and indexes the new node |
| JudgeList.JudgeList.Unlink | judge/bridge/judge_list.py:158-160 | Unlinking a node removes that submission from its queue and from the index |
| JudgeList.JudgeList.ShouldReserveJudge | judge/bridge/judge_list.py:85-91 | A judge is reserved when the tier has several judges and at most one is free |
| JudgeList.JudgeList.FirstFor | judge/bridge/judge_list.py:35-56 | The walk of the heap list finds exactly the pick of the four queues, or stops where the reservation stops it |
| JudgeList.JudgeList.HandleFreeJudge | judge/bridge/judge_list.py:30-56 | The method on the heap is the step on the queues; it raises only when there is no tier |
| JudgeList.JudgeList.LeastTier | judge/bridge/judge_list.py:58-63 | The least tier of the enabled judges, if any |
| JudgeList.JudgeList.UpdateTier | judge/bridge/judge_list.py:58-73 | The tier is brought up to date and, when it goes up, each of its judges is offered work |
| JudgeList.JudgeList.Register | judge/bridge/judge_list.py:93-99 | A judge that joins is offered work after the tier is brought up to date |
| JudgeList.JudgeList.Remove | judge/bridge/judge_list.py:115-135 | A judge that leaves takes its submission along, and the only judge left is offered work |
| JudgeList.JudgeList.OnJudgeFree | judge/bridge/judge_list.py:140-145 | A judge that finished is free and offered work; an unknown submission changes nothing |
| JudgeList.JudgeList.OnSupportedProblems | judge/bridge/judge_handler.py:321-326 | A free judge with a new list of problems is offered work |
| JudgeList.JudgeList.UpdateDisableJudge | judge/bridge/judge_list.py:107-113 | Every judge of the name is flagged and the tier brought up to date |
| JudgeList.JudgeList.Abort | judge/bridge/judge_list.py:147-161 | A running submission is told to stop and nothing changes; a queued one is dropped; an unknown one is ignored |
| JudgeList.JudgeList.LeastLoaded | judge/bridge/judge_list.py:182-185 | The chosen judge has the least load of the available ones |
| JudgeList.JudgeList.Accept | judge/bridge/judge_list.py:166-199 | A known id changes nothing; a new one goes to an available judge of least load or to the end of its queue |
| Seeding.SeedingOrder | judge/arena/tournament.py:34-40 | The loop builds the order of the least power of two that is enough |
| Seeding.BracketSize | judge/arena/tournament.py:43-47 | The least power of two that holds the players |
| Seeding.RoundCount | judge/arena/tournament.py:50-55 | The number of rounds of that size |
| Seeding.EverySeedOnce | judge/arena/tournament.py:34-40 | Every seed is in the order exactly once |
| Seeding.FirstRoundPairs | judge/arena/tournament.py:34-40 | First opponents add up to one more than the size, and the better ones are the order of half the size |
| Seeding.BlockIsInterval | judge/arena/tournament.py:34-40 | Halving a place d times gives block b if and only if the place is one of the 2^d consecutive ones of that block |
| Seeding.TopSeedsApart | judge/arena/tournament.py:34-40 | Among 2^j equal blocks, a top seed is in the block of its own seat in the bracket of 2^j |
| Seeding.TopSeedsMeetLate | judge/arena/tournament.py:34-40 | Two of the top 2^j seeds are never in the same of 2^j blocks |
| Seeding.ByesGoToTheBest | judge/arena/tournament.py:382-404 | No first-round match is empty, and the byes go exactly to the best seeds, as many as places are missing |
| Bracket.FeederIsLink | judge/arena/tournament.py:355-380 | A slot is fed by a match exactly when the links of that match lead to it |
| BracketRuns.DecideKeepsGood | judge/arena/tournament.py:456-502 | Deciding a match with both players never fails, keeps the bracket consistent and decides nothing else |
| BracketRecords.DecideSends | judge/arena/engine.py:859-872 | Deciding for a slot records that slot, sends its player on and, from a semifinal, the other one to the match for third place; no other match changes |
| BracketRecords.CorrectionSends | judge/arena/tournament.py:531-550 | A correction records the other slot, a walkover staying one, and exchanges the players sent on |
| BracketRecords.CorrectedExactlyWhen | judge/arena/tournament.py:505-530 | It is accepted if and only if the match is decided for the other player and no game of a match it feeds was played |
| BracketRecords.PutsUnlessPlayed | judge/arena/tournament.py:456-470 | Placing a player is refused exactly when a game was played; otherwise that slot alone changes, and the match is ready or waits |
| BracketRecords.StartsOnce | judge/arena/tournament.py:424-436 | A tournament starts exactly once, as a draft that was built |
| BracketRuns.NeverStuck | judge/arena/tournament.py:489-502 | In a running tournament some undecided match has both its players |
| BracketFates.Origin | judge/arena/tournament.py:473-486 | A player in a slot is a participant, and it is the one slot of the round their seat leads to |
| BracketFates.RivalsDiffer | judge/arena/tournament.py:473-486 | Nobody meets themselves |
| BracketFates.CorrectionKeepsGood | judge/arena/tournament.py:505-550 | A correction that is accepted never fails, and keeps the bracket consistent if and only if the match it feeds is undecided or sends that slot nowhere; the stage is then the same, the final of a finished tournament included |
| BracketFates.WalkoverThenCorrection | judge/arena/tournament.py:505-530 | After a walkover in the next match the correction is accepted and breaks the bracket |
| BracketExample.FullStarts | judge/arena/tournament.py:337-436 | Built without byes, a started bracket is consistent, nothing is over and its whole first round can be played |
| BracketExample.WalkoverHappens | judge/arena/tournament.py:505-530 | Eight players can get there: two matches won, a walkover, and a correction that breaks the bracket |
| BracketLength.CountByes | judge/arena/tournament.py:384-404 | There are as many byes as places missing |
| BracketLength.LengthWhenEnded | judge/arena/tournament.py:489-502 | A tournament that ended had n - 1 matches between two players, and one more with a match for third place |
| BracketLength.NoMoreThanThat | judge/arena/tournament.py:489-502 | It can never have more, and with that many it has ended |
| BracketLength.PlayKeepsGood | judge/arena/engine.py:665-687 | A game starting in an open match keeps the bracket consistent and what is over the same |
| BracketLength.ExactLength | judge/arena/tournament.py:456-550 | Over any run of games, decisions and safe corrections, the tournament is finished exactly after that many decisions |
| BracketPlaces.NextRound | judge/arena/tournament.py:473-486 | A round is reached exactly by winning the one before |
| BracketPlaces.OneFate | judge/arena/tournament.py:456-502 | At any moment a participant is alive in one undecided match, or lost exactly one match of the main bracket, or is the champion |
| BracketPlaces.ReachedCount | judge/arena/tournament.py:382-404 | Round r of R was reached by 2^(R-r+1) participants, whatever the byes |
| BracketPlaces.OneChampion | judge/arena/tournament.py:489-502 | A tournament that ended has one champion |
| BracketStandings.WorthBounded | judge/arena/history.py:377-392 | No match gives a participant more depth than their fate |
| BracketStandings.WorthReached | judge/arena/history.py:377-392 | Some match gives them exactly that depth |
| BracketStandings.PlacesFollow | judge/arena/history.py:393-397 | The champion is 1st, the runner-up 2nd, who lost in round k in place 2^(R-k)+1, third-place players 3rd and 4th: one more than how many got further |
| BracketStandings.Standings | judge/arena/history.py:359-397 | The loops over the matches, in any order, give everybody that place |
| BracketStandings.PodiumAgrees | judge/arena/history.py:342-356 | The podium names exactly the participants in places 1 to 4 |
| BracketBuild.ByeStep | judge/arena/tournament.py:395-404 | Each step of the pass over the byes sends the lone player on and leaves the rest as it was |
| BracketBuild.BuiltIsGood | judge/arena/tournament.py:337-404 | After the last one the draft is a consistent bracket with only byes decided |
| BracketBuild.StartKeepsGood | judge/arena/tournament.py:424-436 | A draft that was built can be started, and nothing of it is over |
| Tournament.Tournament.PlacePlayer | judge/arena/tournament.py:456-470 | A played match refuses another player; otherwise the slot is filled and the match is ready exactly when both are there |
| Tournament.Tournament.AdvancePlayers | judge/arena/tournament.py:473-486 | The winner goes on and, from a semifinal, the loser to the match for third place |
| Tournament.Tournament.CheckDone | judge/arena/tournament.py:489-502 | A running tournament is finished when its last matches are decided |
| Tournament.Tournament.DecideMatch | judge/arena/engine.py:859-872 | The match is decided and its players move on, or nothing changes |
| Tournament.Tournament.CorrectWinner | judge/arena/tournament.py:505-550 | The correction, with its guards, or nothing changes |
| Tournament.Tournament.Start | judge/arena/tournament.py:424-436 | Only a draft with a bracket is started |
| Tournament.Tournament.Build | judge/arena/tournament.py:337-404 | Two participants or more give a consistent draft where nothing but the byes is decided, with a match for third place when asked for and there are four; fewer change nothing |
| SeriesRuns.StepKeepsInv | judge/arena/engine.py:413-1082 | Every action of polling or of an organizer keeps the invariant of a series |
| SeriesRuns.SeriesStart | judge/arena/engine.py:413-456 | A quick battle and a match of a bracket start with it |
| SeriesRuns.SeriesIsSound | judge/arena/engine.py:815-872 | Over any run: at most one game is played, none once over; the score is the games won; decided by games exactly with the wins it takes; never more finished games than the length; always a game to play while it is played |
| SeriesRecords.WonGameIsRecorded | judge/arena/engine.py:815-842 | A game given to a player is theirs and so is the one point; the series is decided exactly when that makes the wins it takes, and for that player |
| SeriesRecords.GivenExactlyWhen | judge/arena/engine.py:951-999 | When a game may be declared or finalized, exactly |
| SeriesRecords.ResultIsRecorded | judge/arena/engine.py:791-812 | Whatever gives the game to nobody makes of it what it says, and nothing else changes but a next game at the end |
| SeriesRecords.WalkoverIsRecorded | judge/arena/engine.py:1002-1022 | A walkover gives the series to that player, the score as it was and no game left open |
| SeriesRecords.CorrectionIsRecorded | judge/arena/tournament.py:505-550 | A correction gives the series to that player and keeps its games and its score |
| SeriesRecords.PlacedIs | judge/arena/tournament.py:456-470 | A player is placed in their own slot exactly while no game has started, and the match is ready with both |
| SeriesRecords.CancelledIs | judge/arena/engine.py:1025-1047 | A quick battle is dropped without a winner and with no game open or prepared |
| SeriesRecords.PreparedIs | judge/arena/engine.py:532-574 | Which games may be prepared, a tie or a void allowing one more, and that those before them are prepared too |
| SeriesRecords.NextIs | judge/arena/engine.py:493-529 | Calling and adding leave one game to play, a new one only if there was none |
| SeriesRecords.LengthIs | judge/arena/engine.py:1050-1066 | A length is odd, at most 9 and more than what is already won decides |
| SeriesRecords.DuelIs | judge/arena/engine.py:413-456 | How a quick battle starts, exactly |
| SeriesRuns.RecordsAreKept | judge/arena/engine.py:886-897 | Over any run, a game won or voided stays as recorded, and a series that is over stays over |
| SeriesRuns.TickTwice | judge/arena/engine.py:763-788 | Ticking again with the same decision changes nothing, nor does ticking a recorded game or a finished series |
| Battle.Battle.TickIt | judge/arena/engine.py:763-812 | A poll applies what the scoring says to a game being played, and nothing to another |
| Battle.Battle.FinishGame | judge/arena/engine.py:815-842 | A won game is scored and decides the series or prepares the next game |
| Battle.Battle.RecordTie | judge/arena/engine.py:845-856 | A tied game prepares the next unless the series is over |
| Battle.Battle.Decide | judge/arena/engine.py:859-872 | Deciding the match leaves no prepared game behind |
| Battle.Battle.CallPlayers | judge/arena/engine.py:493-511 | Only a ready match with both players is called, and it gets a game |
| Battle.Battle.EnsureNextGame | judge/arena/engine.py:524-529 | A series gets one prepared game if it has none |
| Battle.Battle.PrepareNumber | judge/arena/engine.py:532-574 | A game is prepared by its number, up to what the series can still need |
| Battle.Battle.AddOne | judge/arena/engine.py:576-585 | A game is added only to a series that is not over |
| Battle.Battle.StartNext | judge/arena/engine.py:614-687 | A prepared game starts only when no other is being played |
| Battle.Battle.VoidIt | judge/arena/engine.py:926-948 | A started game is voided, a tied one only while no other is played |
| Battle.Battle.DeclareIt | judge/arena/engine.py:951-975 | An organizer gives a game, a tied one only while no other is played |
| Battle.Battle.FinalizeIt | judge/arena/engine.py:978-999 | A game waiting for verdicts is finished or tied |
| Battle.Battle.WalkoverTo | judge/arena/engine.py:1002-1022 | Games still open or tied are voided and the series decided |
| Battle.Battle.CancelIt | judge/arena/engine.py:1025-1047 | A quick battle is dropped with its open and prepared games |
| Battle.Battle.SetBestOf | judge/arena/engine.py:1050-1066 | The length changes only if it would not already be decided |
| Battle.Battle.Quick | judge/arena/engine.py:413-456 | A quick battle starts with the games prepared for it |
| Bisection.Solve | judge/ratings.py:48-70 | For any function it ends with the specified root and never divides by zero |
| Bisection.RootInside | judge/ratings.py:48-70 | The result is inside the bounds |
| Bisection.RootMonotone | judge/ratings.py:48-70 | A higher target, or a function nowhere above, never gives a lower result, for any two functions |
| Bisection.RootNear | judge/ratings.py:48-70 | For an increasing function it is within 2 of the exact root, and at a bound the root is beyond |
| Bisection.RootOfLine | judge/ratings.py:60-70 | On a line the interpolation gives the very root |
| Variance.VarCache.GetVar | judge/ratings.py:73-77 | The shared cache always answers the recurrence and only grows as far as asked |
| Variance.SiteIsFine | judge/ratings.py:11-19 | The constants of the source are positive and a newcomer starts above the limit of the variances |
| Variance.VarianceShrinks | judge/ratings.py:73-77 | Variances fall at every contest and stay above the limit |
| Variance.RestBelow | judge/ratings.py:122-132 | What the history still weighs is less than the information the recurrence keeps |
| Variance.DivisorPositive | judge/ratings.py:132-133 | The divisor of the mean update is positive for any number of contests |
| Variance.WeighHistory | judge/ratings.py:118-132 | The weight loop computes those weights and that divisor for every history as long as the times ranked |
| Performances.EvalTanhs | judge/ratings.py:44-45 | The sum of the terms |
| Performances.TermAt | judge/ratings.py:44-45 | At z double deviations from its mean a term is worth its weight for each deviation times the tanh of z |
| Performances.TargetFalls | judge/ratings.py:91-99 | A worse rank never has a higher target |
| Performances.TargetOfTies | judge/ratings.py:91-99 | Among equals the target is nothing |
| Performances.TargetStep | judge/ratings.py:91-99 | Each rival moves the target by the inverse of their own deviation, up when behind and down by as much when ahead |
| Performances.DivideAndConquer | judge/ratings.py:101-116 | Every index strictly inside is written exactly once |
| Performances.FilledFalls | judge/ratings.py:101-116 | Bounds never cross: performances fall from one end to the other |
| Performances.FilledNear | judge/ratings.py:101-116 | Searching between neighbours keeps every performance as near its exact value as a search of the whole range |
| Performances.Perform | judge/ratings.py:89-116 | Every performance is written exactly once |
| Performances.PerformancesAreFair | judge/ratings.py:89-116 | For a sorted ranking performances never rise, stay in the range and are within 2 of the exact value |
| Ratings.RivalsRise | judge/ratings.py:86-99 | The function performances are searched in is strictly increasing |
| Ratings.MeanNeverFalls | judge/ratings.py:118-134 | A better performance, all else equal, never lowers a mean |
| Ratings.LevelHolds | judge/ratings.py:118-134 | Whatever the history, a performance at the old mean leaves the mean within 2 of it, a better one never puts it further below and a worse one never further above |
| Ratings.EqualsPerformAtLevel | judge/ratings.py:86-116 | Equals who tie all perform within 2 of their common mean |
| Ratings.Mean | judge/ratings.py:118-134 | The mean update balances the performance against the past and the old mean |
| Ratings.Recalculate | judge/ratings.py:80-134 | With fewer than two participants nothing changes; otherwise everybody gets that performance and mean |
| TieRanker.Rank | judge/ratings.py:24-41 | Everybody gets the average place of their group |
| TieRanker.RanksFollowPoints | judge/ratings.py:24-41 | Ranks compare as points do, the same exactly for the same points |
| TieRanker.RanksAddUp | judge/ratings.py:24-41 | Ranks add up to n(n+1)/2, whatever the ties |
| Deviation.GrowthIsIdleWeeks | judge/arena/rating.py:125-131 | Growing some weeks at once is a rating period without results for each, the cap included |
| Deviation.GrowthAdds | judge/arena/rating.py:125-131 | Growing m weeks and then n is growing m + n |
| DuelRanking.Drafts | judge/arena/rating.py:193-198 | The dictionary has, for every battle, its winners in order and the end of its last game |
| DuelRanking.Battles | judge/arena/rating.py:185-200 | Exactly the battles with a known end, in order of that and of id |
| DuelRanking.LastIsLatest | judge/arena/rating.py:197-198 | The end of a battle is the latest end known of its games |
| DuelRanking.WinnersAre | judge/arena/rating.py:194-196 | Its winners are those of its games, one each and in order |
| Ordering.OneOrder | judge/arena/rating.py:189-200 | Things in a strict order can be listed in only one way |
| DuelRanking.Query | judge/arena/rating.py:185-192 | The games that count are listed by battle and by number |
| DuelRanking.SameGamesSameBattles | judge/arena/rating.py:185-200 | Which games count determines the battles and their order: there is only one way to list and to order them |
| DuelRanking.BattlesReplay | judge/arena/rating.py:185-200 | Those battles are each there once and between two players |
| DuelRanking.Compute | judge/arena/rating.py:203-230 | The loop over the dictionaries is the replay |
| DuelRecords.ChangeMeans | judge/arena/rating.py:216-230 | The change of a player in a battle rates their form before it with one result a game, won exactly where that player won, against the rival as they were before it, and counts those games and wins |
| DuelRecords.NewcomerBefore | judge/arena/rating.py:209-211 | Before their first battle a player is a newcomer |
| DuelRecords.BeforeIsLast | judge/arena/rating.py:212-215 | Otherwise as their last battle left them, the deviation grown by the whole weeks since |
| DuelRecords.StoredIsLast | judge/arena/rating.py:222-225 | The rating kept is the one after the last battle |
| DuelRanking.NeverBackwards | judge/arena/rating.py:213-213 | Elapsed weeks are whole, rounded down and never negative |
| DuelRanking.TotalsAreSums | judge/arena/rating.py:222-229 | A player's games, wins and battles are the sums of their changes |
| DuelRanking.ChangesAre | judge/arena/rating.py:226-229 | There is a change exactly for each player of each battle |
| DuelRanking.GamesAreConserved | judge/arena/rating.py:203-230 | All wins add up to the games counted, all games to twice that |
| DuelTable.Sync | judge/arena/rating.py:295-309 | Deleting what is gone and writing what differs leaves a row that was the same untouched |
| DuelTable.SyncedIsClean | judge/arena/rating.py:238-260 | Afterwards nothing differs and doing it again changes nothing; nothing differed exactly when nothing would change |
| DuelTable.RecomputedIsUpToDate | judge/arena/rating.py:263-310 | Whatever was stored, recomputing leaves the replay within the tolerance, the check is 0 and a second recompute writes nothing |
| DuelTable.ColumnsAre | judge/arena/rating.py:233-246 | After a recompute every column holds its own field of the replay within the tolerance |
| DuelTable.Ranking.Check | judge/arena/rating.py:263-267 | How many stored rows are not what the replay gives |
| DuelTable.Ranking.Recompute | judge/arena/rating.py:292-310 | The stored tables become the replay and the count is what differed |
| EventDelivery.Socket.GotMessage | websocket/daemon.js:120-125 | A message of the filter is sent, and the cursor moves past any message |
| EventDelivery.Daemon.Post | websocket/daemon.js:62-80 | The queue keeps the newest messages and every follower gets the new one |
| EventDelivery.Daemon.Subscribe | websocket/daemon.js:98-117 | An empty filter changes nothing; another follows from then on and catches up |
| EventDelivery.Receiver.OnOpen | resources/event.js:135-154 | Whatever the queue and the cursor of the socket are by then, the two requests make it catch up on the channels from where the page is now |
| EventRuns.ReconnectCatchesUp | resources/event.js:135-154 | A page that lost its socket is sent, by the next one, exactly the messages of its channels that it is not past and that are still queued, in order |
| EventRuns.ReceiveOrders | resources/event.js:158-162 | A message received is newer than everything handed over before, and the page moves to it but not past its socket |
| EventRuns.CatchUpSends | websocket/daemon.js:55-60 | Catching up sends exactly what is newer than the cursor and in the filter, in order |
| EventRuns.StepKeepsInv | websocket/daemon.js:55-125 | Every post, request, delivery, loss and reconnection keeps account of every message the page wants |
| EventRuns.RunKeepsLost | websocket/daemon.js:62-80 | What overflowed before a subscription never reaches the page or its socket afterwards |
| EventRuns.DeliveredOrOverflowed | websocket/daemon.js:62-80 | Over any run of a page loaded at any moment, ids handed to it rise, only on its channels, and a message it went past was handed to it if and only if no subscription that looked for it came after more messages than the queue holds |
| EventRuns.QuietIsComplete | resources/event.js:135-162 | A page that is subscribed with nothing on its way has exactly what did not overflow |
| EventRuns.NothingMissed | resources/event.js:135-162 | If no subscription comes after more messages than the queue holds, nothing is missed |

## Left out

- Database access, row locks, transactions, caches, sockets, timers and HTTP: a locked method or an atomic function is
  one step, and a query is a filter of a sequence or a set. An exception inside a transaction undoes the step.
- Floating-point rounding: points are whole thousandths, ratings are reals; `round` to three places of a partial score
  is kept, to the even neighbour on a half.
- The rounding of the rating shown (`judge/ratings.py:136-138`) and the Glicko-2 inner solver of `rate`, which is a
  parameter of the replay except with no results.
- `decide` in the calls: changes of `ends_at` by an extension, rejudging of judged submissions, the limit of unjudged
  submissions of a user and organizer actions; the first two can undo a call.
- In the dispatcher: failed dispatches (the `except` branches), disconnecting a judge of the same name in `register`,
  and judges that change tier. Submission ids are not zero, which a judge would take for not working.
- In the bracket: `replace_player`, walkovers in a draft or before the opponent is known, edits in the admin, and the
  problems organizers chose for a draft. The order the final table is listed in and its counts of battles and games.
- In the series: the length a round pushes onto its matches, `replace_player`, more time for a game, the problems,
  languages and presence that may forbid a start (`allowed` in `Series.Start`), byes, and whether the next match of a
  bracket refuses the winner.
- SeriesRuns.TickTwice: about one decision given twice; that later polls give the same decision is
  `ArenaCalls.CallIsStable`.
- Ratings.Recalculate: the exact roots are given to the accuracy lemma, not proved to exist, since `tanh` is only known
  to increase.
- JudgeRuns.StepKeepsInv: a judge is trusted to report done only the submission it was sent. The bridge passes on the
  id it gets without looking, and `JudgeRuns.DoneKeepsInvIff` says that any other report breaks the books.
- DuelRanking.Query: that two games of a battle never have the same number is a constraint of the database, which the
  model takes as given.
- DuelRanking.Compute: which battles count (`counts_q`) is the filter that gives its rows.
- Event delivery: long polling, heartbeats, a restart of the daemon and several sockets of one page at once; a queue
  size of 0 means the default in the source, so it is at least 1.
- Permissions, serializers, pages, mail and the formats of contests: mostly guards and queries, with easier properties.
