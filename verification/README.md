# Brackets, placements, and live results of a dance-game tournament

A tournament manager plans its brackets before anybody plays, lets a room of
old cabinets report what is played, and reads the final order back off the
advancement rules. This project models the parts of it that decide something,
and proves what they promise:

- **Bracket plans** (`BracketPlan`, `Seating`, `Pairing`, `SingleElimination`,
  `SingleEliminationRoutes`, `DoubleElimination`, `DoubleEliminationRoutes`). The
  generators are the loops of the program, writing into a mutable builder. Their
  result is tied to a description of the plan, and the description is shown to be a
  bijection between the places that travel and the slots they fill. The two `Routes`
  files speak of the finished plan alone: what it lists where, where a run from each
  first-round match can be after any number of routes, and in which order the slots
  of a match are filled.
- **Final placements** (`AdvancementGraph`, `DivisionPlacements`, `PlacingNodes`,
  `DivisionOrder`). The resolver builds a graph of competitions, measures how far
  each is from the end by a memoised walk, picks for everybody the stop closest to
  the end, and counts the ties out into bands. The result is competition ranking.
  `PlacingNodes` says in terms of the input which competitions place people, where
  their rules lead and whose run ended where, and `DivisionOrder` exactly how far the
  result is independent of the order its input arrives in.
- **From plan to placements** (`PlayedNetwork`, `PlanDivision`, `PlanStandings`,
  `BracketPlay`, `SingleEliminationNetwork`, `SingleEliminationOutcome`,
  `DoubleEliminationNetwork`, `DoubleEliminationOutcome`). The first four are about
  any network of matches: played to the end in any way, everybody takes one way
  through it; stored as a division under any numbers, it is measured and read by
  the resolver. The others apply this to both generated plans. A full single
  elimination of any even match size gives the q-th of a match d rounds before the
  last the places (q - 1) * 2^d + 1 to q * 2^d, and a full double elimination with
  matches of two 1, 2, 3, 4, 5-6, 7-8 and so on, for every number of rounds.
- **The room and the reader** (`SyncStart`, `BridgeLobby`, `LegacyBridgeLobby`,
  `BridgeInvariants`, `BridgeReport`, `BridgeRoom`, `LobbyStateInterpreter`,
  `InterpreterTrace`, `InterpreterReading`, `BridgeCompletions`, `BridgeResult`).
  `BridgeLobby` says what each datagram, timer and sweep
  makes of the lobby as a value, `LegacyBridgeLobby` is the object that updates its
  cabinets in place and is shown to do just that. A run is any sequence of such
  steps from the empty lobby. Every player of the room carries the numbers of the
  last score datagram of theirs that counted, `BridgeRoom` says who is shown, when,
  and when the timer is due, and an interpreter that reads every snapshot of a run
  records each finished song once, with the results those datagrams reported.
- **Points, seeds, and the browser** (`PlacementPoints`, `SeedOrder`,
  `CompletedBracket`, `RealtimeEvents`, `RealtimeMessages`, `RealtimeProjection`,
  `RealtimeState`, `RealtimeReplay`, `RealtimePosts`, `RealtimeIdentity`). Points
  with ties, the standard seeding order and the bracket built on it, and the
  snapshot a browser gets when it connects: it agrees with the log of all events, in
  contents and in order, and holds the last message about every match, lobby and
  player.

`Wrappers`, `Sequences` and `Sorting` hold options, results, counting, filtering
and a stable sort.

`dafny verify dfyconfig.toml` checks everything.

## Where the code and its text part

- `SingleElimination` accepts every match size from two up. Its pairing table has
  enough players for every slot exactly under the condition `Pairings.Pairable`
  (two first-round matches or fewer; or 2, 3, 4, 7 or 8 players per match; or four
  first-round matches and a size of 5 or an even number of passing players, half
  the size rounded up). Otherwise it reads a missing table entry and throws, which
  `Generate` reports as `MissingPairing`. With six players per match and four
  matches, for instance, a next match is one short.
- For odd match sizes the table deals the middle place of both semi-finals, but
  the last match has room for one of them. `MiddlePlaceDropped` shows who loses it,
  and `NobodyDroppedIffEven` that exactly even sizes lose nobody.
- The plan builder's text calls an entrant without a seat a bye. The generators
  always make the first round large enough, so everybody is seated and the byes are
  the empty slots (`EverybodySeatedOnce`).
- A rule may close a loop. The walk still ends there and still answers 0 exactly
  where nothing leaves, but no longest walk exists (`NoLongestThroughLoop`), so no
  depth could be right, and what the walk answers depends on where it starts: two
  matches that feed each other get 2 and 1, or 1 and 2 (`LoopsDependOnOrder`).
- The comparison of two stops falls back on the number of the competition, but
  matches and pools are numbered separately. If a match and a pool of one number
  tie, the one read first is taken for the exit (`KindByReadingOrder`).
  `PlacementsIgnoreOrder` shows that nothing else of a row depends on the order of
  reading, and `ExitKindDependsOnTie` that the kind does exactly in that case.
- Above two players per match a single elimination ends in two finals, and nothing
  leaves either. The resolver finds two endings and lets place q of one final share
  its band with place q of the other, so the champion shares the places 1 to 2 with
  the best of the lower half
  (`SingleEliminationOutcomes.FinalStandings`, `EndingsOfRounds`).
- "Each finished song is recorded once" fails for one family: a song finished
  again with the same scores while it is still the selected one.
  `ReplayNeverAnnounced` shows such runs, and `CompletedOnce` that a completion is
  announced in every other case.
- The snapshot keeps one message for every match, lobby and player by joining their
  numbers and names into one text. The texts of two different players, or of a lobby
  and a player, can be the same: exactly the lobbies that read as a player, with
  ":player:" inside the name or ":player" at its end, have messages that replace
  messages about a player of a shorter lobby (`RealtimeIdentities.LobbyTellsApart`).
  `IdentitiesTellApart` shows that there is no confusion without such lobbies, and
  `SortsTellApart` that there is none among matches, among lobbies, and among the
  players of one lobby, whatever the names.

## Model

| member | source | states |
|---|---|---|
| BracketPlans.NextPow2 | packages/brackets/src/bracket-plan.ts:101-109 | the result is a power of two, at or above the value, and no smaller power of two is |
| BracketPlans.BracketPlanBuilder.AddRound | packages/brackets/src/bracket-plan-builder.ts:28-38 | appends exactly the described matches and answers their identifiers in order |
| BracketPlans.BracketPlanBuilder.AddRoute | packages/brackets/src/bracket-plan-builder.ts:41-48 | appends one route, counting placement and slot from one |
| BracketPlans.BracketPlanBuilder.SeatFirstWave | packages/brackets/src/bracket-plan-builder.ts:55-63 | the seats of the entrants in seeding order, as many as the round has room for |
| Seatings.EverybodySeatedOnce | packages/brackets/src/bracket-plan-builder.ts:55-63 | with room for everybody each entrant is seated once, no two share a slot, and the free slots are those past the last entrant |
| DoubleEliminations.Generate | packages/brackets/src/double-elimination.ts:15-30 | fails exactly for sizes other than 2, 4, 8; otherwise the smallest first round of at least two matches that holds everybody, the byes, the seats, and the whole list of matches and routes |
| DoubleEliminations.BuildStructure | packages/brackets/src/double-elimination.ts:32-91 | the loops write the matches of `Nodes` and the routes of `PlanRoutes`, one per travelling place, and every index stays in bounds |
| DoubleEliminations.OriginOfDest | packages/brackets/src/double-elimination.ts:57-88 | following a place to its slot and back is the identity, and the slot exists |
| DoubleEliminations.DestOfOrigin | packages/brackets/src/double-elimination.ts:57-88 | following a slot to the place it is filled from and back is the identity, and the place exists |
| DoubleEliminations.NodeIdInRange | packages/brackets/src/double-elimination.ts:36-55 | every match of the winners rounds, losers rounds and grand final is in the plan, at its identifier |
| DoubleEliminations.NodeAt | packages/brackets/src/double-elimination.ts:36-55 | and the plan holds no other match |
| DoubleEliminations.SlotFedOnce | packages/brackets/src/double-elimination.ts:57-88 | every slot outside winners round 1 is the target of exactly one route, every slot in it of none |
| DoubleEliminations.PlaceSentOnce | packages/brackets/src/double-elimination.ts:57-88 | every place of a winners match and every top-half place of a losers match is the source of exactly one route; the bottom half of a losers match and the grand final are the source of none |
| DoubleEliminations.RouteEnds | packages/brackets/src/double-elimination.ts:57-88 | every route joins a place and a slot of matches of the plan, the ones the routing pairs |
| DoubleEliminations.LossesAlongRun | packages/brackets/src/double-elimination.ts:57-88 | along every chain of routes from the first winners round the number of bottom-half finishes is what the slot reached says: none on the winners side and in the first half of the grand final, one on the losers side and in the other half |
| DoubleEliminations.MatchCount | packages/brackets/src/double-elimination.ts:36-55 | a bracket of n first-round matches has 4n - 2 matches |
| DoubleEliminations.AddWinnersRounds | packages/brackets/src/double-elimination.ts:36-41 | halving rounds, numbered in order, down to one match |
| DoubleEliminations.AddLosersRounds | packages/brackets/src/double-elimination.ts:43-53 | merge and drop rounds in turn, each pair half the size of the one before |
| DoubleEliminations.WireWinners | packages/brackets/src/double-elimination.ts:57-73 | exactly the routes out of the winners matches, in order |
| DoubleEliminations.WireLosers | packages/brackets/src/double-elimination.ts:75-88 | exactly the routes out of the losers matches, in order |
| DoubleEliminationRoutes.EveryMatchStands | packages/brackets/src/double-elimination.ts:36-55 | the plan lists 4n - 2 matches: winners rounds of n, n/2, ..., 1, losers rounds of n/2, n/2, n/4, n/4, ..., 1, 1, and the grand final, each match at the position its descriptor says |
| DoubleEliminationRoutes.RunLandsOn | packages/brackets/src/double-elimination.ts:57-88 | a run of routes from first-round match x is, unbeaten, in match x / 2^k of winners round k after k routes; after its loss in match x / 2^(i / 2 + 1) of losers round i, where a loss in the first round led into losers round 0, one in winners round k into losers round 2k - 1, and every further route into the next |
| DoubleEliminationRoutes.SlotsInOrder | packages/brackets/src/double-elimination.ts:57-88 | of two routes into one match the lower slot belongs to the earlier match they leave, in a drop round to the losers side, and routes out of one match keep the order of their places |
| DoubleEliminationRoutes.SeatsAndByes | packages/brackets/src/double-elimination.ts:21-29 | everybody has a seat, seats and byes fill the first round, and half as many first-round matches would be too few unless there are only two |
| DoubleEliminationNetworks.RoutesApproach | packages/brackets/src/double-elimination.ts:57-88 | every route leads to a later match, strictly closer to the end |
| DoubleEliminationOutcomes.DepthsOfDoubleElimination | packages/brackets/src/double-elimination.ts:43-88 | wherever the bracket is part of a division, whatever surrounds it, with L losers rounds the longest way to the end is 0 from the grand final, L - i from losers round i, L - 2k + 2 from winners round k, L + 1 from the first |
| DoubleEliminationOutcomes.MeasuredDepth | apps/api/src/tournament/stats/division-placements.resolver.ts:184-212 | so the depth the resolver measures for a match of the bracket, in any such division, is that closed form |
| Pairings.LeastRematchIndexes | packages/brackets/src/single-elimination.ts:90-114 | the table of the loops with their moving bucket and counter is the table of the specification |
| Pairings.DirectMatchIndexes | packages/brackets/src/single-elimination.ts:116-137 | likewise for matches of two |
| Pairings.GetIndexes | packages/brackets/src/single-elimination.ts:86-88 | the table for either size |
| Pairings.BucketLength | packages/brackets/src/single-elimination.ts:90-114 | how many players each next match gets, for any size |
| Pairings.AllBalancedIffPairable | packages/brackets/src/single-elimination.ts:90-114 | every next match of every round gets enough players exactly for at most two first-round matches, for 2, 3, 4, 7 and 8 players per match, and for four first-round matches when the stated parity holds |
| Pairings.PairableRound | packages/brackets/src/single-elimination.ts:90-114 | then every round deals every next match enough players, and an even size exactly its size |
| Pairings.SmallGroups | packages/brackets/src/single-elimination.ts:90-114 | for 2, 3, 4, 7 and 8 players per match each next match gets twice the passing players |
| Pairings.FourMatches | packages/brackets/src/single-elimination.ts:90-114 | for four matches, balance holds exactly under the stated parity |
| Pairings.EightMatches | packages/brackets/src/single-elimination.ts:90-114 | for eight matches every other size leaves a next match short |
| Pairings.RematchParity | packages/brackets/src/single-elimination.ts:90-114 | two finishers of one match who meet again in the next round have places of equal parity, so first and second never do |
| Pairings.NoRematchOfFour | packages/brackets/src/single-elimination.ts:90-114 | with four players per match, everybody in a next match comes from a different match |
| SingleEliminations.Generate | packages/brackets/src/single-elimination.ts:20-34 | fails for sizes below two, and otherwise exactly when a pairing table runs short, naming the first round that does; else the smallest first round that holds everybody, the byes, the seats, the matches and the routes |
| SingleEliminations.BuildStructure | packages/brackets/src/single-elimination.ts:36-84 | the loops write the routes of the specification, unless some round is short of players |
| SingleEliminations.AllSlotsFillable | packages/brackets/src/single-elimination.ts:45-57 | every slot of every later round has an entry in the pairing table exactly when all rounds are balanced |
| SingleEliminations.SlotFedOnce | packages/brackets/src/single-elimination.ts:45-67 | every slot of every later match is the target of exactly one route |
| SingleEliminations.FirstRoundNeverFed | packages/brackets/src/single-elimination.ts:45-67 | no route leads into the first round |
| SingleEliminations.FillersDistinct | packages/brackets/src/single-elimination.ts:50-57 | no place fills two slots |
| SingleEliminations.PlaceSentOnce | packages/brackets/src/single-elimination.ts:50-57 | for even sizes each top-half place of a match before the last is the source of exactly one route, each bottom-half place of none |
| SingleEliminations.SentIffRoom | packages/brackets/src/single-elimination.ts:50-57 | for any size a dealt place is sent on exactly when its position in the next match is within the match size |
| SingleEliminations.FinalsFedOnce | packages/brackets/src/single-elimination.ts:71-81 | above two players per match the route out of place q of the last match, the only one, is the only one into slot q of the first final for the top half, and into slot q - p / 2 of the second for the others |
| SingleEliminations.MiddlePlaceDropped | packages/brackets/src/single-elimination.ts:45-57 | for odd sizes the middle place of one semi-final goes on and that of the other is lost |
| SingleEliminations.NobodyDroppedIffEven | packages/brackets/src/single-elimination.ts:45-57 | nobody who should pass is lost exactly when the size is even |
| SingleEliminations.BuildRounds | packages/brackets/src/single-elimination.ts:36-67 | the rounds and the routes between them, up to the first that cannot be dealt |
| SingleEliminations.FirstRoundMatchCount | packages/brackets/src/single-elimination.ts:27-28 | the smallest power of two that holds everybody |
| SingleEliminationRoutes.EveryMatchStands | packages/brackets/src/single-elimination.ts:36-81 | the plan lists rounds of n, n/2, ..., 1 matches, and above two players per match two finals, each match at the position its descriptor says |
| SingleEliminationRoutes.EveryRouteGoes | packages/brackets/src/single-elimination.ts:50-57 | every route leads a top-half place to the next round, first, third, ... places to the match of their group of neighbours counted from the front, second, fourth, ... from the back; or out of the last match to its final |
| SingleEliminationRoutes.RunLandsOn | packages/brackets/src/single-elimination.ts:45-67 | with up to four players per match, a run from first-round match x is after t routes in match x / 2^t of round t, mirrored if it finished an odd number of times in an even place |
| SingleEliminationRoutes.SlotsInOrder | packages/brackets/src/single-elimination.ts:51-55 | of two routes into one match the lower slot goes to the better place, or of one place to the earlier match |
| SingleEliminationRoutes.SeatsAndByes | packages/brackets/src/single-elimination.ts:27-33 | everybody has a seat, seats and byes fill the first round, and half as many first-round matches would be too few |
| AdvancementGraphs.Walk | apps/api/src/tournament/stats/division-placements.resolver.ts:187-205 | for every graph the walk ends; what is measured stays; depth 0 exactly where nothing leaves; off loops, the length of a longest walk to a node nothing leaves |
| AdvancementGraphs.MeasuredIsRight | apps/api/src/tournament/stats/division-placements.resolver.ts:187-205 | the functional form of the walk, which `Walk` is equal to, keeps all of this at every call |
| AdvancementGraphs.MeasureDepths | apps/api/src/tournament/stats/division-placements.resolver.ts:184-212 | the same of every node |
| AdvancementGraphs.LoopsDependOnOrder | apps/api/src/tournament/stats/division-placements.resolver.ts:187-212 | two nodes that feed each other are measured 2 and 1 from one end, 1 and 2 from the other |
| AdvancementGraphs.NoLongestThroughLoop | apps/api/src/tournament/stats/division-placements.resolver.ts:175-183 | where a loop can be reached no walk is longest, so nothing more can be promised there |
| AdvancementGraphs.LongestUnique | apps/api/src/tournament/stats/division-placements.resolver.ts:175-183 | the longest length is one number |
| AdvancementGraphs.RankIsDepth | apps/api/src/tournament/stats/division-placements.resolver.ts:184-212 | a numbering that drops along every rule and drops by one along some rule is the depth |
| DivisionPlacements.IndexPools | apps/api/src/tournament/stats/division-placements.resolver.ts:106-115 | the pool of each match and the matches of each pool |
| DivisionPlacements.FindBracketPools | apps/api/src/tournament/stats/division-placements.resolver.ts:159-173 | exactly the pools with a rule between two of their own matches |
| DivisionPlacements.BuildGraph | apps/api/src/tournament/stats/division-placements.resolver.ts:105-156 | one node per competition that places people, as `PlacingNodes.WhoPlaces` tells, one step exactly where some rule leads from one node to another, depths as above |
| DivisionPlacements.CollectStops | apps/api/src/tournament/stats/division-placements.resolver.ts:222-232 | every stop of every entrant with its distance and place, a held entrant without a place behind everybody placed |
| DivisionPlacements.ClosestStop | apps/api/src/tournament/stats/division-placements.resolver.ts:241-241 | the fold keeps the stop of the specification |
| DivisionPlacements.ClosestIsLeast | apps/api/src/tournament/stats/division-placements.resolver.ts:241-283 | which is a least one by distance, place and identifier |
| DivisionPlacements.CollectExits | apps/api/src/tournament/stats/division-placements.resolver.ts:221-246 | one exit for every entrant some node held, none for the others |
| DivisionPlacements.ExitsContents | apps/api/src/tournament/stats/division-placements.resolver.ts:234-246 | an exit is the closest stop of one of the entrants |
| DivisionPlacements.SortSorts | apps/api/src/tournament/stats/division-placements.resolver.ts:293-299 | the ordering is a permutation, in order |
| DivisionPlacements.BandRows | apps/api/src/tournament/stats/division-placements.resolver.ts:292-335 | the rows are the sorted exits, each with one more than the number strictly ahead and the number not behind |
| DivisionPlacements.BandsTile | apps/api/src/tournament/stats/division-placements.resolver.ts:304-332 | the bands tile the places 1 to n without gap or overlap |
| DivisionPlacements.RowRanksEntrants | apps/api/src/tournament/stats/division-placements.resolver.ts:285-335 | in terms of entrants alone: a row shows one more than the entrants who got strictly further, through those who got at least as far |
| DivisionPlacements.ResolveDivisionPlacements | apps/api/src/tournament/stats/division-placements.resolver.ts:82-93 | the whole result; complete exactly when there is a match and all are decided; the endings are the nodes nothing leaves |
| DivisionPlacements.CountEndings | apps/api/src/tournament/stats/division-placements.resolver.ts:90-90 | counts the nodes nothing leaves |
| PlacingNodes.WhoPlaces | apps/api/src/tournament/stats/division-placements.resolver.ts:117-173 | a match without a pool places people; a match of a pool exactly when some rule joins two matches of that pool; a pool exactly when none joins two of its own |
| PlacingNodes.StepsAre | apps/api/src/tournament/stats/division-placements.resolver.ts:124-156 | a step leads from one node to another exactly when some rule does, a match that places nobody standing for its pool and a pool that places nobody for every match listed in it |
| PlacingNodes.WholeBracketAhead | apps/api/src/tournament/stats/division-placements.resolver.ts:126-129 | a rule into a pool that places nobody itself puts its source further from the end than every match of it |
| PlacingNodes.StopsAre | apps/api/src/tournament/stats/division-placements.resolver.ts:222-232 | the stops of an entrant are the nodes that held them, with the last place given to them there, or one past the field |
| PlacingNodes.ClosestIs | apps/api/src/tournament/stats/division-placements.resolver.ts:241-283 | the exit is a stop with no other closer to the end, none as close and better placed, and none alike with a smaller number |
| PlacingNodes.RowsInOrder | apps/api/src/tournament/stats/division-placements.resolver.ts:293-299 | the rows come by distance of the exits, then by place, then by name and number of the entrants |
| PlacingNodes.ExitsPlace | apps/api/src/tournament/stats/division-placements.resolver.ts:117-173 | nobody exits at a match of a pool no rule joins two matches of, nor at a pool some rule does |
| PlacingNodes.PoolRanks | apps/api/src/tournament/stats/division-placements.resolver.ts:82-93 | a division of one pool and its matches, no rule joining two of them, is ranked by the places of the pool alone, with the pool for every exit and one ending |
| DivisionOrders.PlacementsIgnoreOrder | apps/api/src/tournament/stats/division-placements.resolver.ts:82-93 | without loops, an entrant's row is the same under every order of competitions, rules and entrants, but for the kind of its exit; and wholly the same unless a match and a pool of one number tie |
| DivisionOrders.ExitKindDependsOnTie | apps/api/src/tournament/stats/division-placements.resolver.ts:277-283 | without loops, some order of reading gives an entrant an exit of the other kind exactly when a match and a pool of one number hold them at the same least distance in the same place |
| DivisionOrders.NumbersDecide | apps/api/src/tournament/stats/division-placements.resolver.ts:277-283 | which cannot be when no match has the number of a pool |
| DivisionOrders.KindByReadingOrder | apps/api/src/tournament/stats/division-placements.resolver.ts:234-283 | in every reading of a division of one match and one pool of that number, both won by one entrant, the one read first is the exit |
| DivisionOrders.SameDepths | apps/api/src/tournament/stats/division-placements.resolver.ts:184-212 | nor does the depth of a node no loop can be reached from |
| PlayedNetworks.OneWay | packages/brackets/src/single-elimination.ts:45-67 | in any network played to its end, two seats of one entrant lie on one way: the earlier one leads on to the later one |
| PlayedNetworks.SeatsDistinct | packages/brackets/src/single-elimination.ts:45-67 | nobody sits twice in a match, or in two matches equally far from the end, however the matches go |
| PlayedNetworks.EntrantEnds | packages/brackets/src/single-elimination.ts:45-67 | everybody leaves in exactly one finishing place that goes nowhere |
| PlayedNetworks.EndIsClosest | apps/api/src/tournament/stats/division-placements.resolver.ts:234-246 | which lies strictly closer to the end than every other seat they had |
| PlanDivisions.StepsAreRoutes | apps/api/src/tournament/stats/division-placements.resolver.ts:121-156 | in any division that holds the bracket, out of its matches lead its routes and nothing else |
| PlanDivisions.MatchDepth | apps/api/src/tournament/stats/division-placements.resolver.ts:184-212 | and a match is as far from the end as its routes make it, the only depth the resolver may measure |
| PlanStandings.AheadOfBand | apps/api/src/tournament/stats/division-placements.resolver.ts:292-335 | as many entrants got ahead of a band as finishing places end a run ahead of it, counted over the matches |
| PlanStandings.RowIsEnd | apps/api/src/tournament/stats/division-placements.resolver.ts:221-335 | every row is of an entrant whose run ended where the row says, and counts the finishing places that end a run further on |
| PlanStandings.RowOfPlace | apps/api/src/tournament/stats/division-placements.resolver.ts:221-335 | whoever finished a match in a place that goes nowhere has the row of that match and place |
| PlanStandings.EverybodyHasARow | apps/api/src/tournament/stats/division-placements.resolver.ts:221-246 | every entrant has a row, exactly one, and there are no others |
| PlanStandings.Endings | apps/api/src/tournament/stats/division-placements.resolver.ts:90-90 | the endings are the matches at distance 0 |
| BracketPlays.EveryOutcomeIsPlayed | packages/brackets/src/single-elimination.ts:36-67 | whatever the results of the single matches of a network, they play it out, so the theorems are about every outcome |
| BracketPlays.EveryBracketIsStored | apps/api/src/tournament/stats/division-placements.resolver.ts:82-93 | and the played bracket can be stored as such a division under any different numbers |
| SingleEliminationOutcomes.FinalStandings | apps/api/src/tournament/stats/division-placements.resolver.ts:82-93 | a full single elimination of an even match size, stored under any numbers and played in any way: the q-th of a match d rounds before the last has the places (q - 1) * 2^d + 1 to q * 2^d, the q-th of a final 2q - 1 to 2q, and everybody went out in one of these ways |
| SingleEliminationOutcomes.EndingsOfRounds | apps/api/src/tournament/stats/division-placements.resolver.ts:90-90 | one ending with two players per match, two endings above |
| SingleEliminationOutcomes.GeneratedStandings | packages/brackets/src/single-elimination.ts:20-34 | from generator to rows in one statement: the plan `Generate` makes for a full bracket, stored and played, gives everybody one row, those places, and those endings |
| SingleEliminationOutcomes.RoundsNest | packages/brackets/src/single-elimination.ts:45-67 | whoever sits in a round sat in every round before |
| SingleEliminationOutcomes.LosersLeave | packages/brackets/src/single-elimination.ts:45-67 | of the players of a match exactly the top half is in the next round |
| SingleEliminationOutcomes.FinalsSeatHalves | packages/brackets/src/single-elimination.ts:71-81 | in a played bracket above two players per match, slot s of the first final seats who finished the last match in place s, slot s of the second who finished it in place p / 2 + s |
| DoubleEliminationOutcomes.FinalStandings | apps/api/src/tournament/stats/division-placements.resolver.ts:82-93 | a full double elimination: the q-th of the grand final has place q alone; the q-th of a losers round of s matches shares the places a * s + 1 to (a + 1) * s, a being q - 1 + h after a drop round and q - 1 + 2h after a merge round, for matches of 2h |
| DoubleEliminationOutcomes.OneEnding | apps/api/src/tournament/stats/division-placements.resolver.ts:90-90 | the grand final is the one ending |
| DoubleEliminationOutcomes.GeneratedStandings | packages/brackets/src/double-elimination.ts:15-30 | from generator to rows in one statement: everybody has one row with those places, and there is one ending |
| LobbyStateInterpreters.LobbyStateInterpreter.InterpretSnapshot | packages/syncstart-protocol/src/protocol/lobby-state-interpreter.ts:22-59 | the four memories and the announced events after one snapshot are those of the specification |
| LobbyStateInterpreters.OnlyReadyChanges | packages/syncstart-protocol/src/protocol/lobby-state-interpreter.ts:34-47 | introducing players and updating readiness touches no other memory |
| InterpreterReadings.RemembersWhatWasShown | packages/syncstart-protocol/src/protocol/lobby-state-interpreter.ts:17-59 | after any snapshots the interpreter remembers exactly the players they listed, each on the screen it was last on, and as ready as it was when last at play |
| InterpreterReadings.SnapshotAnnounces | packages/syncstart-protocol/src/protocol/lobby-state-interpreter.ts:22-59 | one more snapshot announces in this order: its song if it is not the last selected; readiness of players it lists; one update with everybody at play; and, when somebody last seen at play is on an evaluation screen, one completion with the results of all players listed, unless the last result of this selection was the same |
| InterpreterReadings.SignaturesAgree | packages/syncstart-protocol/src/protocol/lobby-state-interpreter.ts:50-52 | two results are taken for the same exactly when file and, side by side, the results agree in order |
| InterpreterTraces.AnnouncementsAlternate | packages/syncstart-protocol/src/protocol/lobby-state-interpreter.ts:22-59 | over any snapshots: the readiness announced for each player strictly alternates from not ready, consecutive selected songs differ, consecutive completions within one selection differ |
| InterpreterTraces.ReadingIsFaithful | packages/syncstart-protocol/src/protocol/lobby-state-interpreter.ts:17-20 | the memories are at all times what the announcements so far say: last selected song, last completion, last readiness of exactly the announced players |
| LegacyBridgeLobbies.LegacyBridgeLobby.MachineFor | tools/legacy-syncstart-bridge/src/domain/bridge-lobby.ts:234-262 | a known cabinet is stamped, a new one joins, the fifth is refused and changes nothing |
| LegacyBridgeLobbies.LegacyBridgeLobby.MoveTo | tools/legacy-syncstart-bridge/src/domain/bridge-lobby.ts:281-298 | the cabinet moves; the lobby moves when it had no song, had finished it, or nobody plays it any more |
| LegacyBridgeLobbies.LegacyBridgeLobby.BeginSession | tools/legacy-syncstart-bridge/src/domain/bridge-lobby.ts:307-316 | every cabinet is cleared, those on other songs are taken off them, the timer is disarmed |
| LegacyBridgeLobbies.LegacyBridgeLobby.Upsert | tools/legacy-syncstart-bridge/src/domain/bridge-lobby.ts:337-356 | the player takes name, score, failure and judgments of the message; readiness and a final payload stay |
| LegacyBridgeLobbies.LegacyBridgeLobby.ScheduleFlush | tools/legacy-syncstart-bridge/src/domain/bridge-lobby.ts:358-369 | one deadline, near when everybody in session has finished, far otherwise |
| LegacyBridgeLobbies.LegacyBridgeLobby.Flush | tools/legacy-syncstart-bridge/src/domain/bridge-lobby.ts:371-402 | unfinished players leave; with anybody left the song is completed and published at play and then at evaluation |
| LegacyBridgeLobbies.LegacyBridgeLobby.EvictIdleMachines | tools/legacy-syncstart-bridge/src/domain/bridge-lobby.ts:420-438 | the quiet cabinets leave, except finished ones a pending completion waits for |
| LegacyBridgeLobbies.LegacyBridgeLobby.DiscardEphemeral | tools/legacy-syncstart-bridge/src/domain/bridge-lobby.ts:197-219 | a skipped song takes its player out and re-times a pending completion |
| LegacyBridgeLobbies.LegacyBridgeLobby.Publish | tools/legacy-syncstart-bridge/src/domain/bridge-lobby.ts:455-463 | a snapshot goes out exactly when it differs from the last |
| LegacyBridgeLobbies.LegacyBridgeLobby.HandleSong | tools/legacy-syncstart-bridge/src/domain/bridge-lobby.ts:119-130 | the whole new state after a song was selected |
| LegacyBridgeLobbies.LegacyBridgeLobby.HandleStart | tools/legacy-syncstart-bridge/src/domain/bridge-lobby.ts:137-150 | the whole new state after a start |
| LegacyBridgeLobbies.LegacyBridgeLobby.HandleScore | tools/legacy-syncstart-bridge/src/domain/bridge-lobby.ts:152-161 | the whole new state after a live score |
| LegacyBridgeLobbies.LegacyBridgeLobby.HandleFinalScore | tools/legacy-syncstart-bridge/src/domain/bridge-lobby.ts:163-191 | the whole new state after a final score |
| BridgeInvariants.EveryRun | tools/legacy-syncstart-bridge/src/domain/bridge-lobby.ts:80-116 | in every run: at most four cabinets, players only on cabinets on the song of the lobby, a completed song with no timer and only finished players, no snapshot sent twice in a row, the current state the last one sent |
| BridgeInvariants.StepKeeps | tools/legacy-syncstart-bridge/src/domain/bridge-lobby.ts:118-225 | every handler, the timer, the sweep and the shutdown keep that |
| BridgeInvariants.StrayingCabinet | tools/legacy-syncstart-bridge/src/domain/bridge-lobby.ts:264-298 | a cabinet that moves is in session, or somebody else holds the unfinished song and nothing about the others changed; never is the lobby completed afterwards |
| BridgeInvariants.StrayingSaysNothing | tools/legacy-syncstart-bridge/src/domain/bridge-lobby.ts:264-298 | whatever a cabinet sends, if it is not in session afterwards the other cabinets, the song, the timer and the published stream are as before |
| BridgeInvariants.SweepSpares | tools/legacy-syncstart-bridge/src/domain/bridge-lobby.ts:404-438 | the sweep spares cabinets heard of lately and, while a completion is pending, finished ones; their players are still reported; a completed song is not published again |
| BridgeInvariants.RepeatedFinalScore | tools/legacy-syncstart-bridge/src/domain/bridge-lobby.ts:163-219 | the same final-score datagram twice is the same as once, apart from being heard again, on every branch |
| BridgeInvariants.HeardOnlySeen | tools/legacy-syncstart-bridge/src/domain/bridge-lobby.ts:234-239 | being heard again changes only when the cabinet was last seen |
| BridgeInvariants.SessionPlayersContents | tools/legacy-syncstart-bridge/src/domain/bridge-lobby.ts:323-335 | the session players are those on the cabinets in session |
| BridgeInvariants.DropUnfinishedFilters | tools/legacy-syncstart-bridge/src/domain/bridge-lobby.ts:371-386 | a completion keeps exactly the session players with a final message, in order |
| BridgeReports.EveryStep | tools/legacy-syncstart-bridge/src/domain/bridge-lobby.ts:152-219 | a step changes a player only by a score datagram of that side that is no repetition and finds its cabinet in session, or takes them out |
| BridgeReports.PlayersAreReported | tools/legacy-syncstart-bridge/src/domain/bridge-lobby.ts:337-356 | in every run: a player has the name, score, failure and judgments of the last such datagram, is ready exactly when one of them since they joined had anything judged, and has finished with the last final one |
| BridgeRooms.SongIs | tools/legacy-syncstart-bridge/src/domain/bridge-lobby.ts:119-150 | a named song: a cabinet joins while there are fewer than four and moves; the lobby begins again exactly when it has no song, has finished it, or nobody else is on it, which empties every cabinet; the room is shown as selecting a song when the cabinet is in session, except at the start of the song it is playing |
| BridgeRooms.ScoreIs | tools/legacy-syncstart-bridge/src/domain/bridge-lobby.ts:152-161 | a live score: the same move, then exactly the side of the datagram is listed besides who was, and the room is shown at play when the cabinet is in session |
| BridgeRooms.FinalIs | tools/legacy-syncstart-bridge/src/domain/bridge-lobby.ts:163-191 | a final score: only heard if repeated; else the same move and listing, nothing is shown, and the timer is due after the timeout if anybody in the session is unfinished, after the grace period if nobody is |
| BridgeRooms.SkippedIs | tools/legacy-syncstart-bridge/src/domain/bridge-lobby.ts:171-219 | the final zero score without judgments takes exactly its own side off its cabinet if that is playing the song of the lobby, times a pending completion anew and shows the room at play; otherwise it is only heard |
| BridgeRooms.SweepIs | tools/legacy-syncstart-bridge/src/domain/bridge-lobby.ts:420-452 | exactly the cabinets seen since the idle time, and while a completion is pending those whose players have all finished, stay; if any left an unfinished song the room is shown without them and the timer is due anew |
| BridgeRooms.TimerIs | tools/legacy-syncstart-bridge/src/domain/bridge-lobby.ts:371-402 | the timer takes unfinished players off the cabinets in session and nobody else; if anybody is left the song is completed, shown at play and then at evaluation |
| BridgeRooms.SnapshotShows | tools/legacy-syncstart-bridge/src/domain/bridge-lobby.ts:465-493 | a snapshot shows the lobby code, the song and each session player once, by cabinet and side, with their numbers, and ready only at play |
| BridgeCompletions.CompletedOnce | tools/legacy-syncstart-bridge/src/domain/bridge-lobby.ts:371-402 | in every run, for a reader of all snapshots: when the timer fires with something to report, exactly one completed song is announced, naming exactly the session players with a final message, unless this very result is the last recorded for the selected song |
| BridgeCompletions.EverySongAnnounced | tools/legacy-syncstart-bridge/src/domain/bridge-lobby.ts:46-78 | over any run the songs announced as completed, plus the replays with the result last recorded, are exactly the songs the room finished |
| BridgeCompletions.CompletedSession | tools/legacy-syncstart-bridge/src/domain/bridge-lobby.ts:387-391 | then the song is completed, and exactly those players are left in the session |
| BridgeCompletions.NothingElseCompletes | tools/legacy-syncstart-bridge/src/domain/bridge-lobby.ts:46-71 | no other step of any run makes the reader announce a completed song |
| BridgeCompletions.EvaluationRead | packages/syncstart-protocol/src/protocol/lobby-state-interpreter.ts:48-56 | a reader that saw the room at play takes the evaluation snapshot as one completion, unless its signature repeats |
| BridgeCompletions.PublishCompletesNothing | packages/syncstart-protocol/src/protocol/lobby-state-interpreter.ts:48-56 | a snapshot of a room at play announces no completion |
| BridgeCompletions.ReplayNeverAnnounced | packages/syncstart-protocol/src/protocol/lobby-state-interpreter.ts:51-52 | a song finished twice with the same numbers completes twice in the room and is announced once |
| BridgeResults.CompletedAsReported | tools/legacy-syncstart-bridge/src/domain/bridge-lobby.ts:46-71 | in every run, for a reader of all snapshots: when the timer fires with somebody finished, exactly one completed song is announced, the song of the lobby, naming each finished player by cabinet and side with the name, score and failure of the last score datagram of theirs that counted, unless the last result of this selection was the same |
| PlacementPoints.AwardPlacementPoints | packages/scoring/src/placement-points.ts:10-34 | each eligible standing gets the field size less the eligible standings strictly better, each excluded one 0, whatever the previous points |
| PlacementPoints.OrderIrrelevant | packages/scoring/src/placement-points.ts:3-9 | the order of the field does not matter |
| PlacementPoints.PointsRankResults | packages/scoring/src/placement-points.ts:3-9 | more points exactly for a better eligible percentage or against an excluded standing; the field size exactly for the best |
| PlacementPoints.GroupStart | packages/scoring/src/placement-points.ts:20-33 | a group of ties starts after as many standings as are strictly better |
| PlacementPoints.PointsCount | packages/scoring/src/placement-points.ts:3-34 | an excluded standing gets 0, every other the size of the field less the number of standings that are not excluded and have a higher percentage |
| SeedOrders.BracketSeedOrder | tools/dataset-seeder/src/dataset.ts:948-957 | the order of the smallest power of two that holds the size |
| SeedOrders.EverySeedOnce | tools/dataset-seeder/src/dataset.ts:943-957 | the order is a permutation of 0 to n - 1 |
| SeedOrders.FirstRound | tools/dataset-seeder/src/dataset.ts:943-957 | neighbours add up to n - 1, and the better seeds of the pairs are the order of half as many |
| SeedOrders.TopSeedsApart | tools/dataset-seeder/src/dataset.ts:943-957 | cut into 2^k blocks, each block holds exactly one of the top 2^k seeds, at its start |
| CompletedBrackets.PlayRounds | tools/dataset-seeder/src/dataset.ts:528-548 | n - 1 matches, each seating the next two to come in, and one rule for every match before the final |
| CompletedBrackets.AddRules | tools/dataset-seeder/src/dataset.ts:538-540 | one rule per match of the previous round, to the side its winner comes in on |
| CompletedBrackets.RulesFollowWinners | tools/dataset-seeder/src/dataset.ts:538-540 | the match a rule names is a later one and seats the winner at the slot the rule names |
| CompletedBrackets.WhoPlays | tools/dataset-seeder/src/dataset.ts:528-548 | the entrants meet two by two in order, then the winners in the order of their matches |
| CompletedBrackets.FavouritesMeetLate | tools/dataset-seeder/src/dataset.ts:943-957 | while favourites win, the best left meets the worst left in every round |
| RealtimeStates.TournamentRealtimeState.Apply | apps/realtime/src/state/tournament-realtime-state.ts:26-52 | fails exactly for another tournament, changing nothing; otherwise the projection and the messages of the specification |
| RealtimeStates.TournamentRealtimeState.RemoveLobby | apps/realtime/src/state/tournament-realtime-state.ts:68-77 | the live match and every message about the lobby go, nothing else |
| RealtimeStates.TournamentRealtimeState.Cache | apps/realtime/src/state/tournament-realtime-state.ts:61-66 | one message replaces the one of its identity |
| RealtimeStates.TournamentRealtimeState.Snapshot | apps/realtime/src/state/tournament-realtime-state.ts:54-59 | the messages of a path in their order, and the last sequence |
| RealtimeReplays.CacheAgreesWithLog | apps/realtime/src/state/tournament-realtime-state.ts:26-78 | for every log, path and identity: a message is in the snapshot exactly when some event showed it, nothing with its identity was shown since, and its lobby has not ended since; which messages share an identity is said by the next rows |
| RealtimeIdentities.SortsTellApart | apps/realtime/src/state/tournament-realtime-state.ts:88-93 | whatever the names, two messages of one event about matches, about lobbies, or about players of one lobby, or one about a match and one not, share an identity exactly when they are about the same |
| RealtimeIdentities.IdentitiesTellApart | apps/realtime/src/state/tournament-realtime-state.ts:88-93 | messages of any events and lobbies share an identity exactly when they are about the same player of a lobby, match, lobby or event, as long as no lobby reads as a player |
| RealtimeIdentities.LobbyTellsApart | apps/realtime/src/state/tournament-realtime-state.ts:88-93 | exactly the lobbies that read as a player have messages taken for messages about a player of a shorter lobby |
| RealtimeIdentities.SnapshotBySubject | apps/realtime/src/state/tournament-realtime-state.ts:26-78 | for every log without such lobbies, the snapshot of a path holds exactly the last message about every player of a lobby, match, lobby and event, unless its lobby ended since |
| RealtimeReplays.SnapshotInOrder | apps/realtime/src/state/tournament-realtime-state.ts:54-66 | for every log and path, the messages come in the order in which their identities first arrived since they were last absent |
| RealtimeReplays.EndedLobby | apps/realtime/src/state/tournament-realtime-state.ts:36-38 | a lobby that disconnects for good leaves no message on any path and no live match; all other messages and live matches stay |
| RealtimeReplays.ProgressCarriesSong | apps/realtime/src/live-events/realtime-event.mapper.ts:73-84 | progress without a song shows the last song named for the lobby since it last ended, or none |
| RealtimeReplays.LiveMatchPlaysLastSong | apps/realtime/src/state/tournament-realtime-state.ts:47-49 | the live match of a lobby is on the last song named for it since it last ended |
| RealtimeReplays.RoutedToAll | apps/realtime/src/state/tournament-realtime-state.ts:40-51 | the three paths get what the event shows there before the event changed anything |
| RealtimePosts.EveryPost | apps/realtime/src/live-events/realtime-event.mapper.ts:17-110 | every event of a log shows on each path exactly what its kind asks for, named and filled as the path wants it, under the number the stream then has |
| RealtimePosts.NumberOfLog | apps/realtime/src/state/tournament-realtime-state.ts:31-33 | the stream counts on from the last number an event brought, or from zero |

## Left out

- Match names, round names and the identifiers "m0", "m1", ...: a match is its position in the plan, and the round of a match its descriptor.
- Fields the resolver only carries (names, seeds, nationality, totals) and the run of each entrant with its round labels.
- Entrant names and cabinet addresses are compared by their rank in the locale's order.
- DivisionPlacements.ResolveDivisionPlacements: where a loop can be reached, no more is said of a depth than whether it is zero, since the answer depends on the order of the rules.
- DivisionOrders.PlacementsIgnoreOrder: competitions are taken to be identified by kind and number, as the database guarantees.
- SingleEliminationRoutes.RunLandsOn: is about at most four players per match; above, `EveryRouteGoes` says where every single route leads, but the position after several has no such short form.
- RealtimeIdentities.SnapshotBySubject: is about logs without lobbies that read as players, the exact condition of `LobbyTellsApart`; `RealtimeReplays.CacheAgreesWithLog` covers the others.
- SingleEliminationOutcomes.FinalStandings: is about full brackets of an even match size, in a division that consists of the bracket and its pool; byes are not played out, and odd sizes, which lose a player on the way, are not read out.
- DoubleEliminationOutcomes.FinalStandings: likewise about full brackets, in a division of their own.
- PlanDivisions.MatchDepth: a bracket has at least one route; a lone match without rules is placed by its pool and not by itself.
- LegacyBridgeLobbies.LegacyBridgeLobby.Flush: the timer is a deadline that may fire at any moment while it is armed, and any sweep at any moment, which allows every run the real timers allow and more; that the clock had reached the deadline is not demanded.
- LegacyBridgeLobbies.LegacyBridgeLobby.HandleSong: takes the song title after trimming; so does HandleStart.
- Parsing of score datagrams, the percentage they show and whether anything was judged: a parsed message is a record with a percentage in hundredths and a flag.
- A live score after a final one replaces the numbers, so a reported player has sent a final message, but the numbers need not be those of it; and a player first seen while the grace period runs is not waited for.
- Logging, the lobby password, spectators, and joining players' song progress.
- LobbyStateInterpreters.LobbyStateInterpreter.InterpretSnapshot: the clean-up of player names is a parameter, so everything holds for every such function; judgment counters are carried unread.
- Serialised states and score lists are compared as values.
- CompletedBrackets.PlayRounds: who wins a match is a parameter; the random scores, songs and schedules of the seeded data are not modelled; the number of entrants is any power of two, of which the program uses eight.
- PlacementPoints.AwardPlacementPoints: percentages are whole numbers of hundredths.
- Payloads of live events are records of the fields that are looked at, with the rest as one text; a song is always present where the sender's type demands one.
- The match aggregate, the schedule runner, the advancement runner, `RoundWinner` scoring, role merging, bulk inserts and song import: other components, or true but easy.
- Databases, HTTP, WebSocket and UDP transport, the reconnecting lobby client, and the user interface.
