# Proofs about the "6 qui prend" game server

The server runs sessions of the card game "6 qui prend" (Take 5). A session thread owns the seats and the
game, a server thread owns the connections and the registered players, and the two exchange messages over
a pair of rings with an eventfd each. Clients speak a framed binary protocol. This project models

- **one turn of the game** (`Turn`, `TurnFold`, `Board`, `Game`, `Hand`): the resolution loop on the flat
  board array, with its suspension when the smallest card fits nowhere, proved equal to a fold over the
  *set* of ready cards, in which neither slots nor the order of submission occur;
- **one deal** (`HeadShares`, `DealSpec`, `Shuffles`, `Dealing`): the two shuffles, each of which can lead to every
  order, the heads given out in classes, the board and the hands;
- **a session** (`SessionSpec`, `Session`, `Outcomes`, `SeatInvariant`, `SeatRuns`): every message as a method on
  the seat array and the counters, proved equal to a function on values, what it means to the clients, and what
  all messages keep;
- **whole phases** (`Conservation`, `Runs`, `Resolution`, `Scores`, `Lockstep`, `Order`, `Departures`, `Examples`): statements
  about every run of a phase from a deal on, with departures and lost connections;
- **the bot's simulator** (`Simulation`): it keeps only a tail and a count per row and ends where the server
  does;
- **the ring and the bus** (`Bits`, `Ring`, `Bus`): the ring as a queue, and the same ring with its eventfd as
  a system of two threads whose atomic accesses, slot copies and signals interleave freely;
- **the wire** (`Protocol`, `Receive`, `Send`, `Wire`): header, re-assembly, output queue, and the three
  together;
- **the registry** (`FdMap`, `Registry`): the growing table, and players and connections that point to each
  other.

`Options` and `Sums` are shared helpers. Conservation is stated with weights: `Sum(s, w)` adds a weight for
every card of a sequence; the weight that is 1 for one card says where this card is, the weight that is a
card's heads speaks about scores.

## What the code relies on

These conditions are not checked by the code, and without them the statements do not hold. They appear as
preconditions under the names given.

- A game is started only while none runs and no slot holds a card (`DealFits`); nothing in the handler of
  `PKT_START_SESSION` ensures it.
- The chosen row exists and the sender of a card is a seated player (`Allowed`, `SeatedPlayer`).
- A deal fits (`Needed`): rows and full hands do not exceed the deck. `DefaultDealFits` shows that the default
  rules guarantee it for 2 to 20 players, `EverySeatingFits` for which rules it holds in general.
- In `Runs`, `Lockstep` and `Scores` the request to choose a row is delivered; `SessionSpec` and `Session`
  keep its delivery as a parameter, and `SeatRuns` allows both.

## Where the code does less than it seems to

- `Receive.IntactIff`: the payload handed to a handler is overwritten by the frame behind it unless no more
  than six bytes follow (or the payload is empty). Kinds, lengths and order of frames are always right.
- `Receive.Receiver.HandleRead`: readiness is edge-triggered, but the socket is read only until the buffer is
  full once. Bytes stay behind exactly when the backlog exceeds the free space.
- `Departures.LostConnectionEndsPhase`: a lost connection drops the hand before the turn is resolved, and the
  missing hand counts as a finished one, so the phase ends for everybody exactly when the loss completes a turn
  that needs no choice; `Examples.PhaseCutShort` is such a game.
- `Departures.CountAfterDeparture`: the counter of ready cards is not lowered when a player leaves, and says
  exactly when it is still right; `Examples.StaleCount` is a game in which it is not.
- `DealSpec.EverySeatingFits`, `DealSpec.RowsForgotten`: the checks on the rules of a session forget the first
  cards of the rows.
- `Simulation.ExactIff`: the bot's charge counts 3 or 2 heads for a card put on a row during the turn. It is
  exact if and only if these guesses make up for each other on the row that its own card collects;
  `Simulation.WrongPrediction` is a turn in which they do not.
- `FdMap.KeptIff`: the capacity of the table is cut to 16 bits; an index from 32767 on is lost unless the
  table already reaches it.

## Model

| member | source | states |
|---|---|---|
| Turn.SmallestSlot | src/Session/Game/game_alt.c:20-29 | the first slot holding the smallest ready card, -1 exactly when all slots are empty |
| Turn.NearestRow | src/Session/Game/game_alt.c:32-54 | the row whose tail is the greatest one below the card, -1 exactly when every tail is at least the card |
| Turn.Settle | src/Session/Game/game_alt.c:19-67 | the resolution goes on until no card is ready or the smallest one is below every tail |
| TurnFold.FoldPlacesAll | src/Session/Game/game_alt.c:19-67 | if the smallest card has a row, every card is placed |
| TurnFold.SettleIsFold | src/Session/Game/game_alt.c:18-67 | slot by slot resolution gives the rows of the fold over the set of cards in increasing order, and each seat gains exactly what its own card collected |
| TurnFold.SuspendsOnlyFirst | src/Session/Game/game_alt.c:56-60 | the resolution can stop for a choice only before anything was placed |
| TurnFold.NoSecondChoice | src/Session/Game/game_packet.c:66-86 | after the chosen row is taken the rest of the turn needs no further choice |
| TurnFold.ServerTurnIsWholeTurn | src/Session/Game/game_alt.c:5-78 | a whole turn (resolution, and a forced choice followed by a second resolution) is the declarative turn: all cards placed, same rows, each seat credited with what its card collected |
| TurnFold.SlotOrderIrrelevant | src/Session/Game/game_alt.c:18-78 | same rows and same set of ready cards give the same rows and the same gains, whatever the slots |
| Board.StartIsProduct | src/Session/Game/game_alt.c:40 | row r of the flat board begins at cell r * length |
| Board.LaysUpdate | src/Session/Game/game_alt.c:8-12 | changing only the cells of one row leaves the other rows as they were, each a prefix of cards followed by -1 |
| Board.LaysTaken | src/Session/Game/game_alt.c:7-12 | clearing a row up to its last card and writing one card lays out the row with this card alone |
| Game.Game.constructor | src/Session/Game/game.c:14-39 | an empty board, no ready card, no game running |
| Game.Game.ClearLine | src/Session/Game/game_alt.c:7-11 | all cards of the line become -1, nothing else on the board changes, and their heads are added to the score of this seat modulo 256 |
| Game.Game.TakeLine | src/Session/Game/game_alt.c:5-16 | the row is collected by the seat and its ready card starts it anew |
| Game.Game.SmallestReady | src/Session/Game/game_alt.c:20-29 | finds the slot of the smallest ready card |
| Game.Game.LastOnLine | src/Session/Game/game_alt.c:37-44 | finds the last card of a row and its column on the flat board, -1 for an empty row |
| Game.Game.NearestLine | src/Session/Game/game_alt.c:32-54 | finds the nearest row and the column after its tail |
| Game.Game.PlayOn | src/Session/Game/game_alt.c:61-66 | a full row is taken, another one grows by the card |
| Game.Game.PlaceCard | src/Session/Game/game_alt.c:18-78 | the array version computes the resolution despite its fixed number of steps; suspended it returns the owner of the smallest card, else the count is 0 and the result says whether someone has no card left |
| Game.Game.CheckHands | src/Session/Game/game_alt.c:69-77 | end of phase exactly when some seated player has no card |
| Game.Game.HasNoCards | src/Session/Game/game.c:143-149 | a hand is finished when all its cards are -1 or it does not exist |
| Hand.RealIndex | src/Session/Game/game_packet.c:10-18 | the position holding the v-th displayed card, and -1 exactly for an index that is not displayed |
| Hand.PlaceIsUnique | src/Session/Game/game_packet.c:10-18 | two positions that show at the same index are the same position |
| Hand.PlayingRemovesShown | src/Session/Game/game_packet.c:53-58 | the card shown at v is the card played, and the next display is the same list without it |
| Hand.GetRealIndexFromVisible | src/Session/Game/game_packet.c:10-18 | the counting loop finds that position |
| Hand.CalcHandCount | src/Session/player.c:23-31 | the count is the length of the displayed list |
| Hand.WriteHand | src/Session/session_packet.c:208-222 | the payload after the board is exactly the displayed list, and nothing before it is touched |
| HeadShares.TriangleIsProduct | src/Session/Game/game.c:108 | the total weight is 1 + ... + H |
| HeadShares.SomethingIsLeft | src/Session/Game/game.c:120-136 | before the last class cards are left over, so the clamp and the early end of the loop are never reached |
| HeadShares.HeadListSize | src/Session/Game/game.c:105-140 | every card is given a number of heads exactly once |
| HeadShares.HeadAt | src/Session/Game/game.c:105-140 | position k of the list has h heads exactly when it lies behind the shares of the smaller classes and within the share of class h, or anywhere behind them for the last class |
| HeadShares.TotalBounds | src/Session/Game/game.c:105-140 | the heads of a deck lie between N(H+2)/3 and N(H+2)/3 + H(H-1)/2 |
| HeadShares.DefaultTotal | src/Session/Game/game.c:105-140 | 104 cards with up to 5 heads have 250 heads |
| DealSpec.DealHandsSeats | src/Session/Game/game.c:75-85 | dealing changes only hands, and a deal that fits fills every player's hand with cards of the order |
| DealSpec.DealLaysOut | src/Session/Game/game.c:61-85 | a deal that fits lays out the order: one card for each row, then a full hand for each player in the order of the seats, and the rest stays in the box |
| DealSpec.DealConserves | src/Session/Game/game.c:47-90 | after a deal every card of the order is on the board, in a hand or undealt, for every weight |
| DealSpec.DealKeepsSeats | src/Session/Game/game.c:75-85 | a deal keeps seats and counters in agreement |
| DealSpec.DefaultDealFits | src/Session/Game/game.c:15 | with the default rules and an accepted capacity of 2 to 20 every deal fits |
| DealSpec.AcceptedIff | src/Session/session_packet.c:294-298 | with the check of PKT_SESSION_SET_GAME_RULES before the guard of init_game, rules are accepted exactly when the hands of all players are fewer cards than the deck |
| DealSpec.EverySeatingFits | src/Session/session_packet.c:294-298 | every seating up to the capacity can be dealt to if and only if rows and full hands together do not exceed the deck |
| DealSpec.RowsForgotten | src/Session/session_packet.c:294-298 | 5 lines, 10 cards each, capacity 10 and 104 cards are accepted, but a full table cannot be served |
| Dealing.MelangeIds | src/Session/Game/game.c:92-103 | the array becomes the shuffle of the values drawn, and the code is 0 exactly when there was one for every place but the first; `Shuffles` says what this shuffle is |
| Shuffles.PlaceDrawn | src/Session/Game/game.c:92-103 | the card that ends up j places before the last is the one that value j, cut to the places not yet fixed, points at after the values before it |
| Shuffles.OneMoreDraw | src/Session/Game/game.c:93-101 | one more value is one more swap of the last place not yet fixed with the place it chooses |
| Shuffles.ShuffleKeepsSum | src/Session/Game/game.c:92-103 | whatever is drawn, and even if the random source fails, the ids are a permutation of what they were |
| Shuffles.EveryOrder | src/Session/Game/game.c:92-103 | every shuffle of the ids is an order of the deck, and each order of the deck comes out for exactly one choice of places |
| Dealing.MelangeHead | src/Session/Game/game.c:105-140 | the card in position k of the order gets the k-th of the heads given out, all others fields unchanged |
| Dealing.FillBoard | src/Session/Game/game.c:62-73 | one card in the first cell of every row, -1 elsewhere |
| Dealing.FillHands | src/Session/Game/game.c:75-85 | the hands are consecutive pieces of the order, in the order of the seats |
| Dealing.MakeDeck | src/Session/Game/game.c:48-59 | the ids are the first shuffle of 0 .. N-1, each card has its number, and the k-th card of that order has the k-th number of heads |
| Dealing.DistribCards | src/Session/Game/game.c:47-90 | the array version is the deal of the specification for the ids shuffled twice, with the heads given out along the first shuffle, each card between 1 and H heads, and the promised total |
| SessionSpec.FindSeat | src/Session/session.c:135-143 | the first occupied seat of this client, -1 exactly when there is none |
| SessionSpec.FreeSeat | src/Session/session.c:145-152 | the first seat without a client, -1 exactly when there is none |
| Session.Session.constructor | src/Session/session.c:13-44 | a new session has default rules, no game running, nobody seated, and counters that agree with the seats |
| Session.Session.GetIndexById | src/Session/session.c:135-143 | finds that seat |
| Session.Session.GetFirstFreePlace | src/Session/session.c:145-152 | finds that seat |
| Session.Session.StartMove | src/Session/Game/game_packet.c:20-32 | resolves exactly when cards are awaited, the counter has reached the number of players and is not 0, after emptying vacant slots |
| Session.Session.SendRequestExtra | src/Session/Game/game_packet.c:88-133 | the awaited player is remembered, and 0 returned, exactly when a card is ready and the request went out |
| Session.Session.HandleResultOfPlay | src/Session/message_handler.c:114-136 | a request for a row, the end of the phase, or nothing |
| Session.Session.HandleInfoReturn | src/Session/Game/game_packet.c:34-64 | accepted exactly when cards are awaited, the player has none ready and the position is one of those he is shown: the card shown there is ready, the others are shown in their order, the count is one higher; else nothing changes |
| Session.Session.HandleAnswer | src/Session/message_handler.c:156-160 | such an answer, and then the turn resolved if it was the last one |
| Session.Session.HandleResponseExtra | src/Session/Game/game_packet.c:66-86 | only the awaited player can take a row; then the turn is resolved |
| Session.Session.AddPlayer | src/Session/session.c:154-169 | refused exactly when the client sits already or no seat is free; else one seat and the counters change |
| Session.Session.HandleJoin | src/Session/message_handler.c:50-71 | a client without a seat gets the first free one, as a player with a hand exactly if no game runs and places are left, else as an observer; nothing changes when he sits already or the session is full |
| Session.Session.RemovePlayer | src/Session/session.c:202-238 | the player gives up his ready card, the turn may go on, and the seat is vacated |
| Session.Session.BecomeObserver | src/Session/session.c:171-200 | the hand is dropped, the turn may go on, then the role changes |
| Session.Session.RemoveEveryone | src/Session/message_handler.c:100-106 | every client still seated when its turn comes is removed |
| Session.Session.HandleLeft | src/Session/message_handler.c:15-36 | his hand and ready card are dropped and the turn may go on; he keeps his seat as an observer without connection and the others keep theirs, but if nobody else is connected the session is empty |
| Session.Session.HandleClose | src/Session/message_handler.c:94-108 | no game runs any more, all seats are empty and the counters 0; no turn is resolved on the way: rows, slots and scores are as before |
| Outcomes.AnswerMeans | src/Session/Game/game_packet.c:34-64 | the answer v of an unready player while cards are awaited is accepted if and only if v is below the number of cards shown; the card shown at v becomes the ready one and leaves the display; else the state is unchanged |
| Outcomes.JoinMeans | src/Session/message_handler.c:50-61 | from agreeing counters: a client with an id who is not seated gets the first free seat while there is one, as a player exactly if the game is inactive and the players are below the capacity; all other seats are unchanged, and the state in every other case |
| Outcomes.LeftMeans | src/Session/message_handler.c:15-36 | who keeps which seat after a lost connection, and that emptying the session resolves no further turn |
| Outcomes.CloseMeans | src/Session/message_handler.c:94-108 | a close changes the phase, the seats and the two counters, and nothing else |
| Resolution.ResolveMeans | src/Session/Game/game_packet.c:20-32 | unless the count of ready cards has reached the players nothing happens; if the smallest card fits nowhere only its owner is asked; else the turn is the fold over the set of ready cards, with credits, empty slots, count 0, and the phase ended exactly if someone has no card left |
| Resolution.AnswerResolves | src/Session/message_handler.c:156-160 | so does every answer in every reachable state of a phase |
| Resolution.ChoiceResolves | src/Session/Game/game_packet.c:66-86 | in every reachable state a row from the awaited player plays the whole turn with this choice, and a row from anybody else changes nothing |
| Resolution.VacantNeverPlays | src/Session/Game/game_packet.c:25-28 | in any state a vacant seat plays no card and collects none when a turn is resolved |
| SeatInvariant.SubmitKeepsSeats | src/Session/message_handler.c:156-160 | a card keeps seats and counters in agreement |
| SeatInvariant.ExtraKeepsSeats | src/Session/message_handler.c:161-164 | so does the choice of a row |
| SeatInvariant.JoinKeepsSeats | src/Session/message_handler.c:50-71 | so does joining, for a client with an id |
| SeatInvariant.RemoveEmptiesSeat | src/Session/session.c:202-238 | so does leaving: the seat of this client is empty, the counters follow, and the other seats change in scores only |
| SeatInvariant.BecomeObserverKeepsSeats | src/Session/session.c:171-200 | so does becoming an observer, and nobody changes seats |
| SeatInvariant.LeftKeepsSeats | src/Session/message_handler.c:15-36 | so does a lost connection; when no connection is left nobody is seated |
| SeatInvariant.CloseEmptiesSeats | src/Session/message_handler.c:94-108 | after a close the counters agree with the empty seats |
| SeatRuns.CountersAgree | src/Session/message_handler.c:9-169 | over every sequence of messages in any phase: the counters count the occupied and the playing seats, the latter at most the capacity, no client sits twice, and id 0 means no role |
| Conservation.SettleConserves | src/Session/Game/game_alt.c:18-67 | a resolution keeps the weight of all cards, for every weight |
| Conservation.SubmitConserves | src/Session/message_handler.c:156-160 | so does an answer |
| Conservation.ExtraConserves | src/Session/Game/game_packet.c:66-86 | so does the choice of a row |
| Conservation.RemoveConserves | src/Session/session.c:202-238 | a departure takes away exactly the hand and the ready card of the player |
| Runs.LosesOk | src/Session/message_handler.c:15-36 | a lost connection keeps the invariant below: the hand and the ready card of the player, and of everyone removed with the last connection, are the only cards that leave |
| Runs.NextOk | src/Session/message_handler.c:9-169 | every event of a phase (answers, choices, joins, departures, lost connections) keeps the invariant: each card in one place, rows increasing and of legal length, seats in order, the awaited player owning the smallest ready card |
| Runs.DealOk | src/Session/Game/game.c:47-90 | a deal that fits establishes it |
| Runs.EveryCardInOnePlace | src/Session/Game/game.c:47-90 | after any run of these events each card id is in exactly one of: a row, a slot, a hand, the cards taken, undealt, gone with a player; rows are strictly increasing and non-empty; ready cards and tails all differ |
| Runs.AwaitedOwnsSmallest | src/Session/Game/game_packet.c:88-133 | while a row is awaited, the awaited player is seated and owns the smallest ready card, which is below every tail |
| Runs.ChoiceEndsTurn | src/Session/Game/game_packet.c:66-86 | the choice ends the turn: all slots empty, counter 0, no further choice |
| Runs.LeavingReleases | src/Session/session.c:225-231 | when the awaited player leaves, another seated player is asked, or the turn is over: all slots empty and the count 0 |
| Runs.StrayAnswerChangesNothing | src/Session/message_handler.c:156-160 | a card sent while a row is awaited changes nothing and the same player is asked again |
| Scores.ScoresAreExact | src/Session/Game/game_alt.c:9 | in every reachable state a score is the score at the deal plus the heads of the cards taken, provided that score and the deck fit a uint8_t |
| Scores.DefaultScores | src/Session/Game/game_alt.c:9 | with the default deck and scores from 0 no score overflows within a deal |
| Lockstep.TurnCompletes | src/Session/Game/game_alt.c:68-77 | a completed turn leaves hands of equal size and reports the end of the phase exactly when it was the last one |
| Lockstep.AcceptedCard | src/Session/Game/game_packet.c:52-63 | an accepted card is one more in a slot and one fewer in that hand |
| Lockstep.StepTally | src/Session/message_handler.c:138-169 | every event without a departure keeps the players in step |
| Lockstep.PhaseLasts | src/Session/Game/game_packet.c:20-64 | without departures a phase for k players with hands of P cards has accepted k cards per completed turn, is over exactly after P turns and k * P cards, and reports its end once |
| Lockstep.NeverStuck | src/Session/Game/game_packet.c:34-86 | in step, some player without a ready card may play any of the cards he is shown while cards are awaited, and any row ends the turn while one is awaited |
| Lockstep.RunGoesOn | src/Session/Game/game_packet.c:20-86 | so does every state reached without departures from a deal, until all turns are completed |
| Lockstep.DealGood | src/Session/Game/game.c:47-90 | a fitting deal starts such a phase |
| Order.InfoReturnsCommute | src/Session/Game/game_packet.c:34-64 | the answers of two players commute |
| Order.SubmissionOrderIrrelevant | src/Session/Game/game_packet.c:20-64 | all orders of the answers of a turn lead to the same state, resolution included |
| Departures.CountAfterDeparture | src/Session/session.c:225-231 | if the counter of ready cards was right before a departure, it is right afterwards if and only if the player had not answered, or his departure completes a turn whose smallest remaining card fits somewhere |
| Departures.LostConnectionEndsPhase | src/Session/session.c:187-199 | a lost connection ends the phase if and only if it completes a turn whose smallest remaining card fits somewhere |
| Examples.StaleCount | src/Session/session.c:225-231 | three players, the first answers and leaves: no slot is occupied and the counter says 1 |
| Examples.PhaseCutShort | src/Session/message_handler.c:15-36 | two players with two cards each, one answers, the other loses his connection: the phase is over while the first still holds a card |
| Simulation.Shuffle | src/Bot/bot_high_dif.c:17-25 | the same shuffle as the server's, of the values of the generator |
| Simulation.Cheapest | src/Bot/bot_high_dif.c:95-102 | the first row with the smallest penalty |
| Simulation.SmallestPlayed | src/Bot/bot_high_dif.c:75-81 | the simulator picks the same next card as the server |
| Simulation.NearestTail | src/Bot/bot_high_dif.c:83-92 | the simulator finds the same row as the server from the tails alone |
| Simulation.StepKeeps | src/Bot/bot_high_dif.c:75-118 | after one card some tail is below all the others, and the outcome of the turn is not changed |
| Simulation.SimulationStep | src/Bot/bot_high_dif.c:62-122 | tails and counts at the end are those of the board the server reaches when the forced player takes the row with the smallest initial penalty; the result is the sum of the penalties its own card collects |
| Simulation.PredictionError | src/Bot/bot_high_dif.c:62-122 | for any own card the predicted charge differs from the heads the server charges by exactly what the bot then counts too much for the row its card collects, and by nothing if it collects none |
| Simulation.ExactIff | src/Bot/bot_high_dif.c:103-117 | with true initial penalties the charge is exact if and only if the own card collects no row, or the guesses (3 for an appended card or one that starts a chosen row, 2 for one that starts a full row) for the cards put on that row before it sum to their heads |
| Simulation.ExactOnUntouchedRow | src/Bot/bot_high_dif.c:108-112 | in particular it is exact when no smaller card was put on the row that the own card collects |
| Simulation.WrongPrediction | src/Bot/bot_high_dif.c:113-117 | one row [0] of length 2, cards 3 and 2, one head each: 4 heads are predicted, 2 are charged |
| Simulation.PredictedIsGain | src/Bot/bot_high_dif.c:62-122 | with true initial penalties and the own card the smallest, the predicted charge is exactly the heads the server charges in this turn |
| Simulation.CheapestIsCheapest | src/Bot/bot_high_dif.c:95-102 | with true initial penalties this row is a cheapest one |
| Bits.MaskIsWrap | src/SupportStructure/spsc_buffer.c:70 | masking with a power of two less one is the remainder |
| Bits.WrapIsRemainder | src/SupportStructure/spsc_buffer.c:70 | the wrapped position is the remainder of the count |
| Bits.PowerOfTwoTest | src/SupportStructure/spsc_buffer.c:6-8 | for n >= 1 the test accepts exactly the powers of two |
| Ring.RingBuffer.Init | src/SupportStructure/spsc_buffer.c:10-26 | accepts exactly the powers of two with a nonzero element size, and gives an empty ring |
| Ring.RingBuffer.IsEmpty | src/SupportStructure/spsc_buffer.c:42-48 | empty exactly when nothing is queued |
| Ring.RingBuffer.IsFull | src/SupportStructure/spsc_buffer.c:50-56 | full exactly when capacity - 1 values are queued |
| Ring.RingBuffer.Size | src/SupportStructure/spsc_buffer.c:58-64 | the number of queued values, with the difference taken in size_t |
| Ring.MaskedDistance | src/SupportStructure/spsc_buffer.c:63 | the masked difference of two positions is the way from one to the other, wrap-around included |
| Ring.RingBuffer.Push | src/SupportStructure/spsc_buffer.c:66-81 | refused exactly when capacity - 1 values are queued, else the value is last in the queue |
| Ring.RingBuffer.Pop | src/SupportStructure/spsc_buffer.c:83-98 | refused exactly when empty, else the first value leaves the queue |
| Ring.RingBuffer.Peek | src/SupportStructure/spsc_buffer.c:100-112 | the first value, which stays |
| Bus.GivesUpWhenFull | src/SupportStructure/spsc_buffer.c:69-77 | a push gives up exactly when by the tail it has loaded all slots but one are taken |
| Bus.NextInv | src/SupportStructure/spsc_buffer.c:66-98 | every step of either thread keeps the invariant of the shared ring; a value goes in exactly when the head is stored, the oldest one comes out exactly when the tail is stored |
| Bus.RingIsSafe | src/SupportStructure/spsc_buffer.c:66-98 | in every interleaving what came out is a prefix of what went in, at most capacity - 1 values are held, and the slot being written is neither unread nor being read; that a push does go in is `PushPublishes` |
| Bus.NoLostWakeUp | src/SupportStructure/session_bus.c:56-62 | queued values never exceed eventfd counter, remaining count and one push under way; so a non-empty queue with both sides idle means a readable eventfd |
| Bus.WakeUpDelivers | src/Session/session.c:90-111 | in every interleaving, whatever was published and signalled when the consumer read the eventfd has been taken when it next waits |
| Bus.DrainDelivers | src/Session/session.c:90-111 | the consumer alone comes to wait again, and has then taken everything that was pushed |
| Bus.PushPublishes | src/SupportStructure/session_bus.c:56-62 | in every interleaving a push that runs until the producer rests either gives up, exactly when by the tail it loaded capacity - 1 slots are taken, or appends exactly its value and adds one signal |
| Bus.PushAlone | src/SupportStructure/session_bus.c:56-62 | the producer alone comes to rest, and is refused exactly when capacity - 1 values are queued |
| Bus.PushThenDrain | src/Session/session.c:90-111 | a push that finds room, followed by the consumer alone: the eventfd is readable and the value is the last one taken |
| Bus.PushIsTaken | src/Session/session.c:90-111 | in every interleaving a value whose push did not give up has come out in its place once the consumer has read the eventfd after the signal and waits again |
| Protocol.EncodedIsAccepted | src/Protocol/protocol.c:7-44 | an encoded header is read back, whatever follows it |
| Protocol.AcceptedIsEncoded | src/Protocol/protocol.c:18-44 | only the bytes that encoding would write are accepted |
| Protocol.EncodeBytes | src/Protocol/protocol.c:7-16 | the header on the wire is 0x50 0x53 1, the kind, and the length with its high byte first |
| Protocol.ParseLeavesRoom | src/Protocol/proto_io.c:33-49 | after extraction has ended with 0 the buffer is not full |
| Protocol.ParseIncremental | src/Protocol/proto_io.c:33-49 | extracting, keeping the rest and adding bytes gives the frames of all the bytes together |
| Protocol.StreamRoundTrip | src/Protocol/proto_io.c:33-49 | the packets of a stream of packets are these packets, with nothing left |
| Protocol.PrefixOfStream | src/Protocol/proto_io.c:33-49 | of a stream cut anywhere exactly the complete packets are extracted, and the rest is the unconsumed bytes |
| Protocol.CutsIrrelevant | src/Server/server.c:291-316 | any split of a stream into receives gives the same frames, the same rest and the same verdict |
| Receive.IntactIff | src/Protocol/proto_io.c:43-47 | the payload is intact for all contents if and only if it is empty or at most six bytes follow the frame |
| Receive.TailIsIntact | src/Protocol/proto_io.c:43-47 | payload byte i is the one sent when the bytes that follow do not reach it |
| Receive.DeliverFrames | src/Server/server.c:302-315 | the frames handed over are the packets of the stream, by kind, length and order |
| Receive.Receiver.constructor | src/Protocol/proto_io.c:6-13 | an empty buffer |
| Receive.Receiver.TryExtract | src/Protocol/proto_io.c:33-49 | 0, -1 or 1 by what is in front; on 1 the header, the bytes behind the frame moved to the front, and the payload as it is then seen |
| Receive.FailsOnlyIfAnswered | src/Server/server.c:292-300 | the receive loop fails only if a call of recv did |
| Receive.Receiver.Fill | src/Server/server.c:292-300 | however the reads are cut, the buffer takes what fits and the socket keeps the rest, unless recv fails before that |
| Receive.Receiver.Extract | src/Server/server.c:302-315 | hands over every complete frame and keeps the rest, or finds the stream broken |
| Receive.Receiver.HandleRead | src/Server/server.c:288-323 | nothing is handed over and the connection is closed when recv fails or the other side has closed; otherwise it stays open exactly when the stream is sound, and bytes stay in the socket if and only if they do not fit the free space |
| Send.Socket.Send | src/Server/server.c:329 | send() takes the first bytes of what it is offered, as many as it answers |
| Send.Sender.constructor | src/Protocol/proto_io.c:15-19 | an empty queue that is not watched for room |
| Send.Sender.Close | src/Protocol/proto_io.c:21-31 | pending output is dropped, what was sent remains a prefix of the accepted stream |
| Send.Sender.WriteFirst | src/Server/server.c:327-345 | the first chunk goes out as far as the socket takes it: what it has taken and what is pending stay the stream, and the number of bytes taken is the sum of its answers, each cut to what the chunk has left |
| Send.Sender.HandleWrite | src/Server/server.c:325-353 | goes on until all is sent, the socket would block, or it fails and the connection is closed; the socket has then taken the first pending bytes, as many as its answers add up to chunk by chunk; watching for room ends exactly when nothing is pending |
| Send.Sender.Enqueue | src/Server/server_client.c:33-57 | refused exactly above the watermark and then without effect; else the chunk is written behind the others as far as the answers allow, and the socket is watched exactly when output is pending |
| Send.Sender.SendPacket | src/Server/server_client.c:59-71 | refused exactly when too long or above the watermark; else this packet is accepted behind the others and written as far as the answers allow |
| Send.AllTaken | src/Server/server.c:327-345 | one large enough answer for each chunk empties the queue |
| Wire.DeliveredByte | src/Protocol/proto_io.c:43-47 | in one extraction loop byte i of payload k is the one sent when 6 + i reaches the bytes that follow it |
| Wire.EndToEndByte | src/Server/server_client.c:33-71 | and byte i of a frame handed over in any of these reads is the byte of the packet sent, when 6 + i reaches what followed the frame in the buffer |
| Wire.EndToEnd | src/Server/server_client.c:33-71 | over any partial sends and any split into receives the handler gets the first accepted packets in order, and all of them when all has arrived |
| FdMap.Table.constructor | src/SupportStructure/fd_map.c:8-19 | an empty table |
| FdMap.Table.Get | src/SupportStructure/fd_map.c:39-42 | what is stored, nothing outside the capacity |
| FdMap.Table.Set | src/SupportStructure/fd_map.c:21-37 | stores the value, keeps what lies within the new capacity, loses the rest; refuses a negative index |
| FdMap.Table.Remove | src/SupportStructure/fd_map.c:44-48 | forgets this index unless it is 0, and no other |
| FdMap.Table.FirstNull | src/SupportStructure/fd_map.c:63-72 | the first free index below the bound, -1 exactly when there is none |
| FdMap.KeptIff | src/SupportStructure/fd_map.c:24-35 | an index can be found again after it was set if and only if it is within the capacity or below 32767 |
| Registry.Server.NewClientId | src/Server/server_client.c:73-77 | the smallest id given back below the bound is issued again if there is one, else the next new one; never the id of a registered player |
| Registry.Server.Register | src/Server/server_client.c:79-104 | a new player under that id, linked both ways; he is registered and nobody drops out of the table exactly when the id is below 32767 or within the capacity, otherwise he is not found |
| Registry.Server.Disconnect | src/Server/server_client.c:107-116 | the player loses his connection and stays registered, and his session is told |
| Registry.Server.Cleanup | src/Server/server.c:205-218 | the connection is closed and linked to nobody |
| Registry.Server.Reconnect | src/Server/server_client.c:118-134 | refused exactly for an unknown id or a wrong token; else this player and this connection are linked, the other connection is closed, the other player is left without one, and all others are untouched |
| Registry.Server.Unregister | src/Server/server_client.c:136-150 | exactly this player is forgotten, his connection keeps nobody |

## Left out

- Game.Game.TakeLine: asks for a ready card of the player, which `Runs.AwaitedOwnsSmallest` provides; for an empty slot the source prints a message and leaves an empty row.
- Game.Game.NearestLine: asks for non-empty rows, which `Runs.EveryCardInOnePlace` provides in every state after a deal that fits; the source skips an empty row.
- Game.Game.PlaceCard: the same.
- Dealing.DistribCards: asks that no game runs and that the deal fits; otherwise the source deals over a running game, or leaves stale hands behind.
- Session.Session.HandleInfoReturn: asks for a sender with a player's seat; otherwise the source indexes the seats with -1 cut to 8 bits, which has no defined outcome.
- Session.Session.HandleAnswer: the same.
- Session.Session.HandleResponseExtra: asks for a row of the board; otherwise the source reads and writes outside it.
- Session.Session.RemovePlayer: does not model the re-election of the creator.
- Session.Session.HandleClose: does not model the check that the creator sent it.
- Hand.WriteHand: writes card ids, where the source looks up number, heads and client of each card.
- Runs: a close ends the session, so runs of a phase do not contain one; `SeatRuns` does.
- Shutdown and creation of threads, sockets, epoll, poll, eventfd creation and `fork`: their answers are parameters (how much a call sends or receives, what a random source draws, whether a request is delivered).
- Allocation failure and null arguments: the branches that return on them are not modelled.
- Re-election of the creator (src/Session/session.c:207-224) and the creator checks of START and CLOSE: who may send them does not matter for the properties above.
- `session_handle_set_rules` (src/Session/session_packet.c:300-301): the rules are fixed for a session.
- A player's dangling hand pointer after `cleanup_player` is modelled as no hand; the next player of that seat gets a new one.
- The `client_id` written on a card, payloads that are too short, and everything that only logs or displays.
- `change_player_role` to `ROLE_PLAYER`: nothing sends it.
- `best_card_choice`, `simulate_full_game`, `simple_enemy_choice` and `fast_rand` of the bot; `Simulation.Shuffle` takes its random values as a parameter.
- `handle_packet_main` failing in the middle of a read: the loop of `handle_read` then stops early; `Receive.Receiver.HandleRead` models handlers that succeed.
- The direction from a session to the server: its consumer leaves the loop at an unknown player (src/Server/server_session.c:152), so no wake-up claim is made for it.
- Bus: the consumer is modelled as long as the session handles messages; a session that has asked to be unregistered polls without draining.
- Bus: a load returns some store of the modification order, never older than what the thread knows, and the eventfd synchronises the threads; weaker effects of non-atomic accesses are not modelled beyond showing that no slot is accessed by both threads at once.
- Send.Sender.Enqueue: takes the bytes of a packet, which is what its only caller passes; the linked list of chunks is a sequence.
- Send.Socket.Send: the answers of the socket are a list fixed beforehand, each cut to what is offered; when it is used up the socket would block.
- Session.Session.constructor: models an accepted capacity; a refused one creates no session.
- Registry: tokens are given as parameters, and a session id set on a player by the session messages is not modelled as an operation.
- The mutex log bus, `bytebuffer.c` and the command-line client would only add easier members.
