# Beexo Runner client, modelled in Dafny

Beexo Runner is a browser jetpack game. The player pays an entry fee in ether to start a game session.
The score grows while the player dodges obstacles, and on game over the screen shows a reward tier. The
player then claims a payout of a multiple of the entry fee. This project models the client's deterministic
core:

- **Reward tiers** (`RewardTier`, `ContractConfig`). This covers the tier the game-over screen computes from
  the final score, the tier table of the contract configuration, and the rules for the Claim and continue
  buttons. It also covers the entry fee and the displayed amounts, both read as integer wei. For that,
  `Ether` models the ethers library's `parseEther`/`formatEther` on decimal text, and `Numerals` models
  digit strings in bases 2 to 16. Finally, it covers the supported networks' hex chain IDs and the decimal
  chain IDs of the deployment configuration.
- **The game loop** (`GameScene`, `GameComponent.Game`). The scene's state is the running score, the
  one-way game-over flag and the obstacles. It changes through five events:
  - the 100 ms score timer;
  - the obstacle spawner;
  - the player-obstacle overlap callback;
  - the physics engine moving obstacles;
  - the per-frame cleanup.

  `GameScene.Step` is the reference definition of one event. The class `Game` holds the same state as
  fields, and each of its callback methods is proved to do what `Step` does.
- **Session and claim state** (`AppComponent.App`, `GameComponent.Game`). This is the Pay & Play handler,
  the game-end reset and the view selection of the application component, plus the Claim Reward handler
  of the game component. Each asynchronous handler is split into one method per stretch between its
  `await` points, and the outcome of each awaited call is a parameter:
  - `Begin…` runs up to the awaited contract call (with the signer before it, which changes no state) and reports what it did;
  - for a payment, `PaymentConfirmed(session)` runs from the receipt to the balance refresh. The game
    starts there while `paying` is still true. `BalanceRefreshed(thrown)` then runs to the end of
    `finally`, and a game may have started and ended in between. `PaymentThrew(message)` is the error
    path before the receipt;
  - for a claim, `CompleteClaim(outcome)` runs from the resolution of `endGame` to the end of `finally`,
    since nothing is awaited after `setRewardClaimed`;
  - `Fire…` is the one-second timer of the simulated path, taken when the contract address is the zero
    address.

The contract address is a constructor parameter of both classes. Both handlers read the one configured
address (`ContractConfig.ContractAddress`), so both parameters are meant to hold that same value. It is
not the zero address, and with it the simulated paths are never taken.

## Model

| member | source | states |
|---|---|---|
| RewardTier.GetRewardTierMatchesTable | src/components/Game.jsx:229-235 | for every integer score, the multiplier text the screen shows reads as the multiplier that the contract configuration's tier table resolves to |
| RewardTier.GetRewardTierMonotone | src/components/Game.jsx:229-235 | the displayed multiplier never decreases as the score grows |
| RewardTier.GetRewardTierBoundaries | src/components/Game.jsx:230-234 | thresholds are inclusive: 499→0, 500→1, 999→1, 1000→2, 1999→2, 2000→5, 4999→5, 5000→10; every score of at least 5000 gives 10 and every score below 500 gives 0 |
| RewardTier.TableMultiplierIsHighest | src/config/contract.js:48-53 | on a table with increasing thresholds, resolution picks the multiplier of the highest threshold the score reaches, and 0 when it reaches none |
| RewardTier.TableMultiplierMonotone | src/config/contract.js:48-53 | on a table with increasing thresholds and non-decreasing multipliers, a higher score never resolves to a smaller multiplier |
| RewardTier.TableMultiplierBound | src/config/contract.js:48-53 | a resolved multiplier is at most any bound on the table's multipliers |
| RewardTier.RewardTiersResolve | src/config/contract.js:48-53 | the configured table resolves to 10, 5, 2, 1 or 0 at the thresholds 5000, 2000, 1000 and 500 |
| ContractConfig.RewardTableOrdered | src/config/contract.js:48-53 | thresholds strictly increase (500 < 1000 < 2000 < 5000) and so do multipliers (1 < 2 < 5 < 10) |
| ContractConfig.EntryFeeWei | src/config/contract.js:11 | the entry fee text "0.001" parses to 10^15 wei |
| ContractConfig.EntryFeeInWeiMatches | src/App.jsx:53-55 | the value attached to `startGame` is the wei value of the entry fee |
| RewardTier.DisplayedAmountIsMultipleOfFee | src/components/Game.jsx:230-234 | each amount text the screen shows parses to its tier's table multiplier times the entry fee in wei (0 for no reward) |
| Ether.FormatParseRoundTrip | src/components/Game.jsx:214 | reading back the text `formatEther` writes for a wei value gives that value |
| Ether.ParseFraction | src/App.jsx:54 | "0." followed by 1 to 18 digits parses to those digits times 10 to the power of the missing decimal places |
| Ether.ParseWhole | src/App.jsx:54 | digits without a point parse to that many whole ether |
| ContractConfig.FindNetwork | src/config/contract.js:14-45 | a lookup by chain ID returns a network whose hex chain ID parses to that ID, and returns nothing only when no network has it |
| ContractConfig.FindNetworkUnique | src/config/contract.js:14-45 | on a table with distinct chain IDs, looking up a network's own chain ID finds exactly that network |
| ContractConfig.SupportedChainIds | src/config/contract.js:14-45 | the hex chain IDs are 0x89 = 137, 0x13882 = 80002, 0xaa36a7 = 11155111, 0xa4b1 = 42161 and 0x38 = 56 |
| ContractConfig.SupportedChainIdsDistinct | src/config/contract.js:14-45 | the supported networks' chain IDs are pairwise distinct |
| ContractConfig.DeployChainIdsAgree | hardhat.config.js:17-34 | every deployment network is a supported network of the same name whose hex chain ID equals its decimal chain ID |
| Numerals.HexRoundTrip | src/config/contract.js:16 | every number written in hex with the 0x prefix parses back to itself |
| Numerals.ShowNatRoundTrip | src/App.jsx:41 | a number written in base 2 to 16 parses back to itself |
| RewardTier.ClaimButtonIffReward | src/components/Game.jsx:297 | the Claim button is shown exactly when the reward is unclaimed and the tier's multiplier is not zero |
| RewardTier.ContinueButtonRules | src/components/Game.jsx:308-312 | the continue label is "Try Again" below 500, "Play Again" once claimed, and "Back to Menu" exactly when the Claim button is shown, which is also exactly when its style is "exit-button" |
| GameScene.StepPreservesInv | src/components/Game.jsx:39-154 | every event keeps the score a non-negative multiple of 10, ties the shown score, the screen and the final score to the flag, and keeps obstacle heights in [50, 150] |
| GameScene.TickAddsTen | src/components/Game.jsx:100-110 | a tick adds exactly 10 while the game is on and nothing after it, leaving the obstacles and the flag alone |
| GameScene.SpawnAddsOne | src/components/Game.jsx:112-121 | a spawn appends exactly one obstacle at x = 850 while the game is on and nothing after it |
| GameScene.HitIdempotent | src/components/Game.jsx:123-137 | a hit ends the game and freezes the final score at the running score; a second hit changes nothing |
| GameScene.FrameCleansUp | src/components/Game.jsx:140-154 | on a live game the corrected cleanup keeps exactly the obstacles at x ≥ -50; on a finished game it changes nothing |
| GameScene.OnScreenMembers | src/components/Game.jsx:149-153 | the corrected cleanup removes every off-screen obstacle and keeps every other one as often as it occurs |
| GameScene.OnScreenLength | src/components/Game.jsx:149-153 | the corrected cleanup never lengthens the collection, and keeps its length exactly when nothing is off screen |
| GameScene.OnScreenIdempotent | src/components/Game.jsx:149-153 | a second corrected cleanup removes nothing more |
| GameScene.CleanupAsWrittenSkipsNeighbour | src/components/Game.jsx:149-153 | the loop as written keeps the second of two neighbouring off-screen obstacles |
| GameScene.ForEachDestroyKeeps | src/components/Game.jsx:149-153 | the loop as written, from any index, leaves the on-screen obstacles as they were, adds nothing, and never lengthens the collection |
| GameScene.CleanupAsWrittenGuarantees | src/components/Game.jsx:149-153 | the loop as written keeps every on-screen obstacle in order and as often as it occurs, removes only off-screen ones, and always removes one occurrence of the first off-screen one |
| GameScene.GameOverIsFinal | src/components/Game.jsx:103 | once the game is over, no sequence of events changes the scene |
| GameScene.RunPreservesInv | src/components/Game.jsx:39-154 | the scene invariant holds after any sequence of events |
| GameScene.ScoreNeverDecreases | src/components/Game.jsx:100-110 | the running score never decreases over any sequence of events |
| GameScene.ScoreCountsTicks | src/components/Game.jsx:100-137 | from a live game, the score is 10 per tick before the first hit; the game is over exactly when a hit occurred; the final score is then that number |
| GameComponent.KeepOnScreen | src/components/Game.jsx:149-153 | the corrected loop over the obstacles keeps exactly the corrected cleanup's result |
| GameComponent.Game.ScoreTick | src/components/Game.jsx:100-110 | the score timer does what `Step` does for a tick, keeps the invariant and leaves the claim state alone |
| GameComponent.Game.SpawnObstacle | src/components/Game.jsx:112-121 | the spawner, given a height in [50, 150], does what `Step` does for a spawn |
| GameComponent.Game.HitObstacle | src/components/Game.jsx:123-137 | the overlap callback does what `Step` does for a hit; after it the game is over with the final score equal to the running score, and a repeated call changes nothing |
| GameComponent.Game.PhysicsStep | src/components/Game.jsx:119 | moving the obstacles does what `Step` does for an advance |
| GameComponent.Game.UpdateGame | src/components/Game.jsx:140-154 | the corrected update callback does what `Step` does for a frame; afterwards no off-screen obstacle remains in a live game |
| GameComponent.Game.BeginClaim | src/components/Game.jsx:167-194 | without a provider or a session, the reward is marked claimed and nothing else changes; with the zero address, the error is cleared, `claiming` ends false and one timer is pending; otherwise the error is cleared, `claiming` is true and `endGame(sessionId, finalScore)` is sent |
| GameComponent.Game.CompleteClaim | src/components/Game.jsx:197-222 | a confirmed claim marks the reward claimed; a thrown error leaves it unclaimed and shows the error's message, or "Failed to claim rewards" when the message is empty; `claiming` is false either way |
| GameComponent.Game.FireClaimTimer | src/components/Game.jsx:182-185 | the simulated claim's timer marks the reward claimed and clears `claiming` |
| GameComponent.ClaimLabelWhileClaiming | src/components/Game.jsx:301-303 | the Claim button reads "Claiming..." exactly while an `endGame` call is awaited, which happens only for a real session on a deployed contract with the reward unclaimed, and "Claim Reward" otherwise |
| GameComponent.ErrorText | src/components/Game.jsx:219 | the shown error is the message when it is not empty, and is never empty when the fallback is not |
| AppComponent.View | src/App.jsx:94-150 | the wallet screen is shown exactly when the address is null or empty; the game exactly when connected and a game is active; otherwise the menu |
| AppComponent.ShortAddressShape | src/App.jsx:99 | an address of at least 10 characters is shown as its first six characters, "..." and its last four, 13 characters in all |
| AppComponent.ShortAddressGeneral | src/App.jsx:99 | for any string, the banner is the first six characters (or all of it), "..." and the last four (or all of it) |
| AppComponent.ShortWalletAddress | src/App.jsx:99 | a 42-character "0x" address is shown in 13 characters that start with "0x" |
| AppComponent.SliceIndex | src/App.jsx:99 | a `slice` index inside the string is used as is, a negative one counts from the end, an index past the end gives the length, and one before the start (after counting from the end) gives 0 |
| AppComponent.DemoSessionId | src/App.jsx:41 | a simulated session id is "demo-session-" followed by the decimal timestamp, and it is a non-empty session |
| AppComponent.DemoSessionIdsDistinct | src/App.jsx:41 | simulated payments at different times get different session ids |
| AppComponent.App.Connect | src/App.jsx:18-20 | a connection with the non-empty address the wallet returned records it and the provider and leads to the menu |
| AppComponent.App.BeginPayAndPlay | src/App.jsx:29-55 | without a provider nothing changes; with the zero address, the error is cleared, `paying` ends false and one timer is pending; otherwise the error is cleared, `paying` is true and `startGame` is sent with 10^15 wei |
| AppComponent.App.PaymentConfirmed | src/App.jsx:58-76 | on the receipt, the session is the event's id, or none when no event is found, and the game screen is shown while `paying` stays true and the balance refresh is awaited |
| AppComponent.App.BalanceRefreshed | src/App.jsx:76-84 | when the balance refresh settles, `paying` ends false; a thrown refresh shows its message, or "Failed to process payment"; the session and the screen are left as they are then |
| AppComponent.App.PaymentThrew | src/App.jsx:79-84 | an error before the receipt shows its message, or "Failed to process payment", never an empty error; the session and the screen are unchanged and `paying` ends false |
| AppComponent.PayLabelWhileProcessing | src/App.jsx:132-138 | the Pay & Play button reads "Processing..." exactly while a real payment's receipt or balance refresh is awaited, and "Pay & Play" otherwise |
| AppComponent.App.FireDemoStart | src/App.jsx:40-44 | the simulation timer sets a "demo-session-" id for the current time, starts the game and clears `paying` |
| AppComponent.App.OnGameEnd | src/App.jsx:145-148 | ending a game returns to the menu with no session, and nothing else changes |

## Left out

- Rendering, arcade physics, gravity, jumping and velocities are engine behaviour with float kinematics.
  Obstacle positions are integers. `GameScene.Advance(dx)` abstracts the engine moving every obstacle left,
  and a collision is the input event `Hit`.
- GameScene.Step and GameComponent.Game.UpdateGame: the frame event is the corrected cleanup, which
  removes every off-screen obstacle. The loop as written is `GameScene.ForEachDestroy`, and its
  behaviour is stated separately by `GameScene.CleanupAsWrittenGuarantees` and
  `GameScene.CleanupAsWrittenSkipsNeighbour`. The per-frame state machine thus does not capture the
  off-screen obstacles the loop as written leaves for a later frame.
- The random obstacle height (`Phaser.Math.Between(50, 150)`) is a parameter in [50, 150]. The timestamp of
  a demo session (`Date.now()`) is a parameter of `AppComponent.App.FireDemoStart`. When timers fire is left
  to the caller: any pending timer can fire at any time.
- The contract's ledger (`startGame`/`endGame` and the payout transfer) is not part of this model. Its
  source is not among the repository's files. Calls to it are reduced to their outcome datatypes.
- Signers, `tx.wait()` and receipt-log parsing are foreign asynchronous I/O. They are reduced to "confirmed,
  with or without the event" or "threw with a message". The payout of the claim event is only logged, so
  `ClaimConfirmed` carries it without effect.
- GameComponent.HasSession: the on-chain session id is taken to be a string, and it is a session when
  non-empty. The contract's ABI is not part of this model, so the truthiness of a numeric id is not
  captured.
- The balance (`getBalance`, `parseFloat`, `toFixed(4)`) is floating point and I/O. Only a failure of the
  balance refresh after a confirmed payment is modelled, since it sets the payment error.
- Ether.ParseEther accepts unsigned decimal text only. The negative amounts and the exotic forms that the
  library accepts or rejects are not modelled. The client parses only the "0.001" entry fee. The tier
  amount texts are only displayed; the model reads them through `ParseEther` (`RewardTier.AmountWei`) to
  relate them to the fee.
- Ether.FormatEther: the client uses `formatEther` in the claim's log message
  (src/components/Game.jsx:214) and to turn the balance into a float (src/App.jsx:24, 77). Both uses are
  left out, as logging and floating point; `FormatEther` is part of the model as the round-trip partner of
  `ParseEther`.
- AppComponent.App and GameComponent.Game take their contract address separately: the model does not tie
  the two instances to one address, so it also admits a simulated payment followed by a real claim, which
  the single configured address rules out.
- The wallet connection screen (provider detection) is not modelled. Its report is the input of
  `AppComponent.App.Connect`.
- The menu's static list of tier texts and the game-over screen's banner and error box are plain rendering of
  state the model already holds.
- The labels show the intended emoji characters; the repository file holds them as mis-decoded bytes.
- console logging, the deployment script and the rest of the deployment configuration are I/O.

## Findings

| source | as written | input that shows it | evidently intended | confidence | as-written member | corrected member |
|---|---|---|---|---|---|---|
| src/components/Game.jsx:149-153 | `forEach` over the group's entry array destroys each obstacle left of x = -50. Destroying removes the obstacle from that same array at once, so the next obstacle moves into the visited index and is not examined this frame | two neighbouring off-screen obstacles at x = -60 and x = -70: the one at -70 survives the frame | every obstacle left of x = -50 is removed in the frame | not executed | GameScene.CleanupAsWrittenSkipsNeighbour | GameScene.OnScreenMembers |
